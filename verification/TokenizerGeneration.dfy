/** One generation's streamed content, measured: what was observed on each channel, the
    windows it streamed in, and the tokens each window holds. */
module TokenizerGenerations {
  import opened GenerationWindows
  import opened Wrappers

  const MAX_SAFE_INTEGER := 9007199254740991

  /** When a delta arrived; a clock may fail to tell. */
  datatype Instant = At(ms: int) | NotFinite

  datatype Delta = Delta(key: string, text: string, at: Instant)

  datatype Block = Block(text: string, first: int, last: int)

  datatype Window = Window(tokens: nat, first: int, last: int)

  datatype Measured = Measured(tokens: nat, windows: seq<Window>)

  /** The blocks by channel, in the order in which the channels first spoke. */
  datatype Generation = Generation(order: seq<string>, blocks: map<string, Block>, lastMS: int, invalid: bool)

  const NOTHING := Generation([], map[], 0, false)

  function Observed(g: Generation, d: Delta): Generation {
    if d.text == "" then g
    else if d.at.NotFinite? || d.at.ms <= 0 || g.lastMS > d.at.ms then g.(invalid := true)
    else if d.key in g.blocks then
      var b := g.blocks[d.key];
      g.(blocks := g.blocks[d.key := Block(b.text + d.text, b.first, d.at.ms)], lastMS := d.at.ms)
    else
      g.(order := g.order + [d.key], blocks := g.blocks[d.key := Block(d.text, d.at.ms, d.at.ms)], lastMS := d.at.ms)
  }

  function ObservedAll(ds: seq<Delta>): Generation {
    if ds == [] then NOTHING else Observed(ObservedAll(ds[..|ds| - 1]), ds[|ds| - 1])
  }

  function SpanOf(b: Block): Span {
    Span(b.first, b.last)
  }

  /** The intervals of the blocks that streamed long enough to have one. */
  function SpansOf(blocks: seq<Block>): seq<Span> {
    if blocks == [] then []
    else
      var last := SpanOf(blocks[|blocks| - 1]);
      SpansOf(blocks[..|blocks| - 1]) + (if Qualifies(last) then [last] else [])
  }

  function SumOf(blocks: seq<Block>, weight: Block -> nat): nat {
    if blocks == [] then 0 else SumOf(blocks[..|blocks| - 1], weight) + weight(blocks[|blocks| - 1])
  }

  /** The first window that holds a span, or the number of windows. */
  function FindWindow(ws: seq<Span>, s: Span): (i: nat)
    ensures i <= |ws|
    ensures i < |ws| ==> Contains(ws[i], s)
    ensures forall j :: 0 <= j < i ==> !Contains(ws[j], s)
  {
    if ws == [] || Contains(ws[0], s) then 0 else 1 + FindWindow(ws[1..], s)
  }

  function Held(w: Span, count: string -> nat, b: Block): nat {
    if Contains(w, SpanOf(b)) then count(b.text) else 0
  }

  function Attributed(ws: seq<Span>, count: string -> nat, b: Block): nat {
    if FindWindow(ws, SpanOf(b)) < |ws| then count(b.text) else 0
  }

  function TokensInside(w: Span, count: string -> nat): Block -> nat {
    (b: Block) => Held(w, count, b)
  }

  function TokensAttributed(ws: seq<Span>, count: string -> nat): Block -> nat {
    (b: Block) => Attributed(ws, count, b)
  }

  function WindowOf(blocks: seq<Block>, w: Span, count: string -> nat): Window {
    Window(SumOf(blocks, TokensInside(w, count)), w.first, w.last)
  }

  function WindowsOf(blocks: seq<Block>, ws: seq<Span>, count: string -> nat): seq<Window> {
    seq(|ws|, i requires 0 <= i < |ws| => WindowOf(blocks, ws[i], count))
  }

  function MeasureOf(blocks: seq<Block>, count: string -> nat): Option<Measured> {
    var ws := Windows(SpansOf(blocks));
    var tokens := SumOf(blocks, TokensAttributed(ws, count));
    if ws == [] || tokens > MAX_SAFE_INTEGER || tokens == 0 then None
    else Some(Measured(tokens, WindowsOf(blocks, ws, count)))
  }

  function Each(order: seq<string>, blocks: map<string, Block>): seq<Block>
    requires forall k :: k in order ==> k in blocks
  {
    if order == [] then [] else Each(order[..|order| - 1], blocks) + [blocks[order[|order| - 1]]]
  }

  /** Every channel once, and no block that ends before it begins. */
  ghost predicate WellFormed(g: Generation) {
    && (forall k :: k in g.order <==> k in g.blocks)
    && (forall i, j :: 0 <= i < j < |g.order| ==> g.order[i] != g.order[j])
    && (forall k :: k in g.blocks ==> g.blocks[k].first <= g.blocks[k].last <= g.lastMS)
  }

  function MeasureGeneration(g: Generation, count: string -> nat): Option<Measured>
    requires WellFormed(g)
  {
    if g.invalid || g.order == [] then None else MeasureOf(Each(g.order, g.blocks), count)
  }

  class TokenizerGeneration {
    var order: seq<string>
    var blocks: map<string, Block>
    var lastMS: int
    var invalid: bool

    function State(): Generation
      reads this
    {
      Generation(order, blocks, lastMS, invalid)
    }

    constructor ()
      ensures State() == NOTHING
    {
      order, blocks, lastMS, invalid := [], map[], 0, false;
    }

    method Observe(key: string, text: string, at: Instant)
      modifies this
      ensures State() == Observed(old(State()), Delta(key, text, at))
    {
      if text == "" {
        return;
      }
      if at.NotFinite? || at.ms <= 0 || lastMS > at.ms {
        invalid := true;
        return;
      }
      if key in blocks {
        blocks := blocks[key := Block(blocks[key].text + text, blocks[key].first, at.ms)];
      } else {
        order := order + [key];
        blocks := blocks[key := Block(text, at.ms, at.ms)];
      }
      lastMS := at.ms;
    }

    method Measure(count: string -> nat) returns (r: Option<Measured>)
      requires WellFormed(State())
      ensures r == MeasureGeneration(State(), count)
    {
      if invalid || order == [] {
        return None;
      }
      var all := Each(order, blocks);
      var merged := Merge(Sorted(SpansOf(all)));
      if merged == [] {
        return None;
      }
      WindowsOfBlocks(all);
      EachIsWhole(order, blocks);
      var tallies, tokens := Attribute(all, merged, count);
      if tokens > MAX_SAFE_INTEGER || tokens <= 0 {
        return None;
      }
      var windows := seq(|merged|, i requires 0 <= i < |merged| => Window(tallies[i], merged[i].first, merged[i].last));
      assert windows == WindowsOf(all, merged, count);
      r := Some(Measured(tokens, windows));
    }

    /** Every block's tokens go to the window that holds the block, or are left out. */
    static method Attribute(all: seq<Block>, merged: seq<Span>, count: string -> nat)
        returns (tallies: seq<nat>, tokens: nat)
      requires Canonical(merged) && Whole(all)
      ensures tokens == SumOf(all, TokensAttributed(merged, count))
      ensures |tallies| == |merged|
      ensures forall i :: 0 <= i < |merged| ==> tallies[i] == SumOf(all, TokensInside(merged[i], count))
    {
      tallies := seq(|merged|, _ => 0);
      tokens := 0;
      for n := 0 to |all|
        invariant |tallies| == |merged|
        invariant tokens == SumOf(all[..n], TokensAttributed(merged, count))
        invariant forall i :: 0 <= i < |merged| ==> tallies[i] == SumOf(all[..n], TokensInside(merged[i], count))
      {
        var block := all[n];
        var window := FindWindow(merged, SpanOf(block));
        assert block in all;
        OnlyOneWindow(merged, SpanOf(block));
        SumOfNext(all, n, TokensAttributed(merged, count));
        forall i | 0 <= i < |merged|
          ensures SumOf(all[..n + 1], TokensInside(merged[i], count))
            == tallies[i] + (if i == window then count(block.text) else 0)
        {
          SumOfNext(all, n, TokensInside(merged[i], count));
        }
        if window < |merged| {
          tallies := tallies[window := tallies[window] + count(block.text)];
          tokens := tokens + count(block.text);
        }
      }
      assert all[..|all|] == all;
    }
  }

  ghost predicate Whole(blocks: seq<Block>) {
    forall b :: b in blocks ==> b.first <= b.last
  }

  lemma SumOfNext(blocks: seq<Block>, n: nat, weight: Block -> nat)
    requires n < |blocks|
    ensures SumOf(blocks[..n + 1], weight) == SumOf(blocks[..n], weight) + weight(blocks[n])
  {
    assert blocks[..n + 1][..n] == blocks[..n];
  }

  lemma {:induction false} EachIsWhole(order: seq<string>, blocks: map<string, Block>)
    requires forall k :: k in order ==> k in blocks && blocks[k].first <= blocks[k].last
    ensures Whole(Each(order, blocks))
  {
    if order != [] {
      EachIsWhole(order[..|order| - 1], blocks);
    }
  }

  lemma {:induction false} SpansQualify(blocks: seq<Block>)
    ensures AllQualify(SpansOf(blocks))
  {
    if blocks != [] {
      SpansQualify(blocks[..|blocks| - 1]);
    }
  }

  lemma WindowsOfBlocks(blocks: seq<Block>)
    ensures Canonical(Windows(SpansOf(blocks)))
  {
    SpansQualify(blocks);
    WindowsAreTheUnion(SpansOf(blocks));
  }

  /** Windows stand apart, so at most one of them holds a span. */
  lemma OnlyOneWindow(ws: seq<Span>, s: Span)
    requires Canonical(ws) && s.first <= s.last
    ensures forall i :: 0 <= i < |ws| ==> (Contains(ws[i], s) <==> i == FindWindow(ws, s))
  {
  }

  // ---------- what was observed

  function ChannelText(ds: seq<Delta>, key: string): string {
    if ds == [] then ""
    else
      var d := ds[|ds| - 1];
      ChannelText(ds[..|ds| - 1], key) + (if d.key == key then d.text else "")
  }

  /** The arrival times of a channel's nonempty deltas. */
  function ChannelTimes(ds: seq<Delta>, key: string): seq<Instant> {
    if ds == [] then []
    else
      var d := ds[|ds| - 1];
      ChannelTimes(ds[..|ds| - 1], key) + (if d.key == key && d.text != "" then [d.at] else [])
  }

  /** Every nonempty delta has a positive time, and none is earlier than one before it. */
  ghost predicate Clean(ds: seq<Delta>) {
    && (forall i :: 0 <= i < |ds| && ds[i].text != "" ==> ds[i].at.At? && ds[i].at.ms > 0)
    && (forall i, j :: 0 <= i < j < |ds| && ds[i].text != "" && ds[j].text != "" ==> ds[i].at.ms <= ds[j].at.ms)
  }

  lemma CleanPrefix(ds: seq<Delta>)
    requires Clean(ds) && ds != []
    ensures Clean(ds[..|ds| - 1])
  {
  }

  ghost predicate ArrivedOrZero(ds: seq<Delta>, ms: int) {
    ms == 0 || exists i :: 0 <= i < |ds| && ds[i].text != "" && ds[i].at == At(ms)
  }

  /** A generation is poisoned exactly by a delta without a positive time or out of order. */
  lemma {:induction false} PoisonedExactlyWhen(ds: seq<Delta>)
    ensures ObservedAll(ds).invalid <==> !Clean(ds)
    ensures Clean(ds) ==> forall i :: 0 <= i < |ds| && ds[i].text != "" ==> ds[i].at.ms <= ObservedAll(ds).lastMS
    ensures Clean(ds) ==> ArrivedOrZero(ds, ObservedAll(ds).lastMS)
  {
    if ds == [] {
    } else {
      var n, prefix := |ds| - 1, ds[..|ds| - 1];
      PoisonedExactlyWhen(prefix);
      if Clean(prefix) {
        CleanExtends(ds, ObservedAll(prefix).lastMS);
        var g := ObservedAll(prefix);
        if ds[n].text == "" && g.lastMS != 0 {
          var i :| 0 <= i < n && prefix[i].text != "" && prefix[i].at == At(g.lastMS);
          assert ds[i] == prefix[i];
        }
      } else {
        if Clean(ds) { CleanPrefix(ds); }
      }
    }
  }

  lemma CleanExtends(ds: seq<Delta>, last: int)
    requires ds != [] && Clean(ds[..|ds| - 1])
    requires forall i :: 0 <= i < |ds| - 1 && ds[i].text != "" ==> ds[i].at.At? && ds[i].at.ms <= last
    requires ArrivedOrZero(ds[..|ds| - 1], last)
    ensures var d := ds[|ds| - 1];
      Clean(ds) <==> d.text == "" || (d.at.At? && d.at.ms > 0 && d.at.ms >= last)
  {
    var prefix := ds[..|ds| - 1];
    assert forall i :: 0 <= i < |prefix| ==> prefix[i] == ds[i];
  }

  lemma ObservedKeepsWellFormed(g: Generation, d: Delta)
    requires WellFormed(g)
    ensures WellFormed(Observed(g, d))
  {
  }

  lemma {:induction false} ObservedAllIsWellFormed(ds: seq<Delta>)
    ensures WellFormed(ObservedAll(ds))
  {
    if ds != [] {
      ObservedAllIsWellFormed(ds[..|ds| - 1]);
      ObservedKeepsWellFormed(ObservedAll(ds[..|ds| - 1]), ds[|ds| - 1]);
    }
  }

  ghost predicate BlockIs(b: Block, text: string, times: seq<Instant>) {
    times != [] && b.text == text && times[0] == At(b.first) && times[|times| - 1] == At(b.last)
  }

  ghost predicate ChannelIs(g: Generation, k: string, text: string, times: seq<Instant>) {
    if k in g.blocks then BlockIs(g.blocks[k], text, times) else times == [] && text == ""
  }

  lemma ObservedKeepsChannel(g: Generation, d: Delta, k: string, text: string, times: seq<Instant>)
    requires ChannelIs(g, k, text, times) && !Observed(g, d).invalid && !g.invalid
    ensures ChannelIs(Observed(g, d), k, text + (if d.key == k then d.text else ""),
      times + (if d.key == k && d.text != "" then [d.at] else []))
  {
    assert text + "" == text && times + [] == times;
    assert text == "" ==> text + d.text == d.text;
  }

  /** A channel's block is its text, and its first and last arrival, and nothing else. */
  lemma {:induction false} BlockIsChannel(ds: seq<Delta>, k: string)
    requires Clean(ds)
    ensures ChannelIs(ObservedAll(ds), k, ChannelText(ds, k), ChannelTimes(ds, k))
  {
    if ds != [] {
      var prefix, d := ds[..|ds| - 1], ds[|ds| - 1];
      CleanPrefix(ds);
      BlockIsChannel(prefix, k);
      PoisonedExactlyWhen(prefix);
      PoisonedExactlyWhen(ds);
      ObservedKeepsChannel(ObservedAll(prefix), d, k, ChannelText(prefix, k), ChannelTimes(prefix, k));
    }
  }

  // ---------- the measurement ignores order

  lemma {:induction false} SumOfConcat(a: seq<Block>, b: seq<Block>, weight: Block -> nat)
    ensures SumOf(a + b, weight) == SumOf(a, weight) + SumOf(b, weight)
  {
    if b == [] {
      assert a + b == a;
    } else {
      assert (a + b)[..|a + b| - 1] == a + b[..|b| - 1];
      SumOfConcat(a, b[..|b| - 1], weight);
    }
  }

  lemma WithoutOne<T>(s: seq<T>, i: nat)
    requires i < |s|
    ensures multiset(s) == multiset(s[..i] + s[i + 1..]) + multiset{s[i]}
  {
    assert s == s[..i] + [s[i]] + s[i + 1..];
  }

  lemma EmptyOrHasFirst<T>(s: seq<T>)
    ensures s == [] || s[0] in s
  {
  }

  lemma SumWithout(b: seq<Block>, i: nat, weight: Block -> nat)
    requires i < |b|
    ensures SumOf(b, weight) == SumOf(b[..i] + b[i + 1..], weight) + weight(b[i])
  {
    var x := b[i];
    assert b == b[..i] + ([x] + b[i + 1..]);
    SumOfConcat(b[..i], [x] + b[i + 1..], weight);
    SumOfConcat([x], b[i + 1..], weight);
    SumOfConcat(b[..i], b[i + 1..], weight);
    assert [x][..0] == [];
  }

  lemma PermutationsWithout(a: seq<Block>, b: seq<Block>, i: nat)
    requires a != [] && multiset(a) == multiset(b) && i < |b| && b[i] == a[|a| - 1]
    ensures multiset(a[..|a| - 1]) == multiset(b[..i] + b[i + 1..])
  {
    WithoutOne(b, i);
    assert a == a[..|a| - 1] + [a[|a| - 1]];
    assert multiset(a[..|a| - 1]) == multiset(a) - multiset{b[i]};
  }

  lemma EmptyTogether(a: seq<Block>, b: seq<Block>)
    requires multiset(a) == multiset(b)
    ensures a == [] <==> b == []
    ensures a != [] ==> a[|a| - 1] in b
  {
    assert |multiset(a)| == |a| && |multiset(b)| == |b|;
    assert a != [] ==> a[|a| - 1] in multiset(b);
  }

  /** A sum over blocks is a sum over the collection of them. */
  lemma {:induction false} SumOfPermutation(a: seq<Block>, b: seq<Block>, weight: Block -> nat)
    requires multiset(a) == multiset(b)
    ensures SumOf(a, weight) == SumOf(b, weight)
    decreases |a|
  {
    EmptyTogether(a, b);
    if a != [] {
      var i :| 0 <= i < |b| && b[i] == a[|a| - 1];
      PermutationsWithout(a, b, i);
      SumOfPermutation(a[..|a| - 1], b[..i] + b[i + 1..], weight);
      SumWithout(b, i, weight);
    }
  }

  lemma {:induction false} SpanAmong(blocks: seq<Block>, s: Span)
    ensures s in SpansOf(blocks) <==> Qualifies(s) && exists b :: b in blocks && SpanOf(b) == s
  {
    if blocks != [] {
      SpanAmong(blocks[..|blocks| - 1], s);
      assert blocks == blocks[..|blocks| - 1] + [blocks[|blocks| - 1]];
    }
  }

  lemma SameSpansSameUnion(a: seq<Block>, b: seq<Block>)
    requires multiset(a) == multiset(b)
    ensures forall t :: Covered(SpansOf(a), t) <==> Covered(SpansOf(b), t)
  {
    SameMembers(a, b);
    forall s ensures s in SpansOf(a) <==> s in SpansOf(b) {
      SpanAmong(a, s);
      SpanAmong(b, s);
    }
  }

  lemma MeasureIgnoresOrder(a: seq<Block>, b: seq<Block>, count: string -> nat)
    requires multiset(a) == multiset(b)
    ensures MeasureOf(a, count) == MeasureOf(b, count)
  {
    SameSpansSameUnion(a, b);
    SpansQualify(a);
    SpansQualify(b);
    WindowsDependOnUnion(SpansOf(a), SpansOf(b));
    var ws := Windows(SpansOf(a));
    SumOfPermutation(a, b, TokensAttributed(ws, count));
    forall i | 0 <= i < |ws| ensures WindowOf(a, ws[i], count) == WindowOf(b, ws[i], count) {
      SumOfPermutation(a, b, TokensInside(ws[i], count));
    }
    assert WindowsOf(a, ws, count) == WindowsOf(b, ws, count);
  }

  predicate Distinct(order: seq<string>) {
    forall i, j :: 0 <= i < j < |order| ==> order[i] != order[j]
  }

  lemma Appended(a: seq<Block>, b: seq<Block>, x: Block, y: Block)
    requires multiset(a) == multiset(b) + multiset{x}
    ensures multiset(a + [y]) == multiset(b + [y]) + multiset{x}
  {
  }

  lemma {:induction false} EachWithout(order: seq<string>, i: nat, blocks: map<string, Block>)
    requires i < |order| && forall k :: k in order ==> k in blocks
    ensures forall k :: k in order[..i] + order[i + 1..] ==> k in blocks
    ensures var rest := order[..i] + order[i + 1..];
      multiset(Each(order, blocks)) == multiset(Each(rest, blocks)) + multiset{blocks[order[i]]}
  {
    var n, rest := |order| - 1, order[..i] + order[i + 1..];
    forall k | k in rest ensures k in blocks {
      assert k in order;
    }
    if i == n {
      assert rest == order[..n];
    } else {
      var shorter := order[..n][..i] + order[..n][i + 1..];
      EachWithout(order[..n], i, blocks);
      assert rest == shorter + [order[n]];
      assert rest[..|rest| - 1] == shorter;
      Appended(Each(order[..n], blocks), Each(shorter, blocks), blocks[order[i]], blocks[order[n]]);
    }
  }

  /** The same blocks, enumerated in any order without repetition, are the same collection. */
  lemma {:induction false} EachIgnoresOrder(a: seq<string>, b: seq<string>, blocks: map<string, Block>)
    requires Distinct(a) && Distinct(b) && forall k :: k in a <==> k in b
    requires forall k :: k in a ==> k in blocks
    ensures multiset(Each(a, blocks)) == multiset(Each(b, blocks))
    decreases |a|
  {
    if a == [] {
      EmptyOrHasFirst(b);
    } else {
      var n, x := |a| - 1, a[|a| - 1];
      assert x in a;
      var i :| 0 <= i < |b| && b[i] == x;
      var rest := b[..i] + b[i + 1..];
      EachWithout(b, i, blocks);
      DistinctWithout(b, i);
      assert Distinct(a[..n]);
      forall k ensures k in a[..n] <==> k in rest {
        DropOne(a, n, k);
        DropOne(b, i, k);
      }
      EachIgnoresOrder(a[..n], rest, blocks);
    }
  }

  lemma DistinctWithout(order: seq<string>, i: nat)
    requires Distinct(order) && i < |order|
    ensures Distinct(order[..i] + order[i + 1..])
  {
    var rest := order[..i] + order[i + 1..];
    forall j, k | 0 <= j < k < |rest| ensures rest[j] != rest[k] {
      assert rest[j] == order[if j < i then j else j + 1] && rest[k] == order[if k < i then k else k + 1];
    }
  }

  lemma DropOne(order: seq<string>, i: nat, k: string)
    requires Distinct(order) && i < |order|
    ensures k in order[..i] + order[i + 1..] <==> k in order && k != order[i]
    ensures i == |order| - 1 ==> order[..i] + order[i + 1..] == order[..i]
  {
    if k in order && k != order[i] {
      var j :| 0 <= j < |order| && order[j] == k;
      assert j < i ==> order[..i][j] == k;
      assert j > i ==> order[i + 1..][j - i - 1] == k;
    }
  }

  /** The two observations agree on every channel: its text, and when it began and ended. */
  ghost predicate SameChannels(a: seq<Delta>, b: seq<Delta>) {
    forall k ::
      && ChannelText(a, k) == ChannelText(b, k)
      && (ChannelTimes(a, k) == [] <==> ChannelTimes(b, k) == [])
      && (ChannelTimes(a, k) != [] && ChannelTimes(b, k) != [] ==>
          && ChannelTimes(a, k)[0] == ChannelTimes(b, k)[0]
          && ChannelTimes(a, k)[|ChannelTimes(a, k)| - 1] == ChannelTimes(b, k)[|ChannelTimes(b, k)| - 1])
  }

  lemma SameChannelsSameBlocks(a: seq<Delta>, b: seq<Delta>)
    requires Clean(a) && Clean(b) && SameChannels(a, b)
    ensures ObservedAll(a).blocks == ObservedAll(b).blocks
  {
    var x, y := ObservedAll(a).blocks, ObservedAll(b).blocks;
    forall k ensures k in x <==> k in y {
      BlockIsChannel(a, k);
      BlockIsChannel(b, k);
    }
    forall k | k in x ensures x[k] == y[k] {
      BlockIsChannel(a, k);
      BlockIsChannel(b, k);
    }
  }

  /** How a client splits and interleaves its deltas, and which channel speaks first, does
      not matter: the measurement depends on each channel's text, beginning and end alone. */
  lemma MeasureIgnoresSplitting(a: seq<Delta>, b: seq<Delta>, count: string -> nat)
    requires Clean(a) && Clean(b) && SameChannels(a, b)
    ensures WellFormed(ObservedAll(a)) && WellFormed(ObservedAll(b))
    ensures MeasureGeneration(ObservedAll(a), count) == MeasureGeneration(ObservedAll(b), count)
  {
    var g, h := ObservedAll(a), ObservedAll(b);
    ObservedAllIsWellFormed(a);
    ObservedAllIsWellFormed(b);
    PoisonedExactlyWhen(a);
    PoisonedExactlyWhen(b);
    SameChannelsSameBlocks(a, b);
    assert forall k :: k in g.order <==> k in h.order;
    EachIgnoresOrder(g.order, h.order, g.blocks);
    MeasureIgnoresOrder(Each(g.order, g.blocks), Each(h.order, g.blocks), count);
    EmptyOrHasFirst(g.order);
    EmptyOrHasFirst(h.order);
  }

  // ---------- what a measurement says

  function SumTokens(ws: seq<Window>): nat {
    if ws == [] then 0 else SumTokens(ws[..|ws| - 1]) + ws[|ws| - 1].tokens
  }

  lemma {:induction false} SumTokensOfNone(ws: seq<Span>, count: string -> nat)
    ensures SumTokens(WindowsOf([], ws, count)) == 0
    decreases |ws|
  {
    if ws != [] {
      var n := |ws| - 1;
      SumTokensOfNone(ws[..n], count);
      assert WindowsOf([], ws, count)[..n] == WindowsOf([], ws[..n], count);
    }
  }

  lemma TotalsSplit(blocks: seq<Block>, ws: seq<Span>, count: string -> nat)
    requires ws != []
    ensures var n := |ws| - 1;
      SumTokens(WindowsOf(blocks, ws, count))
        == SumTokens(WindowsOf(blocks, ws[..n], count)) + SumOf(blocks, TokensInside(ws[n], count))
  {
    assert WindowsOf(blocks, ws, count)[..|ws| - 1] == WindowsOf(blocks, ws[..|ws| - 1], count);
  }

  lemma AttributedSplit(ws: seq<Span>, count: string -> nat, b: Block)
    requires Canonical(ws) && b.first <= b.last && ws != []
    ensures Attributed(ws, count, b) == Attributed(ws[..|ws| - 1], count, b) + Held(ws[|ws| - 1], count, b)
  {
    OnlyOneWindow(ws, SpanOf(b));
    FindInPrefix(ws, SpanOf(b));
  }

  /** One more block adds to the window totals what the windows hold of it. */
  lemma {:induction false} SumTokensOfOneMore(blocks: seq<Block>, b: Block, ws: seq<Span>, count: string -> nat)
    requires Canonical(ws) && b.first <= b.last
    ensures SumTokens(WindowsOf(blocks + [b], ws, count))
      == SumTokens(WindowsOf(blocks, ws, count)) + Attributed(ws, count, b)
    decreases |ws|
  {
    if ws != [] {
      var n := |ws| - 1;
      CanonicalPrefix(ws);
      SumTokensOfOneMore(blocks, b, ws[..n], count);
      TotalsSplit(blocks + [b], ws, count);
      TotalsSplit(blocks, ws, count);
      AttributedSplit(ws, count, b);
      assert (blocks + [b])[..|blocks|] == blocks;
    }
  }

  lemma CanonicalPrefix(ws: seq<Span>)
    requires Canonical(ws) && ws != []
    ensures Canonical(ws[..|ws| - 1])
  {
    forall w | w in ws[..|ws| - 1] ensures w.first < w.last {
      assert w in ws;
    }
  }

  lemma FindInPrefix(ws: seq<Span>, s: Span)
    requires ws != [] && Canonical(ws) && s.first <= s.last
    ensures FindWindow(ws, s) < |ws| - 1 ==> FindWindow(ws[..|ws| - 1], s) < |ws| - 1
    ensures FindWindow(ws, s) >= |ws| - 1 ==> FindWindow(ws[..|ws| - 1], s) == |ws| - 1
  {
    var rest, i, j := ws[..|ws| - 1], FindWindow(ws, s), FindWindow(ws[..|ws| - 1], s);
    if i < |ws| - 1 {
      assert Contains(rest[i], s);
    }
    if j < |ws| - 1 {
      assert Contains(ws[j], s);
    }
  }

  /** The window tokens sum to the tokens of the measurement. */
  lemma {:induction false} WindowTokensSum(blocks: seq<Block>, ws: seq<Span>, count: string -> nat)
    requires Canonical(ws) && Whole(blocks)
    ensures SumTokens(WindowsOf(blocks, ws, count)) == SumOf(blocks, TokensAttributed(ws, count))
  {
    if blocks == [] {
      SumTokensOfNone(ws, count);
    } else {
      var n := |blocks| - 1;
      assert blocks[n] in blocks;
      assert Whole(blocks[..n]) by { assert forall b :: b in blocks[..n] ==> b in blocks; }
      WindowTokensSum(blocks[..n], ws, count);
      SumTokensOfOneMore(blocks[..n], blocks[n], ws, count);
      assert blocks == blocks[..n] + [blocks[n]];
    }
  }

  function SpansOfWindows(ws: seq<Window>): (spans: seq<Span>)
    ensures |spans| == |ws|
  {
    seq(|ws|, i requires 0 <= i < |ws| => Span(ws[i].first, ws[i].last))
  }

  lemma WindowsHoldBlocks(blocks: seq<Block>, b: Block)
    requires b in blocks && Qualifies(SpanOf(b))
    ensures var ws := Windows(SpansOf(blocks));
      && FindWindow(ws, SpanOf(b)) < |ws|
      && forall i :: 0 <= i < |ws| ==> (Contains(ws[i], SpanOf(b)) <==> i == FindWindow(ws, SpanOf(b)))
  {
    var ws := Windows(SpansOf(blocks));
    SpansQualify(blocks);
    WindowsAreTheUnion(SpansOf(blocks));
    SpanAmong(blocks, SpanOf(b));
    OnlyOneWindow(ws, SpanOf(b));
    var w :| w in ws && Contains(w, SpanOf(b));
    var i :| 0 <= i < |ws| && ws[i] == w;
  }

  /** What the windows of a measurement are: sorted, apart and long enough; they cover exactly
      the union of the qualifying blocks' spans, whose size is the measured time. */
  lemma MeasuredWindowsAreExact(blocks: seq<Block>)
    ensures var ws := Windows(SpansOf(blocks));
      && Canonical(ws) && AllQualify(ws)
      && (forall t :: Covered(ws, t) <==> exists b :: b in blocks && Qualifies(SpanOf(b)) && Within(SpanOf(b), t))
      && TotalMs(ws) == |AllPoints(ws)| && (forall t :: t in AllPoints(ws) <==> Covered(ws, t))
  {
    var ws := Windows(SpansOf(blocks));
    SpansQualify(blocks);
    WindowsAreTheUnion(SpansOf(blocks));
    TotalIsSizeOfUnion(ws);
    forall t ensures Covered(ws, t) <==> exists b :: b in blocks && Qualifies(SpanOf(b)) && Within(SpanOf(b), t) {
      CoveredByBlocks(blocks, t);
    }
  }

  /** A measurement reports those windows, puts each qualifying block in exactly one of them,
      and its window tokens sum to its total. */
  lemma MeasurementIsExact(blocks: seq<Block>, count: string -> nat)
    requires Whole(blocks) && MeasureOf(blocks, count).Some?
    ensures var m := MeasureOf(blocks, count).value; var ws := SpansOfWindows(m.windows);
      && ws == Windows(SpansOf(blocks))
      && (forall b :: b in blocks && Qualifies(SpanOf(b)) ==>
          && FindWindow(ws, SpanOf(b)) < |ws|
          && forall i :: 0 <= i < |ws| ==> (Contains(ws[i], SpanOf(b)) <==> i == FindWindow(ws, SpanOf(b))))
      && SumTokens(m.windows) == m.tokens && 0 < m.tokens <= MAX_SAFE_INTEGER
  {
    var m := MeasureOf(blocks, count).value;
    var ws := Windows(SpansOf(blocks));
    WindowsOfBlocks(blocks);
    WindowTokensSum(blocks, ws, count);
    assert SpansOfWindows(m.windows) == ws;
    forall b | b in blocks && Qualifies(SpanOf(b))
      ensures FindWindow(ws, SpanOf(b)) < |ws|
      ensures forall i :: 0 <= i < |ws| ==> (Contains(ws[i], SpanOf(b)) <==> i == FindWindow(ws, SpanOf(b)))
    {
      WindowsHoldBlocks(blocks, b);
    }
  }

  lemma CoveredByBlocks(blocks: seq<Block>, t: int)
    ensures Covered(SpansOf(blocks), t)
      <==> exists b :: b in blocks && Qualifies(SpanOf(b)) && Within(SpanOf(b), t)
  {
    if Covered(SpansOf(blocks), t) {
      var s :| s in SpansOf(blocks) && Within(s, t);
      SpanAmong(blocks, s);
    }
    forall b | b in blocks && Qualifies(SpanOf(b)) && Within(SpanOf(b), t) ensures Covered(SpansOf(blocks), t) {
      SpanAmong(blocks, SpanOf(b));
    }
  }

  // ---------- when there is a measurement, and of how much

  /** Some window holds the block: it opened one, or it fell inside one that others opened. */
  ghost predicate InWindow(blocks: seq<Block>, b: Block) {
    exists w :: w in Windows(SpansOf(blocks)) && Contains(w, SpanOf(b))
  }

  ghost function StreamedOf(blocks: seq<Block>, count: string -> nat, b: Block): nat {
    if InWindow(blocks, b) then count(b.text) else 0
  }

  ghost function Streamed(blocks: seq<Block>, count: string -> nat): Block -> nat {
    (b: Block) => StreamedOf(blocks, count, b)
  }

  /** The tokens of every block that lies in a window; the others are left out. */
  ghost function StreamedTokens(blocks: seq<Block>, count: string -> nat): nat {
    SumOf(blocks, Streamed(blocks, count))
  }

  lemma {:induction false} SameSums(blocks: seq<Block>, a: Block -> nat, b: Block -> nat)
    requires forall x :: x in blocks ==> a(x) == b(x)
    ensures SumOf(blocks, a) == SumOf(blocks, b)
  {
    if blocks != [] {
      assert blocks[|blocks| - 1] in blocks;
      SameSums(blocks[..|blocks| - 1], a, b);
    }
  }

  lemma AttributedIsStreamed(blocks: seq<Block>, count: string -> nat)
    ensures SumOf(blocks, TokensAttributed(Windows(SpansOf(blocks)), count)) == StreamedTokens(blocks, count)
  {
    var ws := Windows(SpansOf(blocks));
    forall b | b in blocks ensures TokensAttributed(ws, count)(b) == Streamed(blocks, count)(b) {
      var i := FindWindow(ws, SpanOf(b));
      if i < |ws| { assert ws[i] in ws; }
      if InWindow(blocks, b) {
        var w :| w in ws && Contains(w, SpanOf(b));
        var j :| 0 <= j < |ws| && ws[j] == w;
      }
    }
    SameSums(blocks, TokensAttributed(ws, count), Streamed(blocks, count));
  }

  lemma WindowsOpenExactlyWhen(blocks: seq<Block>)
    ensures Windows(SpansOf(blocks)) != [] <==> exists b :: b in blocks && Qualifies(SpanOf(b))
  {
    var ws := Windows(SpansOf(blocks));
    MeasuredWindowsAreExact(blocks);
    if ws != [] {
      assert ws[0] in ws && Within(ws[0], ws[0].first);
      assert Covered(ws, ws[0].first);
    }
    forall b | b in blocks && Qualifies(SpanOf(b)) ensures ws != [] {
      WindowsHoldBlocks(blocks, b);
    }
  }

  /** A window holds the tokens of the blocks inside it. */
  predicate HoldsItsTokens(w: Window, blocks: seq<Block>, count: string -> nat) {
    w.tokens == SumOf(blocks, TokensInside(Span(w.first, w.last), count))
  }

  /** There is a measurement exactly when some block streamed long enough to open a window and
      the tokens inside the windows are positive and safe; it reports just those tokens, and
      for each window those of the blocks inside it. */
  lemma MeasuredExactlyWhen(blocks: seq<Block>, count: string -> nat)
    ensures MeasureOf(blocks, count).Some? <==>
      (exists b :: b in blocks && Qualifies(SpanOf(b))) && 0 < StreamedTokens(blocks, count) <= MAX_SAFE_INTEGER
    ensures MeasureOf(blocks, count).Some? ==>
      var m := MeasureOf(blocks, count).value;
      m.tokens == StreamedTokens(blocks, count) && forall w :: w in m.windows ==> HoldsItsTokens(w, blocks, count)
  {
    WindowsOpenExactlyWhen(blocks);
    AttributedIsStreamed(blocks, count);
    if MeasureOf(blocks, count).Some? {
      var m := MeasureOf(blocks, count).value;
      assert SpansOfWindows(m.windows) == Windows(SpansOf(blocks));
    }
  }

  // ---------- the collector of one streamed response

  datatype Sample = Sample(outputTokens: nat, windowMs: int, windows: seq<Window>)

  datatype Signal = Received(delta: Delta) | Complete | Fail

  /** The deltas before the first completion: what came later is not measured. */
  function MeasuredDeltas(signals: seq<Signal>): seq<Delta> {
    if signals == [] then []
    else
      var rest, last := signals[..|signals| - 1], signals[|signals| - 1];
      MeasuredDeltas(rest) + (if last.Received? && Complete !in rest then [last.delta] else [])
  }

  class TpsGenerationCollector {
    const generation: TokenizerGeneration
    var completed: bool
    var failed: bool
    ghost var signals: seq<Signal>

    ghost predicate Valid()
      reads this, generation
    {
      && (completed <==> Complete in signals)
      && (failed <==> Fail in signals)
      && generation.State() == ObservedAll(MeasuredDeltas(signals))
    }

    constructor ()
      ensures Valid() && signals == [] && fresh(generation)
    {
      generation := new TokenizerGeneration();
      completed, failed, signals := false, false, [];
    }

    method Observe(channel: string, text: string, at: Instant)
      requires Valid()
      modifies this, generation
      ensures Valid() && signals == old(signals) + [Received(Delta(channel, text, at))]
    {
      ghost var d := Delta(channel, text, at);
      signals := signals + [Received(d)];
      assert signals[..|signals| - 1] == old(signals);
      ghost var before := MeasuredDeltas(old(signals));
      assert (before + [d])[..|before|] == before && before + [] == before;
      if text == "" || completed {
        return;
      }
      generation.Observe(channel, text, at);
    }

    method MarkComplete()
      requires Valid()
      modifies this
      ensures Valid() && signals == old(signals) + [Complete]
    {
      completed := true;
      signals := signals + [Complete];
      assert signals[..|signals| - 1] == old(signals);
      assert MeasuredDeltas(signals) == MeasuredDeltas(old(signals)) + [] == MeasuredDeltas(old(signals));
    }

    method MarkFailed()
      requires Valid()
      modifies this
      ensures Valid() && signals == old(signals) + [Fail]
    {
      failed := true;
      signals := signals + [Fail];
      assert signals[..|signals| - 1] == old(signals);
      assert MeasuredDeltas(signals) == MeasuredDeltas(old(signals)) + [] == MeasuredDeltas(old(signals));
    }

    /** A sample exists only for a completed response that never failed, and measures what
        came before the completion. */
    method TakeSample(count: string -> nat) returns (r: Option<Sample>)
      requires Valid()
      ensures r == SampleOf(signals, count)
    {
      ObservedAllIsWellFormed(MeasuredDeltas(signals));
      if !completed || failed {
        return None;
      }
      var measured := generation.Measure(count);
      if measured.None? {
        return None;
      }
      var m := measured.value;
      var windowMs := TotalMs(SpansOfWindows(m.windows));
      r := Some(Sample(m.tokens, windowMs, m.windows));
    }
  }

  function SampleOf(signals: seq<Signal>, count: string -> nat): Option<Sample> {
    if Complete !in signals || Fail in signals then None
    else
      ObservedAllIsWellFormed(MeasuredDeltas(signals));
      var m := MeasureGeneration(ObservedAll(MeasuredDeltas(signals)), count);
      if m.None? then None
      else Some(Sample(m.value.tokens, TotalMs(SpansOfWindows(m.value.windows)), m.value.windows))
  }

  /** Nothing received after the completion can enter a sample. */
  lemma {:induction false} LateDeltasDoNotCount(signals: seq<Signal>, late: seq<Signal>, count: string -> nat)
    requires Complete in signals && Fail !in late
    ensures SampleOf(signals + late, count) == SampleOf(signals, count)
    decreases |late|
  {
    LateDeltasDrop(signals, late);
    assert Complete in signals + late;
    assert Fail in signals + late <==> Fail in signals;
  }

  lemma {:induction false} LateDeltasDrop(signals: seq<Signal>, late: seq<Signal>)
    requires Complete in signals
    ensures MeasuredDeltas(signals + late) == MeasuredDeltas(signals)
    decreases |late|
  {
    if late == [] {
      assert signals + late == signals;
    } else {
      var all, earlier := signals + late, late[..|late| - 1];
      assert all[..|all| - 1] == signals + earlier;
      assert Complete in signals + earlier;
      LateDeltasDrop(signals, earlier);
    }
  }

  /** The blocks that a response's deltas form, in the order the channels first spoke. */
  function BlocksOf(ds: seq<Delta>): seq<Block> {
    ObservedAllIsWellFormed(ds);
    Each(ObservedAll(ds).order, ObservedAll(ds).blocks)
  }

  /** A response has a sample exactly when it completed and never failed, every delta before
      its completion came in order with a positive time, and there is a measurement; and the
      sample is that measurement, with the time its windows cover. */
  lemma SampleExactlyWhen(signals: seq<Signal>, count: string -> nat)
    ensures var blocks := BlocksOf(MeasuredDeltas(signals));
      && (SampleOf(signals, count).Some? <==>
            Complete in signals && Fail !in signals && Clean(MeasuredDeltas(signals))
            && MeasureOf(blocks, count).Some?)
      && (SampleOf(signals, count).Some? ==>
            var r, m := SampleOf(signals, count).value, MeasureOf(blocks, count).value;
            && r.outputTokens == m.tokens && r.windows == m.windows
            && r.windowMs == |AllPoints(SpansOfWindows(r.windows))|)
  {
    var ds := MeasuredDeltas(signals);
    var blocks := BlocksOf(ds);
    PoisonedExactlyWhen(ds);
    MeasuredExactlyWhen(blocks, count);
    if SampleOf(signals, count).Some? {
      var m := MeasureOf(blocks, count).value;
      assert SpansOfWindows(m.windows) == Windows(SpansOf(blocks));
      MeasuredWindowsAreExact(blocks);
    }
  }
}
