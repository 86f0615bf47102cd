/** The windows in which a generation streamed: intervals merged into the canonical form of
    their union. */
module GenerationWindows {
  const TOKENIZER_MINIMUM_WINDOW_MS := 100

  /** A stretch of time, up to but not including `last`. */
  datatype Span = Span(first: int, last: int)

  predicate Qualifies(s: Span) {
    s.last - s.first >= TOKENIZER_MINIMUM_WINDOW_MS
  }

  predicate Contains(w: Span, s: Span) {
    w.first <= s.first && s.last <= w.last
  }

  predicate Within(s: Span, t: int) {
    s.first <= t < s.last
  }

  ghost predicate Covered(spans: seq<Span>, t: int) {
    exists s :: s in spans && Within(s, t)
  }

  ghost predicate SortedByFirst(spans: seq<Span>) {
    forall i, j :: 0 <= i < j < |spans| ==> spans[i].first <= spans[j].first
  }

  ghost predicate AllQualify(spans: seq<Span>) {
    forall s :: s in spans ==> Qualifies(s)
  }

  /** Nonempty intervals in order, with a gap between any two. */
  ghost predicate Canonical(ws: seq<Span>) {
    && (forall w :: w in ws ==> w.first < w.last)
    && (forall i, j :: 0 <= i < j < |ws| ==> ws[i].last < ws[j].first)
  }

  function Inserted(s: Span, sorted: seq<Span>): seq<Span> {
    if sorted == [] || s.first <= sorted[0].first then [s] + sorted else [sorted[0]] + Inserted(s, sorted[1..])
  }

  /** A stable sort by start. */
  function Sorted(spans: seq<Span>): seq<Span> {
    if spans == [] then [] else Inserted(spans[0], Sorted(spans[1..]))
  }

  function Max(a: int, b: int): int {
    if a < b then b else a
  }

  function AddSpan(merged: seq<Span>, span: Span): seq<Span> {
    var n := |merged|;
    if n > 0 && span.first <= merged[n - 1].last
    then merged[n - 1 := merged[n - 1].(last := Max(merged[n - 1].last, span.last))]
    else merged + [span]
  }

  function MergedFrom(merged: seq<Span>, spans: seq<Span>): seq<Span>
    decreases |spans|
  {
    if spans == [] then merged else MergedFrom(AddSpan(merged, spans[0]), spans[1..])
  }

  /** The windows of a collection of spans, in whatever order they come. */
  function Windows(spans: seq<Span>): seq<Span> {
    MergedFrom([], Sorted(spans))
  }

  method Merge(spans: seq<Span>) returns (merged: seq<Span>)
    ensures merged == MergedFrom([], spans)
  {
    merged := [];
    for i := 0 to |spans|
      invariant MergedFrom(merged, spans[i..]) == MergedFrom([], spans)
    {
      var span := spans[i];
      assert spans[i..][0] == span && spans[i..][1..] == spans[i + 1..];
      if |merged| > 0 && span.first <= merged[|merged| - 1].last {
        var current := merged[|merged| - 1];
        merged := merged[|merged| - 1 := current.(last := Max(current.last, span.last))];
      } else {
        merged := merged + [span];
      }
    }
    assert spans[|spans|..] == [];
  }

  // ---------- sorting

  ghost predicate StartsBy(first: int, spans: seq<Span>) {
    forall s :: s in spans ==> first <= s.first
  }

  lemma SortedCons(s: Span, rest: seq<Span>)
    requires SortedByFirst(rest) && StartsBy(s.first, rest)
    ensures SortedByFirst([s] + rest)
  {
    forall i, j | 0 <= i < j < |rest| + 1 ensures ([s] + rest)[i].first <= ([s] + rest)[j].first {
      assert rest[j - 1] in rest;
    }
  }

  lemma SortedTail(s: seq<Span>)
    requires SortedByFirst(s) && s != []
    ensures SortedByFirst(s[1..]) && StartsBy(s[0].first, s)
  {
    forall x | x in s ensures s[0].first <= x.first {
      var i :| 0 <= i < |s| && s[i] == x;
    }
  }

  lemma {:induction false} InsertedIsPermutation(s: Span, sorted: seq<Span>)
    ensures multiset(Inserted(s, sorted)) == multiset(sorted) + multiset{s}
  {
    if sorted == [] || s.first <= sorted[0].first {
    } else {
      InsertedIsPermutation(s, sorted[1..]);
      assert sorted == [sorted[0]] + sorted[1..];
    }
  }

  lemma {:induction false} InsertedIsSorted(s: Span, sorted: seq<Span>)
    requires SortedByFirst(sorted)
    ensures SortedByFirst(Inserted(s, sorted))
  {
    if sorted == [] {
    } else {
      SortedTail(sorted);
      if s.first <= sorted[0].first {
        SortedCons(s, sorted);
      } else {
        InsertedIsSorted(s, sorted[1..]);
        InsertedIsPermutation(s, sorted[1..]);
        forall x | x in Inserted(s, sorted[1..]) ensures sorted[0].first <= x.first {
          assert x in multiset(sorted[1..]) + multiset{s};
        }
        SortedCons(sorted[0], Inserted(s, sorted[1..]));
      }
    }
  }

  lemma {:induction false} SortedIsSorted(spans: seq<Span>)
    ensures SortedByFirst(Sorted(spans)) && multiset(Sorted(spans)) == multiset(spans)
  {
    if spans == [] {
    } else {
      SortedIsSorted(spans[1..]);
      InsertedIsSorted(spans[0], Sorted(spans[1..]));
      InsertedIsPermutation(spans[0], Sorted(spans[1..]));
      assert spans == [spans[0]] + spans[1..];
    }
  }

  lemma SameMembers<T>(a: seq<T>, b: seq<T>)
    requires multiset(a) == multiset(b)
    ensures forall x :: x in a <==> x in b
  {
    forall x ensures x in a <==> x in b {
      assert x in a <==> x in multiset(a);
      assert x in b <==> x in multiset(b);
    }
  }

  // ---------- merging keeps the union, and makes it canonical

  /** The state of the merge: canonical so far, and no later span starts before it. */
  ghost predicate Mergeable(merged: seq<Span>, spans: seq<Span>) {
    && Canonical(merged) && AllQualify(merged)
    && SortedByFirst(spans) && AllQualify(spans)
    && (merged != [] && spans != [] ==> merged[|merged| - 1].first <= spans[0].first)
  }

  lemma AddSpanKeeps(merged: seq<Span>, span: Span)
    requires Canonical(merged) && AllQualify(merged) && Qualifies(span)
    requires merged != [] ==> merged[|merged| - 1].first <= span.first
    ensures var next := AddSpan(merged, span);
      && Canonical(next) && AllQualify(next) && next != []
      && next[|next| - 1].first <= span.first
      && (exists w :: w in next && Contains(w, span))
      && (forall v :: v in merged ==> exists w :: w in next && Contains(w, v))
  {
    var n, next := |merged|, AddSpan(merged, span);
    if n > 0 && span.first <= merged[n - 1].last {
      assert next[n - 1] in next && Contains(next[n - 1], span) && Contains(next[n - 1], merged[n - 1]);
      forall w | w in next ensures Qualifies(w) {
        assert w == next[n - 1] || w in merged;
      }
      forall v | v in merged ensures exists w :: w in next && Contains(w, v) {
        var i :| 0 <= i < n && merged[i] == v;
        assert next[i] in next && Contains(next[i], v);
      }
    } else {
      assert next[n] in next && Contains(next[n], span);
      forall v | v in merged ensures exists w :: w in next && Contains(w, v) {
        assert v in next && Contains(v, v);
      }
      forall i, j | 0 <= i < j < |next| ensures next[i].last < next[j].first {
        if j == n && i < n - 1 {
          assert merged[i].last < merged[n - 1].first;
          assert merged[n - 1] in merged;
        }
      }
    }
  }

  lemma AddSpanCovers(merged: seq<Span>, span: Span, t: int)
    requires merged != [] ==> merged[|merged| - 1].first <= span.first
    ensures Covered(AddSpan(merged, span), t) <==> Covered(merged, t) || Within(span, t)
  {
    var n, next := |merged|, AddSpan(merged, span);
    if n > 0 && span.first <= merged[n - 1].last {
      var before, after := merged[n - 1], next[n - 1];
      assert before in merged && after in next;
      assert forall v :: v in merged && v != before ==> v in next by {
        forall v | v in merged && v != before ensures v in next {
          var i :| 0 <= i < n && merged[i] == v;
          assert next[i] == v;
        }
      }
      assert forall v :: v in next && v != after ==> v in merged;
    } else {
      assert span in next;
      assert forall v :: v in merged ==> v in next;
      assert forall v :: v in next ==> v in merged || v == span;
    }
  }

  ghost predicate AllHeld(spans: seq<Span>, ws: seq<Span>) {
    forall s :: s in spans ==> exists w :: w in ws && Contains(w, s)
  }

  lemma HeldTwice(spans: seq<Span>, mid: seq<Span>, ws: seq<Span>)
    requires AllHeld(spans, mid) && AllHeld(mid, ws)
    ensures AllHeld(spans, ws)
  {
    forall s | s in spans ensures exists w :: w in ws && Contains(w, s) {
      var v :| v in mid && Contains(v, s);
      var w :| w in ws && Contains(w, v);
      assert Contains(w, s);
    }
  }

  lemma MergeableNext(merged: seq<Span>, spans: seq<Span>)
    requires Mergeable(merged, spans) && spans != []
    ensures Mergeable(AddSpan(merged, spans[0]), spans[1..])
  {
    assert spans[0] in spans;
    AddSpanKeeps(merged, spans[0]);
  }

  lemma {:induction false} MergedIsCanonical(merged: seq<Span>, spans: seq<Span>)
    requires Mergeable(merged, spans)
    ensures Canonical(MergedFrom(merged, spans)) && AllQualify(MergedFrom(merged, spans))
    decreases |spans|
  {
    if spans == [] {
    } else {
      MergeableNext(merged, spans);
      MergedIsCanonical(AddSpan(merged, spans[0]), spans[1..]);
    }
  }

  lemma HeldBySelf(ws: seq<Span>)
    ensures AllHeld(ws, ws)
  {
    forall s | s in ws ensures exists w :: w in ws && Contains(w, s) {
      assert Contains(s, s);
    }
  }

  lemma HeldTogether(a: seq<Span>, b: seq<Span>, ws: seq<Span>)
    requires AllHeld(a, ws) && AllHeld(b, ws)
    ensures AllHeld(a + b, ws)
  {
  }

  lemma AddSpanHolds(merged: seq<Span>, spans: seq<Span>)
    requires Mergeable(merged, spans) && spans != []
    ensures AllHeld(merged, AddSpan(merged, spans[0])) && AllHeld([spans[0]], AddSpan(merged, spans[0]))
  {
    assert spans[0] in spans;
    AddSpanKeeps(merged, spans[0]);
  }

  lemma {:induction false} MergedHoldsAll(merged: seq<Span>, spans: seq<Span>)
    requires Mergeable(merged, spans)
    ensures AllHeld(merged, MergedFrom(merged, spans)) && AllHeld(spans, MergedFrom(merged, spans))
    decreases |spans|
  {
    var ws := MergedFrom(merged, spans);
    if spans == [] {
      HeldBySelf(merged);
    } else {
      var next := AddSpan(merged, spans[0]);
      MergeableNext(merged, spans);
      MergedHoldsAll(next, spans[1..]);
      AddSpanHolds(merged, spans);
      HeldTwice(merged, next, ws);
      HeldTwice([spans[0]], next, ws);
      HeldTogether([spans[0]], spans[1..], ws);
      assert spans == [spans[0]] + spans[1..];
    }
  }

  lemma {:induction false} MergedKeepsUnion(merged: seq<Span>, spans: seq<Span>, t: int)
    requires Mergeable(merged, spans)
    ensures Covered(MergedFrom(merged, spans), t) <==> Covered(merged, t) || Covered(spans, t)
    decreases |spans|
  {
    if spans == [] {
    } else {
      MergeableNext(merged, spans);
      MergedKeepsUnion(AddSpan(merged, spans[0]), spans[1..], t);
      AddSpanCovers(merged, spans[0], t);
      assert spans == [spans[0]] + spans[1..];
    }
  }

  /** The windows of qualifying spans: sorted, apart, at least the minimum long, with the
      same union as the spans, each of which lies in one of them. */
  lemma WindowsAreTheUnion(spans: seq<Span>)
    requires AllQualify(spans)
    ensures var ws := Windows(spans);
      && Canonical(ws) && AllQualify(ws)
      && (forall t :: Covered(ws, t) <==> Covered(spans, t))
      && AllHeld(spans, ws)
      && (ws == [] <==> spans == [])
  {
    SortedIsSorted(spans);
    SameMembers(spans, Sorted(spans));
    MergedIsCanonical([], Sorted(spans));
    MergedHoldsAll([], Sorted(spans));
    var ws := Windows(spans);
    forall t ensures Covered(ws, t) <==> Covered(spans, t) {
      MergedKeepsUnion([], Sorted(spans), t);
    }
    if ws != [] {
      assert ws[0] in ws && Within(ws[0], ws[0].first);
    }
    if spans != [] {
      assert spans[0] in spans;
    }
  }

  // ---------- the canonical form is unique

  lemma FirstPoint(ws: seq<Span>)
    requires Canonical(ws) && ws != []
    ensures Covered(ws, ws[0].first) && !Covered(ws, ws[0].last)
    ensures forall t :: t < ws[0].first ==> !Covered(ws, t)
    ensures forall t :: ws[0].first <= t < ws[0].last ==> Covered(ws, t)
    ensures forall t :: Covered(ws[1..], t) <==> Covered(ws, t) && t >= ws[0].last
  {
    assert ws[0] in ws;
    forall w | w in ws ensures w == ws[0] || w.first > ws[0].last {
      var i :| 0 <= i < |ws| && ws[i] == w;
    }
    forall w | w in ws[1..] ensures w in ws && w.first > ws[0].last {
      var i :| 0 <= i < |ws| - 1 && ws[1..][i] == w;
      assert ws[i + 1] == w;
    }
    assert ws == [ws[0]] + ws[1..];
  }

  lemma {:induction false} CanonicalIsUnique(a: seq<Span>, b: seq<Span>)
    requires Canonical(a) && Canonical(b)
    requires forall t :: Covered(a, t) <==> Covered(b, t)
    ensures a == b
    decreases |a|
  {
    if a != [] { FirstPoint(a); }
    if b != [] { FirstPoint(b); }
    if a != [] && b != [] {
      assert a[0].first == b[0].first;
      assert a[0].last == b[0].last by { assert a[0] in a && b[0] in b; }
      CanonicalTail(a);
      CanonicalTail(b);
      CanonicalIsUnique(a[1..], b[1..]);
      assert a == [a[0]] + a[1..] && b == [b[0]] + b[1..];
    }
  }

  lemma CanonicalTail(ws: seq<Span>)
    requires Canonical(ws) && ws != []
    ensures Canonical(ws[1..])
  {
    forall w | w in ws[1..] ensures w.first < w.last {
      assert w in ws;
    }
  }

  /** Spans with the same union have the same windows: order and repetition do not matter. */
  lemma WindowsDependOnUnion(a: seq<Span>, b: seq<Span>)
    requires AllQualify(a) && AllQualify(b)
    requires forall t :: Covered(a, t) <==> Covered(b, t)
    ensures Windows(a) == Windows(b)
  {
    WindowsAreTheUnion(a);
    WindowsAreTheUnion(b);
    CanonicalIsUnique(Windows(a), Windows(b));
  }

  // ---------- the measured time

  function TotalMs(ws: seq<Span>): int {
    if ws == [] then 0 else ws[0].last - ws[0].first + TotalMs(ws[1..])
  }

  function Points(s: Span): set<int> {
    set t | s.first <= t < s.last && Within(s, t)
  }

  function AllPoints(ws: seq<Span>): set<int> {
    if ws == [] then {} else Points(ws[0]) + AllPoints(ws[1..])
  }

  lemma {:induction false} PointsOfSpan(s: Span)
    requires s.first <= s.last
    ensures |Points(s)| == s.last - s.first
    decreases s.last - s.first
  {
    if s.first == s.last {
      assert Points(s) == {};
    } else {
      var shorter := Span(s.first, s.last - 1);
      PointsOfSpan(shorter);
      assert Points(s) == Points(shorter) + {s.last - 1};
    }
  }

  /** The measured time is the exact size of the union: no millisecond counts twice. */
  lemma {:induction false} TotalIsSizeOfUnion(ws: seq<Span>)
    requires Canonical(ws)
    ensures |AllPoints(ws)| == TotalMs(ws)
    ensures forall t :: t in AllPoints(ws) <==> Covered(ws, t)
  {
    if ws == [] {
    } else {
      FirstPoint(ws);
      CanonicalTail(ws);
      TotalIsSizeOfUnion(ws[1..]);
      assert ws[0] in ws;
      PointsOfSpan(ws[0]);
      assert Points(ws[0]) !! AllPoints(ws[1..]);
    }
  }
}
