/** The bounded tail of one output stream, and the cut that makes it decodable. */
module OutputTail {
  import opened Utf8
  import opened Wrappers

  function Flatten(chunks: seq<seq<Byte>>): seq<Byte> {
    if chunks == [] then [] else chunks[0] + Flatten(chunks[1..])
  }

  /** The last `max` bytes of a stream, or all of it when it is shorter. */
  function LastBytes(stream: seq<Byte>, max: nat): seq<Byte> {
    if |stream| <= max then stream else stream[|stream| - max..]
  }

  /** The leading bytes of a buffer that continue a rune whose start is gone. */
  function Orphans(bytes: seq<Byte>): (n: nat)
    ensures n <= |bytes|
  {
    if bytes != [] && Continuation(bytes[0]) then 1 + Orphans(bytes[1..]) else 0
  }

  /** Where decoding starts: past the orphans, unless the first four bytes are all
      continuation bytes, when nothing is left to decode. */
  function Boundary(bytes: seq<Byte>): (n: nat)
    ensures n <= |bytes|
  {
    if Orphans(bytes) < 4 then Orphans(bytes) else |bytes|
  }

  function Decodable(bytes: seq<Byte>): seq<Byte> {
    bytes[Boundary(bytes)..]
  }

  method Utf8BoundaryAfter(bytes: seq<Byte>) returns (index: nat)
    ensures index == Boundary(bytes)
  {
    var limit := if |bytes| < 4 then |bytes| else 4;
    index := 0;
    while index < limit
      invariant 0 <= index <= limit
      invariant Orphans(bytes) == index + Orphans(bytes[index..])
    {
      if !Continuation(bytes[index]) {
        return;
      }
      assert bytes[index..][1..] == bytes[index + 1..];
      index := index + 1;
    }
    return |bytes|;
  }

  class BufferTail {
    const maxBytes: nat
    var chunks: seq<seq<Byte>>
    var bytes: nat
    ghost var stream: seq<Byte>

    ghost predicate Valid()
      reads this
    {
      && bytes == |Flatten(chunks)|
      && Flatten(chunks) == LastBytes(stream, maxBytes)
    }

    constructor (maxBytes: nat)
      ensures Valid() && this.maxBytes == maxBytes && stream == []
    {
      this.maxBytes := maxBytes;
      chunks, bytes, stream := [], 0, [];
    }

    /** Keep exactly the newest `maxBytes` bytes of everything pushed so far. */
    method Push(chunk: seq<Byte>)
      requires Valid()
      modifies this
      ensures Valid() && stream == old(stream) + chunk
    {
      stream := stream + chunk;
      if |chunk| == 0 {
        assert stream == old(stream);
        return;
      }
      if |chunk| >= maxBytes {
        chunks := [chunk[|chunk| - maxBytes..]];
        bytes := maxBytes;
        assert Flatten(chunks) == chunks[0] + [];
        return;
      }
      FlattenAppend(chunks, chunk);
      chunks := chunks + [chunk];
      bytes := bytes + |chunk|;
      ghost var all, dropped: seq<Byte> := Flatten(chunks), [];
      while bytes > maxBytes
        invariant bytes == |Flatten(chunks)|
        invariant all == dropped + Flatten(chunks)
        invariant dropped == [] || bytes >= maxBytes
        invariant stream == old(stream) + chunk
        decreases |chunks|, bytes
      {
        var head := chunks[0];
        var excess := bytes - maxBytes;
        if |head| <= excess {
          Regroup(dropped, head, Flatten(chunks[1..]));
          dropped := dropped + head;
          chunks := chunks[1..];
          bytes := bytes - |head|;
        } else {
          FlattenShortened(chunks, excess);
          Regroup(dropped, head[..excess], Flatten([head[excess..]] + chunks[1..]));
          dropped := dropped + head[..excess];
          chunks := [head[excess..]] + chunks[1..];
          bytes := bytes - excess;
        }
      }
      LastBytesAfterAppend(old(stream), chunk, maxBytes);
    }

    /** The bytes that are decoded: the tail without the runes the cut split. */
    method DecodableTail() returns (tail: seq<Byte>)
      requires Valid()
      ensures tail == Decodable(LastBytes(stream, maxBytes))
    {
      if bytes == 0 {
        return [];
      }
      var all := Flatten(chunks);
      var start := Utf8BoundaryAfter(all);
      tail := all[start..];
    }
  }

  lemma Regroup(a: seq<Byte>, b: seq<Byte>, c: seq<Byte>)
    ensures a + (b + c) == (a + b) + c
  {
  }

  lemma FlattenShortened(chunks: seq<seq<Byte>>, n: nat)
    requires chunks != [] && n <= |chunks[0]|
    ensures Flatten(chunks) == chunks[0][..n] + Flatten([chunks[0][n..]] + chunks[1..])
  {
    assert ([chunks[0][n..]] + chunks[1..])[1..] == chunks[1..];
    Regroup(chunks[0][..n], chunks[0][n..], Flatten(chunks[1..]));
    assert chunks[0][..n] + chunks[0][n..] == chunks[0];
  }

  lemma LastBytesAfterDrop(s: seq<Byte>, n: nat, max: nat)
    requires n + max <= |s|
    ensures LastBytes(s[n..], max) == LastBytes(s, max)
  {
  }

  lemma LastBytesAfterAppend(s: seq<Byte>, t: seq<Byte>, max: nat)
    ensures LastBytes(LastBytes(s, max) + t, max) == LastBytes(s + t, max)
  {
  }

  lemma {:induction false} FlattenAppend(chunks: seq<seq<Byte>>, chunk: seq<Byte>)
    ensures Flatten(chunks + [chunk]) == Flatten(chunks) + chunk
  {
    if chunks == [] {
      assert Flatten([chunk]) == chunk + Flatten([]);
    } else {
      assert (chunks + [chunk])[1..] == chunks[1..] + [chunk];
      FlattenAppend(chunks[1..], chunk);
    }
  }

  // ---------- the reference: a text as the list of its runes' encodings

  /** One lead byte, and at most three continuation bytes. */
  ghost predicate RuneShaped(e: seq<Byte>) {
    1 <= |e| <= 4 && !Continuation(e[0]) && AllContinue(e[1..])
  }

  ghost predicate AllContinue(o: seq<Byte>) {
    forall i :: 0 <= i < |o| ==> Continuation(o[i])
  }

  ghost predicate RunesShaped(runes: seq<seq<Byte>>) {
    forall e :: e in runes ==> RuneShaped(e)
  }

  /** A rune cut short: its lead byte and some, but not all, of the others; or nothing. */
  ghost predicate CutShaped(p: seq<Byte>) {
    p == [] || (RuneShaped(p) && |p| <= 3)
  }

  /** The first rune from which the rest of the text fits in `max` bytes. */
  function FirstFit(runes: seq<seq<Byte>>, max: nat): (k: nat)
    ensures k <= |runes|
  {
    if |Flatten(runes)| <= max then 0 else 1 + FirstFit(runes[1..], max)
  }

  /** The text from there fits, and no longer suffix does. */
  lemma {:induction false} FirstFitIsLongest(runes: seq<seq<Byte>>, max: nat)
    ensures |Flatten(runes[FirstFit(runes, max)..])| <= max
    ensures forall j :: 0 <= j < FirstFit(runes, max) ==> |Flatten(runes[j..])| > max
  {
    if |Flatten(runes)| <= max {
      assert runes[0..] == runes;
    } else {
      FirstFitIsLongest(runes[1..], max);
      assert runes[1..][FirstFit(runes[1..], max)..] == runes[FirstFit(runes, max)..];
      forall j | 0 <= j < FirstFit(runes, max) ensures |Flatten(runes[j..])| > max {
        assert j == 0 ==> runes[j..] == runes;
        assert j > 0 ==> runes[j..] == runes[1..][j - 1..];
      }
    }
  }

  lemma NoOrphansInText(runes: seq<seq<Byte>>, p: seq<Byte>)
    requires RunesShaped(runes) && CutShaped(p)
    ensures Orphans(Flatten(runes) + p) == 0
  {
    if runes == [] {
      assert Flatten(runes) + p == p;
    } else {
      assert runes[0] in runes;
      assert (Flatten(runes) + p)[0] == runes[0][0];
    }
  }

  lemma {:induction false} OrphansBefore(o: seq<Byte>, rest: seq<Byte>)
    requires AllContinue(o)
    ensures Orphans(o + rest) == |o| + Orphans(rest)
  {
    if o == [] {
      assert o + rest == rest;
    } else {
      assert (o + rest)[1..] == o[1..] + rest;
      OrphansBefore(o[1..], rest);
    }
  }

  /** The cut inside one rune: its remaining continuation bytes are dropped, no more. */
  lemma CutInsideRune(o: seq<Byte>, text: seq<Byte>)
    requires |o| <= 3 && Orphans(text) == 0
    requires AllContinue(o)
    ensures Decodable(o + text) == text
  {
    OrphansBefore(o, text);
  }

  /** Of any bytes, text or not: decoding starts at the first byte that can start a rune when
      that is one of the first four, and otherwise nothing is decoded. */
  lemma DecodesFromFirstStart(bytes: seq<Byte>, i: nat)
    requires i <= |bytes| && AllContinue(bytes[..i]) && (i < |bytes| ==> !Continuation(bytes[i]))
    ensures Decodable(bytes) == if i < 4 then bytes[i..] else []
  {
    assert bytes[..i] + bytes[i..] == bytes;
    OrphansBefore(bytes[..i], bytes[i..]);
  }

  lemma LastBytesFromInside(e: seq<Byte>, text: seq<Byte>, max: nat)
    requires |text| <= max < |e| + |text|
    ensures LastBytes(e + text, max) == e[|e| + |text| - max..] + text
  {
  }

  lemma InsideRune(e: seq<Byte>, k: nat)
    requires RuneShaped(e) && 1 <= k <= |e|
    ensures AllContinue(e[k..])
  {
    forall i | 0 <= i < |e| - k ensures Continuation(e[k..][i]) {
      assert e[k..][i] == e[1..][k - 1 + i];
    }
  }

  lemma CutInFirstRune(e: seq<Byte>, text: seq<Byte>, max: nat)
    requires RuneShaped(e) && Orphans(text) == 0
    requires |text| <= max < |e| + |text|
    ensures Decodable(LastBytes(e + text, max)) == text
  {
    var k := |e| + |text| - max;
    InsideRune(e, k);
    CutInsideRune(e[k..], text);
    LastBytesFromInside(e, text, max);
  }

  lemma CutPastFirstRune(e: seq<Byte>, rest: seq<Byte>, max: nat)
    requires |rest| >= max
    ensures LastBytes(e + rest, max) == LastBytes(rest, max)
  {
    assert (e + rest)[|e|..] == rest;
    LastBytesAfterDrop(e + rest, |e|, max);
  }

  /** A tail shorter than the cut rune holds continuation bytes only. */
  lemma OnlyCutRuneLeft(s: seq<Byte>, p: seq<Byte>, max: nat)
    requires CutShaped(p) && |p| > max && |s| >= |p| && s[|s| - |p|..] == p
    ensures Decodable(LastBytes(s, max)) == []
  {
    var k := |p| - max;
    InsideRune(p, k);
    CutInsideRune(p[k..], []);
    assert p[k..] + [] == p[k..] == LastBytes(s, max);
  }

  /** What the tail of a stream keeps: the longest run of whole runes that fits beside the
      cut rune `p` at its end, and `p` itself. */
  function KeptTail(runes: seq<seq<Byte>>, p: seq<Byte>, max: nat): seq<Byte> {
    if |p| > max then [] else Flatten(runes[FirstFit(runes, max - |p|)..]) + p
  }

  lemma KeptTailFits(runes: seq<seq<Byte>>, p: seq<Byte>, max: nat)
    requires |Flatten(runes) + p| <= max
    ensures KeptTail(runes, p, max) == Flatten(runes) + p
  {
    assert runes[0..] == runes;
  }

  lemma KeptTailSkips(runes: seq<seq<Byte>>, p: seq<Byte>, max: nat)
    requires |p| <= max && |Flatten(runes)| > max - |p|
    ensures KeptTail(runes, p, max) == KeptTail(runes[1..], p, max)
  {
    var room := max - |p|;
    assert runes[FirstFit(runes, room)..] == runes[1..][FirstFit(runes[1..], room)..];
  }

  /** One more rune in front of a text that already fills the tail changes nothing. */
  lemma RuneInFront(e: seq<Byte>, text: seq<Byte>, max: nat)
    requires RuneShaped(e) && Orphans(text) == 0 && max < |e| + |text|
    ensures Decodable(LastBytes(e + text, max)) == Decodable(LastBytes(text, max))
  {
    if |text| >= max {
      CutPastFirstRune(e, text, max);
    } else {
      CutInFirstRune(e, text, max);
    }
  }

  lemma FirstRune(runes: seq<seq<Byte>>, p: seq<Byte>)
    requires RunesShaped(runes) && CutShaped(p) && runes != []
    ensures Flatten(runes) + p == runes[0] + (Flatten(runes[1..]) + p)
    ensures RuneShaped(runes[0]) && RunesShaped(runes[1..]) && Orphans(Flatten(runes[1..]) + p) == 0
  {
    assert runes[0] in runes;
    NoOrphansInText(runes[1..], p);
  }

  lemma {:induction false} TailOfStream(runes: seq<seq<Byte>>, p: seq<Byte>, max: nat)
    requires RunesShaped(runes) && CutShaped(p)
    ensures Decodable(LastBytes(Flatten(runes) + p, max)) == KeptTail(runes, p, max)
  {
    if |p| > max {
      OnlyCutRuneLeft(Flatten(runes) + p, p, max);
    } else if |Flatten(runes) + p| <= max {
      NoOrphansInText(runes, p);
      KeptTailFits(runes, p, max);
    } else {
      FirstRune(runes, p);
      RuneInFront(runes[0], Flatten(runes[1..]) + p, max);
      TailOfStream(runes[1..], p, max);
      KeptTailSkips(runes, p, max);
    }
  }

  // ---------- the same for UTF-8 text

  function Encodings(cs: seq<Scalar>): (runes: seq<seq<Byte>>)
    ensures |runes| == |cs| && RunesShaped(runes)
  {
    if cs == [] then [] else [Encode(cs[0])] + Encodings(cs[1..])
  }

  lemma {:induction false} EncodingsFlatten(cs: seq<Scalar>, k: nat)
    requires k <= |cs|
    ensures Encodings(cs)[k..] == Encodings(cs[k..]) && Flatten(Encodings(cs)[k..]) == EncodeAll(cs[k..])
    decreases |cs| - k, |cs|
  {
    if k > 0 {
      EncodingsFlatten(cs[1..], k - 1);
      assert Encodings(cs)[k..] == Encodings(cs[1..])[k - 1..];
      assert cs[k..] == cs[1..][k - 1..];
    } else if cs != [] {
      EncodingsFlatten(cs[1..], 0);
      assert Encodings(cs)[0..] == Encodings(cs) && cs[0..] == cs;
      assert Encodings(cs[1..])[0..] == Encodings(cs[1..]) && cs[1..][0..] == cs[1..];
      assert Encodings(cs)[1..] == Encodings(cs[1..]);
    }
  }

  lemma CutRuneIsCutShaped(p: seq<Byte>)
    requires CutRune(p)
    ensures CutShaped(p)
  {
    if p != [] { CutRuneShape(p); }
  }

  /** How many runes of a text give way to a tail of `max` bytes. */
  function FirstKept(cs: seq<Scalar>, max: nat): (k: nat)
    ensures k <= |cs|
  {
    FirstFit(Encodings(cs), max)
  }

  /** From there the text fits, and no longer suffix of it does. */
  lemma FirstKeptIsLongest(cs: seq<Scalar>, max: nat)
    ensures |EncodeAll(cs[FirstKept(cs, max)..])| <= max
    ensures forall j :: 0 <= j < FirstKept(cs, max) ==> |EncodeAll(cs[j..])| > max
  {
    FirstFitIsLongest(Encodings(cs), max);
    EncodingsFlatten(cs, FirstKept(cs, max));
    forall j | 0 <= j < FirstKept(cs, max) ensures |EncodeAll(cs[j..])| > max {
      EncodingsFlatten(cs, j);
    }
  }

  /** The tail of a stream that ends inside a rune, after the bytes `p` of it. */
  lemma TailOfText(cs: seq<Scalar>, p: seq<Byte>, max: nat)
    requires CutRune(p)
    ensures Decodable(LastBytes(EncodeAll(cs) + p, max)) ==
      if |p| > max then [] else EncodeAll(cs[FirstKept(cs, max - |p|)..]) + p
  {
    CutRuneIsCutShaped(p);
    TailOfStream(Encodings(cs), p, max);
    EncodingsFlatten(cs, 0);
    assert cs[0..] == cs && Encodings(cs)[0..] == Encodings(cs);
    if |p| <= max { EncodingsFlatten(cs, FirstKept(cs, max - |p|)); }
  }

  lemma WholeTail(cs: seq<Scalar>, max: nat)
    ensures Decodable(LastBytes(EncodeAll(cs), max)) == EncodeAll(cs[FirstKept(cs, max)..])
  {
    var runes := Encodings(cs);
    TailOfStream(runes, [], max);
    assert Flatten(runes) + [] == Flatten(runes) == Flatten(runes[0..]) by { assert runes[0..] == runes; }
    EncodingsFlatten(cs, 0);
    assert cs[0..] == cs;
    EncodingsFlatten(cs, FirstKept(cs, max));
    assert KeptTail(runes, [], max) == Flatten(runes[FirstKept(cs, max)..]);
  }

  /** The result text of a stream of whole runes is its longest suffix that fits. */
  lemma ResultIsLongestSuffix(cs: seq<Scalar>, max: nat, tail: seq<Byte>)
    requires tail == Decodable(LastBytes(EncodeAll(cs), max))
    ensures DecodeAll(tail) == Some(cs[FirstKept(cs, max)..])
  {
    WholeTail(cs, max);
    RoundTrip(cs[FirstKept(cs, max)..]);
  }

  /** A rune cut short at the end of the stream is kept, so the result decodes cleanly
      exactly when the stream ends on a rune or the tail is too short to hold the cut rune. */
  lemma CleanExactlyWhen(cs: seq<Scalar>, p: seq<Byte>, max: nat, tail: seq<Byte>)
    requires CutRune(p)
    requires tail == Decodable(LastBytes(EncodeAll(cs) + p, max))
    ensures DecodeAll(tail).Some? <==> p == [] || |p| > max
  {
    TailOfText(cs, p, max);
    if p == [] {
      var kept := cs[FirstKept(cs, max)..];
      assert EncodeAll(kept) + p == EncodeAll(kept);
      RoundTrip(kept);
    } else if |p| <= max {
      CutRuneDoesNotDecode(cs[FirstKept(cs, max - |p|)..], p);
    }
  }

  /** The euro sign cut after two of its three bytes stays, undecodable, in a 2 MiB tail. */
  lemma TrailingCutIsKept(tail: seq<Byte>)
    requires tail == Decodable(LastBytes(EncodeAll([]) + [0xE2, 0x82], 2 * 1024 * 1024))
    ensures CutRune([0xE2, 0x82]) && DecodeAll(tail) == None
  {
    var euro: Scalar := 0x20AC;
    assert Encode(euro) == [0xE2, 0x82, 0xAC];
    assert [0xE2, 0x82] < Encode(euro);
    CleanExactlyWhen([], [0xE2, 0x82], 2 * 1024 * 1024, tail);
  }
}
