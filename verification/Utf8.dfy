/** UTF-8 as section 3 of RFC 3629 defines it: the reference against which the
    retained output tails are measured. */
module Utf8 {
  import opened Wrappers

  type Byte = b: int | 0 <= b < 256

  /** A Unicode scalar value: every code point except the surrogates. */
  type Scalar = c: int | 0 <= c < 0xD800 || 0xE000 <= c < 0x11_0000

  /** 10xxxxxx: a byte that cannot start a rune. */
  predicate Continuation(b: Byte) {
    b / 64 == 2
  }

  function Encode(c: Scalar): (e: seq<Byte>)
    ensures 1 <= |e| <= 4
    ensures !Continuation(e[0]) && forall i :: 1 <= i < |e| ==> Continuation(e[i])
  {
    if c < 0x80 then [c]
    else if c < 0x800 then [0xC0 + c / 64, 0x80 + c % 64]
    else if c < 0x1_0000 then [0xE0 + c / 64 / 64, 0x80 + c / 64 % 64, 0x80 + c % 64]
    else [0xF0 + c / 64 / 64 / 64, 0x80 + c / 64 / 64 % 64, 0x80 + c / 64 % 64, 0x80 + c % 64]
  }

  function EncodeAll(cs: seq<Scalar>): seq<Byte> {
    if cs == [] then [] else Encode(cs[0]) + EncodeAll(cs[1..])
  }

  /** The number of bytes a lead byte announces, or none when it cannot lead. */
  function RuneLength(lead: Byte): Option<nat> {
    if lead < 0x80 then Some(1)
    else if 0xC0 <= lead < 0xE0 then Some(2)
    else if 0xE0 <= lead < 0xF0 then Some(3)
    else if 0xF0 <= lead < 0xF8 then Some(4)
    else None
  }

  function Payload(bytes: seq<int>): int
    requires 1 <= |bytes| <= 4
  {
    if |bytes| == 1 then bytes[0]
    else if |bytes| == 2 then (bytes[0] - 0xC0) * 64 + bytes[1] - 0x80
    else if |bytes| == 3 then ((bytes[0] - 0xE0) * 64 + bytes[1] - 0x80) * 64 + bytes[2] - 0x80
    else (((bytes[0] - 0xF0) * 64 + bytes[1] - 0x80) * 64 + bytes[2] - 0x80) * 64 + bytes[3] - 0x80
  }

  /** Strict decoding of the first rune: overlong forms, surrogates and values past
      U+10FFFF are refused by encoding the payload again. */
  function DecodeOne(bytes: seq<Byte>): (r: Option<Scalar>)
    ensures r.Some? ==> Encode(r.value) <= bytes
  {
    if bytes == [] || RuneLength(bytes[0]).None? then None
    else
      var n := RuneLength(bytes[0]).value;
      if |bytes| < n then None
      else
        var c := Payload(bytes[..n]);
        if !(0 <= c < 0xD800 || 0xE000 <= c < 0x11_0000) then None
        else if Encode(c) == bytes[..n] then Some(c)
        else None
  }

  function DecodeAll(bytes: seq<Byte>): Option<seq<Scalar>> {
    if bytes == [] then Some([])
    else
      match DecodeOne(bytes)
      case None => None
      case Some(c) =>
        match DecodeAll(bytes[|Encode(c)|..])
        case None => None
        case Some(cs) => Some([c] + cs)
  }

  lemma PayloadOfEncode(c: Scalar)
    ensures RuneLength(Encode(c)[0]) == Some(|Encode(c)|)
    ensures Payload(Encode(c)) == c
    ensures (|Encode(c)| <= 1 <==> c < 0x80) && (|Encode(c)| <= 2 <==> c < 0x800)
    ensures |Encode(c)| <= 3 <==> c < 0x1_0000
  {
  }

  lemma DecodeOneOfEncode(c: Scalar, rest: seq<Byte>)
    ensures DecodeOne(Encode(c) + rest) == Some(c)
  {
    PayloadOfEncode(c);
    assert (Encode(c) + rest)[..|Encode(c)|] == Encode(c);
  }

  /** Decoding inverts encoding on every text. */
  lemma {:induction false} RoundTrip(cs: seq<Scalar>)
    ensures DecodeAll(EncodeAll(cs)) == Some(cs)
  {
    if cs == [] {
    } else {
      DecodeOneOfEncode(cs[0], EncodeAll(cs[1..]));
      assert EncodeAll(cs)[|Encode(cs[0])|..] == EncodeAll(cs[1..]);
      RoundTrip(cs[1..]);
      assert [cs[0]] + cs[1..] == cs;
    }
  }

  /** A rune cut short: some of an encoding's bytes from its start, but not all. */
  ghost predicate CutRune(p: seq<Byte>) {
    p == [] || exists c: Scalar :: p < Encode(c)
  }

  lemma CutRuneShape(p: seq<Byte>)
    requires CutRune(p) && p != []
    ensures |p| <= 3 && !Continuation(p[0])
    ensures forall i :: 1 <= i < |p| ==> Continuation(p[i])
    ensures RuneLength(p[0]).Some? && |p| < RuneLength(p[0]).value
  {
    var c: Scalar :| p < Encode(c);
    PayloadOfEncode(c);
    forall i | 0 <= i < |p| ensures p[i] == Encode(c)[i] {}
  }

  /** Text followed by a cut rune does not decode. */
  lemma {:induction false} CutRuneDoesNotDecode(cs: seq<Scalar>, p: seq<Byte>)
    requires CutRune(p) && p != []
    ensures DecodeAll(EncodeAll(cs) + p) == None
  {
    CutRuneShape(p);
    if cs == [] {
      assert EncodeAll(cs) + p == p;
    } else {
      var rest := EncodeAll(cs[1..]) + p;
      assert EncodeAll(cs) + p == Encode(cs[0]) + rest;
      DecodeOneOfEncode(cs[0], rest);
      assert (EncodeAll(cs) + p)[|Encode(cs[0])|..] == rest;
      CutRuneDoesNotDecode(cs[1..], p);
    }
  }
}
