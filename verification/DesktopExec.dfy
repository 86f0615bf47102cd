/** The `Exec` line of an autostart entry: how a path is quoted, and how the three layers of
    the Desktop Entry Specification take the quoting off again. */
module DesktopExec {
  import opened Wrappers

  const INVALID_PATH := "开机启动路径无效"

  datatype Quoting = Accepted(line: string) | Refused(message: string)

  /** Every occurrence of one character replaced by a text. */
  function Replaced(s: string, c: char, text: string): string {
    if s == "" then "" else (if s[0] == c then text else [s[0]]) + Replaced(s[1..], c, text)
  }

  function Escaped(path: string): string {
    var backslashed := Replaced(Replaced(path, '%', "%%"), '\\', "\\\\");
    Replaced(Replaced(Replaced(backslashed, '\"', "\\\""), '`', "\\`"), '$', "\\$")
  }

  function QuoteDesktopExec(path: string): Quoting {
    if path == "" || '\n' in path || '\r' in path then Refused(INVALID_PATH)
    else Accepted(Replaced("\"" + Escaped(path) + "\"", '\\', "\\\\"))
  }

  // ---------- the reference: reading the line back

  /** Section 4, "Possible value types": \s, \n, \t, \r and \\ in a string value. */
  function KeyFileUnescape(s: string): Option<string> {
    if s == "" then Some("")
    else if s[0] != '\\' then Prepend(s[0], KeyFileUnescape(s[1..]))
    else if |s| == 1 then None
    else
      match s[1]
      case 's' => Prepend(' ', KeyFileUnescape(s[2..]))
      case 'n' => Prepend('\n', KeyFileUnescape(s[2..]))
      case 't' => Prepend('\t', KeyFileUnescape(s[2..]))
      case 'r' => Prepend('\r', KeyFileUnescape(s[2..]))
      case '\\' => Prepend('\\', KeyFileUnescape(s[2..]))
      case _ => None
  }

  /** The characters a double-quoted argument must escape with a backslash. */
  predicate Special(c: char) {
    c == '\"' || c == '`' || c == '$' || c == '\\'
  }

  /** Section 7, "The Exec key": the rest of one quoted argument that is the whole line. */
  function Unquote(s: string): Option<string> {
    if s == "" then None
    else if s[0] == '\"' then if |s| == 1 then Some("") else None
    else if s[0] == '\\' then
      if |s| >= 2 && Special(s[1]) then Prepend(s[1], Unquote(s[2..])) else None
    else if Special(s[0]) then None
    else Prepend(s[0], Unquote(s[1..]))
  }

  function QuotedArgument(s: string): Option<string> {
    if s != "" && s[0] == '\"' then Unquote(s[1..]) else None
  }

  /** Section 7: `%%` is a percent sign; no other field code stands for a plain character. */
  function FieldCodes(s: string): Option<string> {
    if s == "" then Some("")
    else if s[0] != '%' then Prepend(s[0], FieldCodes(s[1..]))
    else if |s| >= 2 && s[1] == '%' then Prepend('%', FieldCodes(s[2..]))
    else None
  }

  function Prepend(c: char, rest: Option<string>): Option<string> {
    if rest.None? then None else Some([c] + rest.value)
  }

  function Then(s: Option<string>, f: string -> Option<string>): Option<string> {
    if s.None? then None else f(s.value)
  }

  // ---------- the passes are one escape per character

  function EscapedChar(c: char): string {
    if c == '%' then "%%" else if Special(c) then ['\\', c] else [c]
  }

  function EscapedEach(path: string): string {
    if path == "" then "" else EscapedChar(path[0]) + EscapedEach(path[1..])
  }

  lemma {:induction false} ReplacedParts(a: string, b: string, c: char, text: string)
    ensures Replaced(a + b, c, text) == Replaced(a, c, text) + Replaced(b, c, text)
  {
    if a == "" {
      assert a + b == b;
    } else {
      assert (a + b)[1..] == a[1..] + b;
      ReplacedParts(a[1..], b, c, text);
    }
  }

  lemma ReplacedShort(s: string, c: char, text: string)
    requires |s| <= 2
    ensures |s| == 1 ==> Replaced(s, c, text) == if s[0] == c then text else s
    ensures |s| == 2 ==>
      Replaced(s, c, text) == (if s[0] == c then text else [s[0]]) + (if s[1] == c then text else [s[1]])
  {
    if |s| >= 1 {
      assert Replaced(s[1..], c, text) == if |s| == 1 then "" else if s[1] == c then text + "" else [s[1]] + "";
    }
  }

  lemma EscapedOne(c: char)
    ensures Escaped([c]) == EscapedChar(c)
  {
    var s1 := Replaced([c], '%', "%%");
    ReplacedShort([c], '%', "%%");
    var s2 := Replaced(s1, '\\', "\\\\");
    ReplacedShort(s1, '\\', "\\\\");
    var s3 := Replaced(s2, '\"', "\\\"");
    ReplacedShort(s2, '\"', "\\\"");
    var s4 := Replaced(s3, '`', "\\`");
    ReplacedShort(s3, '`', "\\`");
    ReplacedShort(s4, '$', "\\$");
  }

  lemma EscapedParts(a: string, b: string)
    ensures Escaped(a + b) == Escaped(a) + Escaped(b)
  {
    var a1, b1 := Replaced(a, '%', "%%"), Replaced(b, '%', "%%");
    ReplacedParts(a, b, '%', "%%");
    var a2, b2 := Replaced(a1, '\\', "\\\\"), Replaced(b1, '\\', "\\\\");
    ReplacedParts(a1, b1, '\\', "\\\\");
    var a3, b3 := Replaced(a2, '\"', "\\\""), Replaced(b2, '\"', "\\\"");
    ReplacedParts(a2, b2, '\"', "\\\"");
    var a4, b4 := Replaced(a3, '`', "\\`"), Replaced(b3, '`', "\\`");
    ReplacedParts(a3, b3, '`', "\\`");
    ReplacedParts(a4, b4, '$', "\\$");
  }

  /** The five passes over the whole path, each over the outcome of the one before, escape
      every character once: none undoes or doubles the work of another. */
  lemma {:induction false} PassesAreOneEscape(path: string)
    ensures Escaped(path) == EscapedEach(path)
  {
    if path != "" {
      assert path == [path[0]] + path[1..];
      EscapedParts([path[0]], path[1..]);
      EscapedOne(path[0]);
      PassesAreOneEscape(path[1..]);
    }
  }

  // ---------- each layer undoes its own escape

  lemma {:induction false} KeyFileLayer(s: string)
    ensures KeyFileUnescape(Replaced(s, '\\', "\\\\")) == Some(s)
  {
    if s != "" {
      var rest := Replaced(s[1..], '\\', "\\\\");
      KeyFileLayer(s[1..]);
      assert s == [s[0]] + s[1..];
      if s[0] == '\\' {
        assert ("\\\\" + rest)[2..] == rest;
      } else {
        assert ([s[0]] + rest)[1..] == rest;
      }
    }
  }

  lemma UnquoteChar(c: char, tail: string)
    ensures Unquote(EscapedChar(c) + tail) ==
      if c == '%' then Prepend('%', Prepend('%', Unquote(tail))) else Prepend(c, Unquote(tail))
  {
    if c == '%' {
      assert ("%%" + tail)[1..] == "%" + tail;
      assert ("%" + tail)[1..] == tail;
    } else if Special(c) {
      assert (['\\', c] + tail)[2..] == tail;
    } else {
      assert ([c] + tail)[1..] == tail;
    }
  }

  lemma {:induction false} QuotingLayer(path: string)
    ensures Unquote(EscapedEach(path) + "\"") == Some(Replaced(path, '%', "%%"))
  {
    if path == "" {
      assert EscapedEach(path) + "\"" == "\"";
    } else {
      var tail := EscapedEach(path[1..]) + "\"";
      QuotingLayer(path[1..]);
      UnquoteChar(path[0], tail);
      assert EscapedEach(path) + "\"" == EscapedChar(path[0]) + tail;
      var rest := Replaced(path[1..], '%', "%%");
      assert path[0] == '%' ==> ['%'] + (['%'] + rest) == "%%" + rest;
    }
  }

  lemma {:induction false} FieldCodeLayer(path: string)
    ensures FieldCodes(Replaced(path, '%', "%%")) == Some(path)
  {
    if path != "" {
      var rest := Replaced(path[1..], '%', "%%");
      FieldCodeLayer(path[1..]);
      assert path == [path[0]] + path[1..];
      if path[0] == '%' {
        assert ("%%" + rest)[2..] == rest;
      } else {
        assert ([path[0]] + rest)[1..] == rest;
      }
    }
  }

  /** A path is refused exactly when it is empty or breaks the line, and every other path is
      what a launcher reads back: key-file unescape, then unquote, then reduce field codes. */
  lemma PathSurvives(path: string)
    ensures QuoteDesktopExec(path).Refused? <==> path == "" || '\n' in path || '\r' in path
    ensures match QuoteDesktopExec(path)
      case Accepted(line) => Then(Then(KeyFileUnescape(line), QuotedArgument), FieldCodes) == Some(path)
      case Refused(message) => message == INVALID_PATH
  {
    var quoted := "\"" + Escaped(path) + "\"";
    KeyFileLayer(quoted);
    PassesAreOneEscape(path);
    assert quoted[1..] == EscapedEach(path) + "\"";
    QuotingLayer(path);
    FieldCodeLayer(path);
  }

  // ---------- the order of the last two layers does not matter

  /** The escaped path without its percent signs doubled. */
  function EscapedSpecials(path: string): string {
    if path == "" then ""
    else (if Special(path[0]) then ['\\', path[0]] else [path[0]]) + EscapedSpecials(path[1..])
  }

  lemma FieldCodesPrefix(c: char, tail: string)
    ensures FieldCodes(EscapedChar(c) + tail) ==
      if c == '%' then Prepend('%', FieldCodes(tail))
      else if Special(c) then Prepend('\\', Prepend(c, FieldCodes(tail)))
      else Prepend(c, FieldCodes(tail))
  {
    if c == '%' {
      assert ("%%" + tail)[2..] == tail;
    } else if Special(c) {
      assert (['\\', c] + tail)[1..] == [c] + tail;
      assert ([c] + tail)[1..] == tail;
    } else {
      assert ([c] + tail)[1..] == tail;
    }
  }

  lemma {:induction false} FieldCodesFirst(path: string)
    ensures FieldCodes(EscapedEach(path) + "\"") == Some(EscapedSpecials(path) + "\"")
  {
    if path == "" {
      assert EscapedEach(path) + "\"" == "\"" + "" == EscapedSpecials(path) + "\"";
    } else {
      var c, rest := path[0], EscapedSpecials(path[1..]) + "\"";
      FieldCodesFirst(path[1..]);
      FieldCodesPrefix(c, EscapedEach(path[1..]) + "\"");
      assert EscapedEach(path) + "\"" == EscapedChar(c) + (EscapedEach(path[1..]) + "\"");
      assert ['\\'] + ([c] + rest) == ['\\', c] + rest;
      assert EscapedSpecials(path) + "\"" == (if Special(c) then ['\\', c] else [c]) + rest;
    }
  }

  lemma {:induction false} UnquoteAfterwards(path: string)
    ensures Unquote(EscapedSpecials(path) + "\"") == Some(path)
  {
    if path == "" {
      assert EscapedSpecials(path) + "\"" == "\"";
    } else {
      var c, rest := path[0], EscapedSpecials(path[1..]) + "\"";
      UnquoteAfterwards(path[1..]);
      assert EscapedSpecials(path) + "\"" == (if Special(c) then ['\\', c] else [c]) + rest;
      assert (['\\', c] + rest)[2..] == rest && ([c] + rest)[1..] == rest;
      assert [c] + path[1..] == path;
    }
  }

  /** A launcher that expands field codes before it unquotes reads the same path. */
  lemma PathSurvivesEitherOrder(path: string)
    requires QuoteDesktopExec(path).Accepted?
    ensures Then(Then(KeyFileUnescape(QuoteDesktopExec(path).line), FieldCodes), QuotedArgument) == Some(path)
  {
    var quoted := "\"" + Escaped(path) + "\"";
    KeyFileLayer(quoted);
    PassesAreOneEscape(path);
    var tail, expanded := EscapedEach(path) + "\"", EscapedSpecials(path) + "\"";
    assert quoted == "\"" + tail && quoted[1..] == tail;
    FieldCodesFirst(path);
    assert ("\"" + expanded)[1..] == expanded;
    UnquoteAfterwards(path);
  }
}
