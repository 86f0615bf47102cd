/** Version strings of the update feed: strict Semantic Versioning 2.0.0, and its precedence. */
module SemVer {
  import opened Lexicographic
  import opened Strings
  import opened Wrappers

  // ---------- the grammar

  predicate IsDigit(c: char) {
    '0' <= c <= '9'
  }

  predicate IsWordChar(c: char) {
    IsDigit(c) || 'A' <= c <= 'Z' || 'a' <= c <= 'z' || c == '-'
  }

  predicate Digits(s: string) {
    forall c :: c in s ==> IsDigit(c)
  }

  /** 0, or digits without a leading zero. */
  predicate Numeric(s: string) {
    s != "" && Digits(s) && (s[0] == '0' ==> s == "0")
  }

  predicate Word(s: string) {
    s != "" && forall c :: c in s ==> IsWordChar(c)
  }

  predicate PrereleaseIdentifier(s: string) {
    Word(s) && (Digits(s) ==> Numeric(s))
  }

  /** The captures of a version: three numbers, the dotted prerelease, the dotted build. */
  datatype Version = Version(core: seq<string>, pre: Option<seq<string>>, build: Option<seq<string>>)

  predicate WellFormed(v: Version) {
    && |v.core| == 3 && (forall n :: n in v.core ==> Numeric(n))
    && (v.pre.Some? ==> v.pre.value != [] && forall p :: p in v.pre.value ==> PrereleaseIdentifier(p))
    && (v.build.Some? ==> v.build.value != [] && forall p :: p in v.build.value ==> Word(p))
  }

  const DIGITS := "0123456789"
  const UPPER := "ABCDEFGHIJKLMNOPQRSTUVWXYZ"
  const LOWER := "abcdefghijklmnopqrstuvwxyz"
  const LETTERS := UPPER + LOWER + "-"

  predicate AllFrom(s: string, from: nat, chars: string) {
    forall i :: from <= i < |s| ==> s[i] in chars
  }

  /** [1-9]\d* */
  predicate LedNumber(s: string) {
    s != "" && s[0] in "123456789" && AllFrom(s, 1, DIGITS)
  }

  /** \d*[A-Za-z-][0-9A-Za-z-]* */
  ghost predicate Lettered(s: string) {
    exists k :: 0 <= k < |s| && LetterAt(s, k)
  }

  predicate LetterAt(s: string, k: nat)
    requires k < |s|
  {
    AllFrom(s[..k], 0, DIGITS) && s[k] in LETTERS && AllFrom(s, k + 1, DIGITS + LETTERS)
  }

  lemma CharClasses(c: char)
    ensures IsDigit(c) <==> c in DIGITS
    ensures IsWordChar(c) <==> c in DIGITS + LETTERS
    ensures IsDigit(c) && c != '0' <==> c in "123456789"
    ensures IsWordChar(c) && !IsDigit(c) <==> c in LETTERS
  {
    LetterClasses(c);
    assert c in LETTERS <==> c in UPPER || c in LOWER || c == '-';
  }

  lemma LetterClasses(c: char)
    ensures 'A' <= c <= 'Z' <==> c in UPPER
    ensures 'a' <= c <= 'z' <==> c in LOWER
  {
  }

  lemma CharsClassed(s: string)
    ensures forall i :: 0 <= i < |s| ==> (IsDigit(s[i]) <==> s[i] in DIGITS)
    ensures forall i :: 0 <= i < |s| ==> (IsWordChar(s[i]) <==> s[i] in DIGITS + LETTERS)
    ensures forall i :: 0 <= i < |s| ==> (IsWordChar(s[i]) && !IsDigit(s[i]) <==> s[i] in LETTERS)
  {
    forall i | 0 <= i < |s|
      ensures (IsDigit(s[i]) <==> s[i] in DIGITS) && (IsWordChar(s[i]) <==> s[i] in DIGITS + LETTERS)
      ensures IsWordChar(s[i]) && !IsDigit(s[i]) <==> s[i] in LETTERS
    {
      CharClasses(s[i]);
    }
  }

  lemma {:induction false} FirstLetter(s: string, from: nat) returns (k: nat)
    requires from < |s| && exists i :: from <= i < |s| && !IsDigit(s[i])
    ensures from <= k < |s| && !IsDigit(s[k]) && forall i :: from <= i < k ==> IsDigit(s[i])
    decreases |s| - from
  {
    k := from;
    if IsDigit(s[from]) { k := FirstLetter(s, from + 1); }
  }

  /** The grammar is the pattern of the source: 0|[1-9]\d* for numbers, and for prerelease
      identifiers also \d*[A-Za-z-][0-9A-Za-z-]*. */
  lemma GrammarIsPattern(s: string)
    ensures Numeric(s) <==> s == "0" || LedNumber(s)
    ensures PrereleaseIdentifier(s) <==> s == "0" || LedNumber(s) || Lettered(s)
    ensures Word(s) <==> s != "" && AllFrom(s, 0, DIGITS + LETTERS)
  {
    CharsClassed(s);
    if s != "" { CharClasses(s[0]); }
    NumericIsPattern(s);
    if Word(s) && !Digits(s) {
      var k := FirstLetter(s, 0);
      assert LetterAt(s, k);
    }
    if Lettered(s) {
      var k :| 0 <= k < |s| && LetterAt(s, k);
      LetteredIsWord(s, k);
    }
  }

  lemma NumericIsPattern(s: string)
    ensures Numeric(s) <==> s == "0" || LedNumber(s)
  {
    CharsClassed(s);
    if s != "" { CharClasses(s[0]); }
    if LedNumber(s) {
      forall c | c in s ensures IsDigit(c) {
        var i :| 0 <= i < |s| && s[i] == c;
      }
    }
  }

  lemma LetteredIsWord(s: string, k: nat)
    requires k < |s| && LetterAt(s, k)
    ensures Word(s) && !Digits(s)
  {
    CharsClassed(s);
    forall c | c in s ensures IsWordChar(c) {
      var i :| 0 <= i < |s| && s[i] == c;
      if i < k { assert s[..k][i] == s[i]; }
    }
    assert s[k] in s;
  }

  function Join(parts: seq<string>, c: char): string {
    if parts == [] then "" else if |parts| == 1 then parts[0] else parts[0] + [c] + Join(parts[1..], c)
  }

  function HeadText(v: Version): string {
    Join(v.core, '.') + (if v.pre.Some? then ['-'] + Join(v.pre.value, '.') else "")
  }

  function Text(v: Version): string {
    HeadText(v) + (if v.build.Some? then ['+'] + Join(v.build.value, '.') else "")
  }

  // ---------- recognising a version

  function Split(s: string, c: char): (parts: seq<string>)
    ensures parts != []
    decreases |s|
  {
    var i := IndexOf(s, c);
    if i == |s| then [s] else [s[..i]] + Split(s[i + 1..], c)
  }

  /** The part before the first `c`, and the dotted parts after it if there is one. */
  function Cut(s: string, c: char): (string, Option<seq<string>>) {
    var i := IndexOf(s, c);
    (s[..i], if i < |s| then Some(Split(s[i + 1..], '.')) else None)
  }

  /** The match of the version pattern: the build starts at the first plus sign, and the
      prerelease at the first hyphen before it. */
  function Parse(s: string): Option<Version> {
    var (head, build) := Cut(s, '+');
    var (core, pre) := Cut(head, '-');
    var v := Version(Split(core, '.'), pre, build);
    if WellFormed(v) then Some(v) else None
  }

  predicate IsSemver(s: string) {
    Parse(s).Some?
  }

  lemma {:induction false} JoinOfSplit(s: string, c: char)
    ensures Join(Split(s, c), c) == s
    decreases |s|
  {
    var i := IndexOf(s, c);
    if i < |s| {
      JoinOfSplit(s[i + 1..], c);
      assert s == s[..i] + [c] + s[i + 1..];
      assert Split(s, c)[1..] == Split(s[i + 1..], c);
    }
  }

  lemma {:induction false} IndexAfter(a: string, c: char, b: string)
    requires c !in a
    ensures IndexOf(a + [c] + b, c) == |a| && IndexOf(a, c) == |a|
  {
    if a == "" {
      assert a + [c] + b == [c] + b;
    } else {
      assert a[0] in a;
      assert (a + [c] + b)[1..] == a[1..] + [c] + b;
      IndexAfter(a[1..], c, b);
    }
  }

  ghost predicate Free(parts: seq<string>, c: char) {
    forall p :: p in parts ==> c !in p
  }

  lemma {:induction false} SplitOfJoin(parts: seq<string>, c: char)
    requires parts != [] && Free(parts, c)
    ensures Split(Join(parts, c), c) == parts
    decreases |parts|
  {
    assert parts[0] in parts;
    IndexAfter(parts[0], c, "");
    if |parts| > 1 {
      var rest := Join(parts[1..], c);
      IndexAfter(parts[0], c, rest);
      SplitOfJoin(parts[1..], c);
      var s := parts[0] + [c] + rest;
      assert s[..|parts[0]|] == parts[0] && s[|parts[0]| + 1..] == rest;
    }
  }

  lemma {:induction false} FreeJoin(parts: seq<string>, c: char, d: char)
    requires Free(parts, d) && c != d
    ensures d !in Join(parts, c)
    decreases |parts|
  {
    if parts != [] {
      assert parts[0] in parts;
      if |parts| > 1 { FreeJoin(parts[1..], c, d); }
    }
  }

  /** A text cut where its tail was attached. */
  lemma CutAttached(head: string, c: char, tail: Option<seq<string>>)
    requires c !in head && (tail.Some? ==> tail.value != [] && Free(tail.value, '.'))
    ensures Cut(head + (if tail.Some? then [c] + Join(tail.value, '.') else ""), c) == (head, tail)
  {
    if tail.Some? {
      var rest := Join(tail.value, '.');
      IndexAfter(head, c, rest);
      SplitOfJoin(tail.value, '.');
      var s := head + ([c] + rest);
      assert s == head + [c] + rest;
      assert s[..|head|] == head && s[|head| + 1..] == rest;
    } else {
      IndexAfter(head, c, "");
      assert head + "" == head && head[..|head|] == head;
    }
  }

  lemma NumericIsFree(s: string)
    requires Numeric(s)
    ensures '.' !in s && '-' !in s && '+' !in s
  {
  }

  lemma PartsAreFree(v: Version)
    requires WellFormed(v)
    ensures Free(v.core, '.') && Free(v.core, '-') && Free(v.core, '+')
    ensures v.pre.Some? ==> Free(v.pre.value, '.') && Free(v.pre.value, '+')
    ensures v.build.Some? ==> Free(v.build.value, '.')
  {
    forall n | n in v.core ensures '.' !in n && '-' !in n && '+' !in n {
      NumericIsFree(n);
    }
  }

  /** The grammar read backwards: every well-formed version is found again in its text. */
  lemma ParseOfText(v: Version)
    requires WellFormed(v)
    ensures Parse(Text(v)) == Some(v)
  {
    PartsAreFree(v);
    var core := Join(v.core, '.');
    FreeJoin(v.core, '.', '-');
    FreeJoin(v.core, '.', '+');
    if v.pre.Some? { FreeJoin(v.pre.value, '.', '+'); }
    CutAttached(core, '-', v.pre);
    CutAttached(HeadText(v), '+', v.build);
    SplitOfJoin(v.core, '.');
  }

  lemma CutIsText(s: string, c: char)
    ensures var (head, tail) := Cut(s, c);
      s == head + (if tail.Some? then [c] + Join(tail.value, '.') else "")
  {
    var i := IndexOf(s, c);
    if i < |s| {
      JoinOfSplit(s[i + 1..], '.');
      assert s == s[..i] + ([c] + s[i + 1..]);
    } else {
      assert s == s[..i] + "";
    }
  }

  /** A string is a version exactly when it is the text of a well-formed one, and then of
      only one: the pattern is neither too wide nor too narrow, and never ambiguous. */
  lemma ParseExactlyWhen(s: string, v: Version)
    ensures Parse(s) == Some(v) <==> WellFormed(v) && Text(v) == s
  {
    if WellFormed(v) && Text(v) == s {
      ParseOfText(v);
    }
    if Parse(s) == Some(v) {
      CutIsText(s, '+');
      var head := Cut(s, '+').0;
      CutIsText(head, '-');
      JoinOfSplit(Cut(head, '-').0, '.');
    }
  }

  // ---------- precedence

  function Value(s: string): nat
    requires Digits(s)
  {
    if s == "" then 0
    else
      assert s[|s| - 1] in s;
      Value(s[..|s| - 1]) * 10 + (s[|s| - 1] as int - '0' as int)
  }

  function Sign(a: int, b: int): int {
    if a < b then -1 else if a > b then 1 else 0
  }

  function CompareChars(a: char, b: char): int {
    Sign(a as int, b as int)
  }

  function CompareNumbers(a: string, b: string): int {
    if Digits(a) && Digits(b) then Sign(Value(a), Value(b)) else 0
  }

  /** Numbers by value, words by their characters, and numbers below words. */
  function CompareIdentifiers(a: string, b: string): int {
    if Digits(a) && Digits(b) then CompareNumbers(a, b)
    else if Digits(a) != Digits(b) then (if Digits(a) then -1 else 1)
    else Lex(CompareChars, a, b)
  }

  function ComparePrereleases(a: Option<seq<string>>, b: Option<seq<string>>): int {
    if a.None? then (if b.None? then 0 else 1)
    else if b.None? then -1
    else Lex(CompareIdentifiers, a.value, b.value)
  }

  function CompareParsed(v: Version, w: Version): int {
    var c := Lex(CompareNumbers, v.core, w.core);
    if c != 0 then c else ComparePrereleases(v.pre, w.pre)
  }

  method CompareVersions(a: string, b: string) returns (r: Option<int>)
    ensures r.Some? <==> IsSemver(a) && IsSemver(b)
    ensures r.Some? ==> r.value == CompareParsed(Parse(a).value, Parse(b).value)
  {
    if Parse(a).None? || Parse(b).None? {
      return None;
    }
    var left, right := Parse(a).value, Parse(b).value;
    for i := 0 to 3
      invariant Lex(CompareNumbers, left.core, right.core) == Lex(CompareNumbers, left.core[i..], right.core[i..])
    {
      assert left.core[i] in left.core && right.core[i] in right.core;
      assert left.core[i..][1..] == left.core[i + 1..] && right.core[i..][1..] == right.core[i + 1..];
      var x, y := Value(left.core[i]), Value(right.core[i]);
      if x != y {
        return Some(if x < y then -1 else 1);
      }
    }
    if left.pre.None? && right.pre.None? {
      return Some(0);
    }
    if left.pre.None? {
      return Some(1);
    }
    if right.pre.None? {
      return Some(-1);
    }
    var c := ComparePrereleaseParts(left.pre.value, right.pre.value);
    r := Some(c);
  }

  method ComparePrereleaseParts(leftParts: seq<string>, rightParts: seq<string>) returns (c: int)
    ensures c == Lex(CompareIdentifiers, leftParts, rightParts)
  {
    var length := if |leftParts| < |rightParts| then |rightParts| else |leftParts|;
    for i := 0 to length
      invariant i <= |leftParts| && i <= |rightParts|
      invariant Lex(CompareIdentifiers, leftParts, rightParts)
        == Lex(CompareIdentifiers, leftParts[i..], rightParts[i..])
    {
      if i >= |leftParts| {
        return -1;
      }
      if i >= |rightParts| {
        return 1;
      }
      var leftPart, rightPart := leftParts[i], rightParts[i];
      assert leftParts[i..][1..] == leftParts[i + 1..] && rightParts[i..][1..] == rightParts[i + 1..];
      var leftNumeric, rightNumeric := Digits(leftPart), Digits(rightPart);
      if leftNumeric && rightNumeric {
        if Value(leftPart) != Value(rightPart) {
          return if Value(leftPart) < Value(rightPart) then -1 else 1;
        }
        continue;
      }
      if leftNumeric != rightNumeric {
        return if leftNumeric then -1 else 1;
      }
      if Lex(CompareChars, leftPart, rightPart) != 0 {
        return Lex(CompareChars, leftPart, rightPart);
      }
    }
    c := 0;
  }

  // ---------- precedence is a total order

  lemma TenTimes(x: nat, d: nat)
    requires d < 10
    ensures (x * 10 + d) % 10 == d && (x * 10 + d) / 10 == x
  {
  }

  lemma LastDigit(s: string)
    requires Digits(s) && s != ""
    ensures Digits(s[..|s| - 1]) && Value(s) % 10 == s[|s| - 1] as int - '0' as int
    ensures Value(s) / 10 == Value(s[..|s| - 1])
  {
    assert s[|s| - 1] in s;
    assert forall c :: c in s[..|s| - 1] ==> c in s;
    TenTimes(Value(s[..|s| - 1]), s[|s| - 1] as int - '0' as int);
  }

  lemma {:induction false} NumericIsPositive(s: string)
    requires Numeric(s) && s != "0"
    ensures Value(s) >= 1 && (|s| > 1 ==> Value(s) >= 10)
  {
    LastDigit(s);
    if |s| > 1 {
      var prefix := s[..|s| - 1];
      assert prefix[0] == s[0];
      NumericIsPositive(prefix);
    } else {
      assert s[0] in s && s[0] != '0';
      assert s[..0] == "";
    }
  }

  /** Without leading zeros the decimal value determines the text. */
  lemma {:induction false} ValueIsInjective(a: string, b: string)
    requires Numeric(a) && Numeric(b) && Value(a) == Value(b)
    ensures a == b
    decreases |a|
  {
    LastDigit(a);
    LastDigit(b);
    if a != "0" { NumericIsPositive(a); }
    if b != "0" { NumericIsPositive(b); }
    var m, n := |a| - 1, |b| - 1;
    assert a[m] in a && b[n] in b;
    assert a == a[..m] + [a[m]] && b == b[..n] + [b[n]];
    assert a[m] == b[n];
    if m > 0 && n > 0 {
      assert a[..m][0] == a[0] && b[..n][0] == b[0];
      ValueIsInjective(a[..m], b[..n]);
    } else {
      assert m == 0 ==> Value(a[..m]) == 0;
      assert n == 0 ==> Value(b[..n]) == 0;
    }
  }

  lemma NumbersAreOrdered()
    ensures TotalOrder(CompareNumbers, Numeric)
  {
    forall x, y | Numeric(x) && Numeric(y) ensures CompareNumbers(x, y) == 0 <==> x == y {
      if Value(x) == Value(y) { ValueIsInjective(x, y); }
    }
  }

  predicate AnyChar(c: char) {
    true
  }

  lemma CharsAreOrdered()
    ensures TotalOrder(CompareChars, AnyChar)
  {
  }

  lemma WordsAreOrdered(x: string, y: string, z: string)
    ensures Lex(CompareChars, x, y) in {-1, 0, 1} && Lex(CompareChars, x, y) == -Lex(CompareChars, y, x)
    ensures Lex(CompareChars, x, y) == 0 <==> x == y
    ensures Lex(CompareChars, x, y) <= 0 && Lex(CompareChars, y, z) <= 0 ==> Lex(CompareChars, x, z) <= 0
  {
    CharsAreOrdered();
    assert All(AnyChar, x) && All(AnyChar, y) && All(AnyChar, z);
    LexIsAntisymmetric(CompareChars, AnyChar, x, y);
    if Lex(CompareChars, x, y) <= 0 && Lex(CompareChars, y, z) <= 0 {
      LexIsTransitive(CompareChars, AnyChar, x, y, z);
    }
  }

  lemma IdentifiersAreOrdered()
    ensures TotalOrder(CompareIdentifiers, PrereleaseIdentifier)
  {
    NumbersAreOrdered();
    forall x, y | PrereleaseIdentifier(x) && PrereleaseIdentifier(y)
      ensures CompareIdentifiers(x, y) in {-1, 0, 1} && CompareIdentifiers(x, y) == -CompareIdentifiers(y, x)
      ensures CompareIdentifiers(x, y) == 0 <==> x == y
    {
      WordsAreOrdered(x, y, y);
    }
    forall x, y, z | PrereleaseIdentifier(x) && PrereleaseIdentifier(y) && PrereleaseIdentifier(z)
      && CompareIdentifiers(x, y) <= 0 && CompareIdentifiers(y, z) <= 0
      ensures CompareIdentifiers(x, z) <= 0
    {
      WordsAreOrdered(x, y, z);
    }
  }

  lemma PrereleasesAreOrdered(a: Option<seq<string>>, b: Option<seq<string>>, c: Option<seq<string>>)
    requires forall o :: o in {a, b, c} && o.Some? ==> All(PrereleaseIdentifier, o.value)
    ensures ComparePrereleases(a, b) in {-1, 0, 1} && ComparePrereleases(a, b) == -ComparePrereleases(b, a)
    ensures ComparePrereleases(a, b) == 0 <==> a == b
    ensures ComparePrereleases(a, b) <= 0 && ComparePrereleases(b, c) <= 0 ==> ComparePrereleases(a, c) <= 0
  {
    IdentifiersAreOrdered();
    if a.Some? && b.Some? {
      LexIsAntisymmetric(CompareIdentifiers, PrereleaseIdentifier, a.value, b.value);
      if c.Some? && ComparePrereleases(a, b) <= 0 && ComparePrereleases(b, c) <= 0 {
        LexIsTransitive(CompareIdentifiers, PrereleaseIdentifier, a.value, b.value, c.value);
      }
    }
  }

  lemma CoresAreOrdered(u: seq<string>, v: seq<string>, w: seq<string>)
    requires All(Numeric, u) && All(Numeric, v) && All(Numeric, w)
    ensures Lex(CompareNumbers, u, v) in {-1, 0, 1} && Lex(CompareNumbers, u, v) == -Lex(CompareNumbers, v, u)
    ensures Lex(CompareNumbers, u, v) == 0 <==> u == v
    ensures Lex(CompareNumbers, u, v) <= 0 && Lex(CompareNumbers, v, w) <= 0 ==> Lex(CompareNumbers, u, w) <= 0
  {
    NumbersAreOrdered();
    LexIsAntisymmetric(CompareNumbers, Numeric, u, v);
    if Lex(CompareNumbers, u, v) <= 0 && Lex(CompareNumbers, v, w) <= 0 {
      LexIsTransitive(CompareNumbers, Numeric, u, v, w);
    }
  }

  /** Precedence is a total order on versions without their builds: swapping the versions
      flips the sign, equal precedence means the same numbers and the same prerelease, and
      the order is transitive. */
  lemma VersionsAreOrdered(u: Version, v: Version, w: Version)
    requires WellFormed(u) && WellFormed(v) && WellFormed(w)
    ensures CompareParsed(u, v) in {-1, 0, 1} && CompareParsed(u, v) == -CompareParsed(v, u)
    ensures CompareParsed(u, v) == 0 <==> u.core == v.core && u.pre == v.pre
    ensures CompareParsed(u, v) <= 0 && CompareParsed(v, w) <= 0 ==> CompareParsed(u, w) <= 0
  {
    CoresAreOrdered(u.core, v.core, w.core);
    CoresAreOrdered(u.core, w.core, v.core);
    CoresAreOrdered(v.core, w.core, u.core);
    CoresAreOrdered(w.core, u.core, v.core);
    PrereleasesAreOrdered(u.pre, v.pre, w.pre);
  }

  // ---------- the reference: section 11 of Semantic Versioning 2.0.0

  /** 11.4.1 to 11.4.3: numbers numerically, words in ASCII order, numbers below words. */
  ghost predicate IdentifierBelow(a: string, b: string) {
    if Digits(a) && Digits(b) then Value(a) < Value(b)
    else if !Digits(a) && !Digits(b) then
      exists k: nat :: k <= |a| && k < |b| && a[..k] == b[..k] && (k < |a| ==> a[k] < b[k])
    else Digits(a)
  }

  /** 11.4 and 11.4.4: the first field that differs decides, and more fields win otherwise. */
  ghost predicate PrereleaseBelow(a: seq<string>, b: seq<string>) {
    exists k: nat :: k <= |a| && k < |b| && a[..k] == b[..k] && (k < |a| ==> IdentifierBelow(a[k], b[k]))
  }

  /** 11.2 and 11.3: major, minor and patch in that order, then a prerelease below its
      release; 10: the build does not count. */
  ghost predicate Precedes(v: Version, w: Version)
    requires WellFormed(v) && WellFormed(w)
  {
    var x, y := Numbers(v), Numbers(w);
    || x.0 < y.0
    || (x.0 == y.0 && x.1 < y.1)
    || (x.0 == y.0 && x.1 == y.1 && x.2 < y.2)
    || (x == y && v.pre.Some? && (w.pre.None? || PrereleaseBelow(v.pre.value, w.pre.value)))
  }

  function Numbers(v: Version): (nat, nat, nat)
    requires WellFormed(v)
  {
    assert v.core[0] in v.core && v.core[1] in v.core && v.core[2] in v.core;
    (Value(v.core[0]), Value(v.core[1]), Value(v.core[2]))
  }

  lemma IdentifierBelowIsNegative(a: string, b: string)
    requires PrereleaseIdentifier(a) && PrereleaseIdentifier(b)
    ensures CompareIdentifiers(a, b) < 0 <==> IdentifierBelow(a, b)
  {
    if !Digits(a) && !Digits(b) {
      CharsAreOrdered();
      assert All(AnyChar, a) && All(AnyChar, b);
      LexIsBelow(CompareChars, AnyChar, a, b);
      forall k: nat | k <= |a| && k < |b| && a[..k] == b[..k] && (k < |a| ==> a[k] < b[k])
        ensures Below(CompareChars, a, b)
      {
        assert BelowAt(CompareChars, a, b, k);
      }
    }
  }

  lemma PrereleaseBelowIsNegative(a: seq<string>, b: seq<string>)
    requires All(PrereleaseIdentifier, a) && All(PrereleaseIdentifier, b)
    ensures Lex(CompareIdentifiers, a, b) < 0 <==> PrereleaseBelow(a, b)
  {
    IdentifiersAreOrdered();
    LexIsBelow(CompareIdentifiers, PrereleaseIdentifier, a, b);
    forall k: nat | k < |a| && k < |b|
      ensures CompareIdentifiers(a[k], b[k]) < 0 <==> IdentifierBelow(a[k], b[k])
    {
      IdentifierBelowIsNegative(a[k], b[k]);
    }
    if PrereleaseBelow(a, b) {
      var k: nat :| k <= |a| && k < |b| && a[..k] == b[..k] && (k < |a| ==> IdentifierBelow(a[k], b[k]));
      assert BelowAt(CompareIdentifiers, a, b, k);
    }
    if Below(CompareIdentifiers, a, b) {
      var k: nat :| BelowAt(CompareIdentifiers, a, b, k);
      assert a[..k] == b[..k] && (k < |a| ==> IdentifierBelow(a[k], b[k]));
    }
  }

  lemma CoreOfThree(u: seq<string>, v: seq<string>)
    requires |u| == |v| == 3 && All(Numeric, u) && All(Numeric, v)
    ensures Lex(CompareNumbers, u, v) ==
      if u[0] != v[0] then CompareNumbers(u[0], v[0])
      else if u[1] != v[1] then CompareNumbers(u[1], v[1])
      else CompareNumbers(u[2], v[2])
  {
    NumbersAreOrdered();
    assert u[0] in u && u[1] in u && u[2] in u && v[0] in v && v[1] in v && v[2] in v;
    assert u[1..][1..] == u[2..] && v[1..][1..] == v[2..];
    assert u[2..][1..] == [] && v[2..][1..] == [];
    assert Lex(CompareNumbers, u[2..], v[2..]) == CompareNumbers(u[2], v[2]);
    assert Lex(CompareNumbers, u[1..], v[1..])
      == if u[1] != v[1] then CompareNumbers(u[1], v[1]) else CompareNumbers(u[2], v[2]);
  }

  /** The comparison is negative exactly when section 11 puts the left version first. */
  lemma ComparisonIsPrecedence(v: Version, w: Version)
    requires WellFormed(v) && WellFormed(w)
    ensures CompareParsed(v, w) < 0 <==> Precedes(v, w)
  {
    NumbersAreOrdered();
    CoreOfThree(v.core, w.core);
    forall i | 0 <= i < 3
      ensures Numeric(v.core[i]) && Numeric(w.core[i])
      ensures v.core[i] == w.core[i] <==> Value(v.core[i]) == Value(w.core[i])
    {
      assert v.core[i] in v.core && w.core[i] in w.core;
      if Value(v.core[i]) == Value(w.core[i]) { ValueIsInjective(v.core[i], w.core[i]); }
    }
    if v.pre.Some? && w.pre.Some? {
      PrereleaseBelowIsNegative(v.pre.value, w.pre.value);
    }
  }
}
