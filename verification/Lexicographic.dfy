/** Sequences compared from the left, element by element, a proper prefix being smaller. */
module Lexicographic {
  /** A comparison that is a total order on the elements a predicate admits. */
  ghost predicate TotalOrder<T(!new)>(cmp: (T, T) -> int, ok: T -> bool) {
    && (forall x, y :: ok(x) && ok(y) ==> cmp(x, y) in {-1, 0, 1} && cmp(x, y) == -cmp(y, x))
    && (forall x, y :: ok(x) && ok(y) ==> (cmp(x, y) == 0 <==> x == y))
    && (forall x, y, z :: ok(x) && ok(y) && ok(z) && cmp(x, y) <= 0 && cmp(y, z) <= 0 ==> cmp(x, z) <= 0)
  }

  function Lex<T>(cmp: (T, T) -> int, a: seq<T>, b: seq<T>): int
    decreases |a|
  {
    if a == [] then (if b == [] then 0 else -1)
    else if b == [] then 1
    else if cmp(a[0], b[0]) != 0 then cmp(a[0], b[0])
    else Lex(cmp, a[1..], b[1..])
  }

  ghost predicate All<T>(ok: T -> bool, s: seq<T>) {
    forall x :: x in s ==> ok(x)
  }

  lemma {:induction false} LexIsAntisymmetric<T(!new)>(cmp: (T, T) -> int, ok: T -> bool, a: seq<T>, b: seq<T>)
    requires TotalOrder(cmp, ok) && All(ok, a) && All(ok, b)
    ensures Lex(cmp, a, b) in {-1, 0, 1} && Lex(cmp, a, b) == -Lex(cmp, b, a)
    ensures Lex(cmp, a, b) == 0 <==> a == b
    decreases |a|
  {
    if a != [] && b != [] {
      assert ok(a[0]) && ok(b[0]);
      LexIsAntisymmetric(cmp, ok, a[1..], b[1..]);
      assert a == [a[0]] + a[1..] && b == [b[0]] + b[1..];
    }
  }

  lemma {:induction false} LexIsTransitive<T(!new)>(cmp: (T, T) -> int, ok: T -> bool, a: seq<T>, b: seq<T>, c: seq<T>)
    requires TotalOrder(cmp, ok) && All(ok, a) && All(ok, b) && All(ok, c)
    requires Lex(cmp, a, b) <= 0 && Lex(cmp, b, c) <= 0
    ensures Lex(cmp, a, c) <= 0
    decreases |a|
  {
    if a != [] && b != [] && c != [] {
      assert ok(a[0]) && ok(b[0]) && ok(c[0]);
      if a[0] == b[0] == c[0] {
        LexIsTransitive(cmp, ok, a[1..], b[1..], c[1..]);
      }
    }
  }

  /** The declarative reading: at the first place where they differ, the left one is smaller
      there, or has ended. */
  ghost predicate Below<T>(cmp: (T, T) -> int, a: seq<T>, b: seq<T>) {
    exists k: nat :: BelowAt(cmp, a, b, k)
  }

  ghost predicate BelowAt<T>(cmp: (T, T) -> int, a: seq<T>, b: seq<T>, k: nat) {
    && k <= |a| && k < |b| && a[..k] == b[..k]
    && (k < |a| ==> cmp(a[k], b[k]) < 0)
  }

  lemma {:induction false} LexIsBelow<T(!new)>(cmp: (T, T) -> int, ok: T -> bool, a: seq<T>, b: seq<T>)
    requires TotalOrder(cmp, ok) && All(ok, a) && All(ok, b)
    ensures Lex(cmp, a, b) < 0 <==> Below(cmp, a, b)
    decreases |a|
  {
    if a == [] || b == [] {
      if a == [] && b != [] { assert BelowAt(cmp, a, b, 0); }
    } else {
      assert ok(a[0]) && ok(b[0]);
      if a[0] == b[0] {
        LexIsBelow(cmp, ok, a[1..], b[1..]);
        BelowTail(cmp, ok, a, b);
      } else {
        if cmp(a[0], b[0]) < 0 { assert BelowAt(cmp, a, b, 0); }
        forall k: nat | BelowAt(cmp, a, b, k) ensures k == 0 {
          SameHead(a, b, k);
        }
      }
    }
  }

  lemma SameHead<T>(a: seq<T>, b: seq<T>, k: nat)
    requires k <= |a| && k <= |b| && a[..k] == b[..k]
    ensures k > 0 ==> a[0] == b[0]
  {
    if k > 0 { assert a[..k][0] == b[..k][0]; }
  }

  lemma BelowTail<T(!new)>(cmp: (T, T) -> int, ok: T -> bool, a: seq<T>, b: seq<T>)
    requires TotalOrder(cmp, ok) && All(ok, a) && a != [] && b != [] && a[0] == b[0]
    ensures Below(cmp, a, b) <==> Below(cmp, a[1..], b[1..])
  {
    assert ok(a[0]) && cmp(a[0], b[0]) == 0;
    forall k: nat | BelowAt(cmp, a, b, k) ensures Below(cmp, a[1..], b[1..]) {
      assert k > 0;
      assert a[1..][..k - 1] == a[..k][1..] && b[1..][..k - 1] == b[..k][1..];
      assert BelowAt(cmp, a[1..], b[1..], k - 1);
    }
    forall k: nat | BelowAt(cmp, a[1..], b[1..], k) ensures Below(cmp, a, b) {
      assert a[..k + 1] == [a[0]] + a[1..][..k] && b[..k + 1] == [b[0]] + b[1..][..k];
      assert BelowAt(cmp, a, b, k + 1);
    }
  }
}
