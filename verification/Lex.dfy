/** Lexicographic order of sequences, as strings compare byte by byte. */
module Lex {
  import opened Sorting

  ghost predicate TotalOrder<T(!new)>(le: (T, T) -> bool) {
    TotalPreorder(le) && forall x, y :: le(x, y) && le(y, x) ==> x == y
  }

  predicate LexLe<T(==)>(le: (T, T) -> bool, a: seq<T>, b: seq<T>) {
    a == [] || (b != [] && (if a[0] == b[0] then LexLe(le, a[1..], b[1..]) else le(a[0], b[0])))
  }

  lemma {:induction false} LexTotal<T(!new)>(le: (T, T) -> bool, a: seq<T>, b: seq<T>)
    requires TotalOrder(le)
    ensures LexLe(le, a, b) || LexLe(le, b, a)
    ensures LexLe(le, a, b) && LexLe(le, b, a) ==> a == b
  {
    if a != [] && b != [] && a[0] == b[0] {
      LexTotal(le, a[1..], b[1..]);
      assert a == [a[0]] + a[1..] && b == [b[0]] + b[1..];
    }
  }

  lemma {:induction false} LexTransitive<T(!new)>(le: (T, T) -> bool, a: seq<T>, b: seq<T>, c: seq<T>)
    requires TotalOrder(le) && LexLe(le, a, b) && LexLe(le, b, c)
    ensures LexLe(le, a, c)
  {
    if a != [] && a[0] == b[0] && b[0] == c[0] {
      LexTransitive(le, a[1..], b[1..], c[1..]);
    }
  }

  predicate CharLe(x: char, y: char) { x <= y }

  predicate StringLe(a: string, b: string) { LexLe(CharLe, a, b) }

  lemma StringOrder()
    ensures TotalOrder(StringLe)
  {
    forall a, b ensures (StringLe(a, b) || StringLe(b, a)) && (StringLe(a, b) && StringLe(b, a) ==> a == b) {
      LexTotal(CharLe, a, b);
    }
    forall a, b, c | StringLe(a, b) && StringLe(b, c) ensures StringLe(a, c) {
      LexTransitive(CharLe, a, b, c);
    }
  }

  // ---- The first difference decides ----

  ghost predicate GreaterAt<T(!new)>(le: (T, T) -> bool, a: seq<T>, b: seq<T>, i: nat) {
    i < |a| && i <= |b| && a[..i] == b[..i] && (i == |b| || !le(a[i], b[i]))
  }

  lemma GreaterAtNext<T(!new)>(le: (T, T) -> bool, a: seq<T>, b: seq<T>, i: nat)
    requires a != [] && b != [] && a[0] == b[0]
    ensures GreaterAt(le, a, b, i + 1) <==> GreaterAt(le, a[1..], b[1..], i)
  {
    if i < |a| - 1 && i <= |b| - 1 {
      assert a[..i + 1] == [a[0]] + a[1..][..i] && b[..i + 1] == [b[0]] + b[1..][..i];
      assert a[..i + 1][1..] == a[1..][..i] && b[..i + 1][1..] == b[1..][..i];
    }
  }

  lemma {:induction false} FirstDifferenceDecides<T(!new)>(le: (T, T) -> bool, a: seq<T>, b: seq<T>)
    requires TotalOrder(le)
    ensures !LexLe(le, a, b) <==> exists i: nat :: GreaterAt(le, a, b, i)
  {
    if a != [] && b != [] && a[0] == b[0] {
      FirstDifferenceDecides(le, a[1..], b[1..]);
      if i: nat :| GreaterAt(le, a[1..], b[1..], i) {
        GreaterAtNext(le, a, b, i);
      }
      if i: nat :| GreaterAt(le, a, b, i) {
        assert i > 0;
        GreaterAtNext(le, a, b, i - 1);
      }
    } else if a != [] {
      assert b == [] || !le(a[0], b[0]) ==> GreaterAt(le, a, b, 0);
      forall i: nat | GreaterAt(le, a, b, i) ensures i == 0 {
        SharedFront(le, a, b, i);
      }
    }
  }

  lemma SharedFront<T(!new)>(le: (T, T) -> bool, a: seq<T>, b: seq<T>, i: nat)
    requires GreaterAt(le, a, b, i)
    ensures i == 0 || (b != [] && a[0] == b[0])
  {
    if i > 0 {
      assert a[..i][0] == b[..i][0];
    }
  }

  /** Up to `i` they are the same, and there `a` has the greater character, or only `a` goes on. */
  ghost predicate ExceedsAt(a: string, b: string, i: nat) {
    i < |a| && i <= |b| && a[..i] == b[..i] && (i == |b| || a[i] > b[i])
  }

  ghost predicate Exceeds(a: string, b: string) {
    exists i: nat :: ExceedsAt(a, b, i)
  }

  /** Strings compare by their first difference, and a longer one is greater than its front. */
  lemma StringExceeds(a: string, b: string)
    ensures !StringLe(a, b) <==> Exceeds(a, b)
  {
    FirstDifferenceDecides(CharLe, a, b);
    forall i: nat ensures GreaterAt(CharLe, a, b, i) <==> ExceedsAt(a, b, i) {
    }
  }
}
