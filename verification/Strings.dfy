/**
 White space, and the order of strings that the source relies on when it sorts names and rules or breaks ties between
 ids: the lexicographic order by character code, in a strict and a reflexive form. It is proved to be a total order,
 so that the smallest of several ids and the sorted listing of several names are unique. Characters are code points;
 for text outside the basic plane the source compares UTF-16 code units instead.
 */
module Strings {

  /** White space as JavaScript's \s and trim() see it. */
  predicate IsSpace(c: char) {
    var n := c as int;
    || 9 <= n <= 13 || n == 0x20 || n == 0xA0 || n == 0x1680 || 0x2000 <= n <= 0x200A
    || n == 0x2028 || n == 0x2029 || n == 0x202F || n == 0x205F || n == 0x3000 || n == 0xFEFF
  }

  predicate Precedes(a: string, b: string) {
    b != [] && (a == [] || a[0] < b[0] || (a[0] == b[0] && Precedes(a[1..], b[1..])))
  }

  predicate AtMost(a: string, b: string) { a == b || Precedes(a, b) }

  lemma {:induction false} PrecedesIsStrict(a: string)
    ensures !Precedes(a, a)
  {
    if a != [] {
      PrecedesIsStrict(a[1..]);
    }
  }

  lemma {:induction false} PrecedesTransitive(a: string, b: string, c: string)
    requires Precedes(a, b) && Precedes(b, c)
    ensures Precedes(a, c)
  {
    if a != [] && a[0] == b[0] == c[0] {
      PrecedesTransitive(a[1..], b[1..], c[1..]);
    }
  }

  lemma {:induction false} PrecedesTotal(a: string, b: string)
    ensures a == b || Precedes(a, b) || Precedes(b, a)
    decreases a
  {
    if a != [] && b != [] && a[0] == b[0] {
      PrecedesTotal(a[1..], b[1..]);
      assert a[1..] == b[1..] ==> a == [a[0]] + a[1..] == b;
    }
  }

  lemma PrecedesAsymmetric(a: string, b: string)
    requires Precedes(a, b)
    ensures a != b && !Precedes(b, a)
  {
    PrecedesIsStrict(a);
    if Precedes(b, a) {
      PrecedesTransitive(a, b, a);
    }
  }

  /** `AtMost` is a total order. */
  lemma AtMostIsOrder()
    ensures forall a, b :: AtMost(a, b) || AtMost(b, a)
    ensures forall a, b, c :: AtMost(a, b) && AtMost(b, c) ==> AtMost(a, c)
    ensures forall a, b :: AtMost(a, b) && AtMost(b, a) ==> a == b
  {
    forall a, b ensures AtMost(a, b) || AtMost(b, a) {
      PrecedesTotal(a, b);
    }
    forall a, b, c | AtMost(a, b) && AtMost(b, c) ensures AtMost(a, c) {
      if a != b && b != c {
        PrecedesTransitive(a, b, c);
      }
    }
    forall a, b | AtMost(a, b) && AtMost(b, a) ensures a == b {
      if Precedes(a, b) {
        PrecedesAsymmetric(a, b);
      }
    }
  }

  /**
   One text precedes another exactly when it is a proper prefix of it, or has the smaller character where they part.
   */
  lemma {:induction false} PrecedesIff(a: string, b: string)
    ensures Precedes(a, b)
       <==> exists i :: 0 <= i <= |a| && i < |b| && a[..i] == b[..i] && (i == |a| || a[i] < b[i])
  {
    if a != [] && b != [] && a[0] == b[0] {
      PrecedesIff(a[1..], b[1..]);
      if i :| 0 <= i <= |a[1..]| && i < |b[1..]| && a[1..][..i] == b[1..][..i]
              && (i == |a[1..]| || a[1..][i] < b[1..][i]) {
        assert a[..i + 1] == [a[0]] + a[1..][..i] && b[..i + 1] == [b[0]] + b[1..][..i];
      }
      if i :| 0 <= i <= |a| && i < |b| && a[..i] == b[..i] && (i == |a| || a[i] < b[i]) {
        assert i > 0;
        assert a[1..][..i - 1] == a[..i][1..] && b[1..][..i - 1] == b[..i][1..];
        assert i - 1 == |a[1..]| || a[1..][i - 1] < b[1..][i - 1];
      }
    } else if b != [] {
      assert a[..0] == b[..0];
    }
  }
}
