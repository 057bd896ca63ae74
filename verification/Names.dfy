/** Names as sequences of UTF-16 code units, and their order. */
module Names {
  import opened Wire

  type Name = seq<u16>

  /** The order `cmp` gives: the first difference decides, and a proper prefix comes first. */
  predicate NameLess(a: Name, b: Name) {
    b != [] && (a == [] || a[0] < b[0] || (a[0] == b[0] && NameLess(a[1..], b[1..])))
  }

  lemma {:induction false} NameLessIrreflexive(a: Name)
    ensures !NameLess(a, a)
  {
    if a == [] {
    } else {
      NameLessIrreflexive(a[1..]);
    }
  }

  lemma {:induction false} NameLessTransitive(a: Name, b: Name, c: Name)
    requires NameLess(a, b) && NameLess(b, c)
    ensures NameLess(a, c)
  {
    if a == [] || a[0] < b[0] || b[0] < c[0] {
    } else {
      NameLessTransitive(a[1..], b[1..], c[1..]);
    }
  }

  lemma {:induction false} NameLessTotal(a: Name, b: Name)
    ensures a == b || NameLess(a, b) || NameLess(b, a)
  {
    if a == [] || b == [] || a[0] != b[0] {
    } else {
      NameLessTotal(a[1..], b[1..]);
      if a[1..] == b[1..] {
        assert a == [a[0]] + a[1..] && b == [b[0]] + b[1..];
      }
    }
  }

  /** Two names agree up to some place, where the first ends or has the smaller unit. */
  ghost predicate DiffersBelow(a: Name, b: Name, n: nat) {
    n <= |a| && n < |b| && a[..n] == b[..n] && (n == |a| || a[n] < b[n])
  }

  ghost predicate Precedes(a: Name, b: Name) {
    exists n: nat :: DiffersBelow(a, b, n)
  }

  lemma {:induction false} DifferenceDecides(a: Name, b: Name, n: nat)
    requires DiffersBelow(a, b, n)
    ensures NameLess(a, b)
  {
    if n == 0 {
    } else {
      assert a[0] == a[..n][0] == b[..n][0] == b[0];
      assert a[1..][..n - 1] == a[..n][1..] && b[1..][..n - 1] == b[..n][1..];
      DifferenceDecides(a[1..], b[1..], n - 1);
    }
  }

  lemma {:induction false} LessDiffers(a: Name, b: Name) returns (n: nat)
    requires NameLess(a, b)
    ensures DiffersBelow(a, b, n)
  {
    if a == [] || a[0] < b[0] {
      n := 0;
      assert a[..0] == b[..0];
    } else {
      n := LessDiffers(a[1..], b[1..]);
      assert a[..n + 1] == [a[0]] + a[1..][..n] && b[..n + 1] == [b[0]] + b[1..][..n];
      n := n + 1;
    }
  }

  /** The order of names: the first difference decides, and a proper prefix comes first. */
  lemma NameLessExactly(a: Name, b: Name)
    ensures NameLess(a, b) <==> Precedes(a, b)
  {
    if NameLess(a, b) {
      var n := LessDiffers(a, b);
    }
    if Precedes(a, b) {
      var n: nat :| DiffersBelow(a, b, n);
      DifferenceDecides(a, b, n);
    }
  }

  /** An ASCII constant as a name. */
  function Text(s: string): (n: Name)
    ensures |n| == |s|
    ensures forall i | 0 <= i < |s| :: s[i] as int < 0x80 ==> n[i] == s[i] as int
  {
    Ascii(s)
  }
}
