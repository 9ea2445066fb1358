/** Shared vocabulary: optional values, digits, the unsigned widths used by the program, and division. */
module Common {

  datatype Option<+T> = None | Some(value: T)

  predicate IsDigit(c: char) { '0' <= c <= '9' }

  const U16: nat := 0x1_0000
  const U32: nat := 0x1_0000_0000
  const U64: nat := 0x1_0000_0000_0000_0000

  /** No element occurs twice. */
  predicate Distinct<T(==)>(s: seq<T>) {
    forall i, j :: 0 <= i < j < |s| ==> s[i] != s[j]
  }

  /** The set of elements of a sequence. */
  function Elements<T>(s: seq<T>): set<T> {
    set x | x in s
  }

  /** Appending a new element keeps a sequence duplicate-free. */
  lemma DistinctAppend<T>(s: seq<T>, x: T)
    requires Distinct(s) && x !in s
    ensures Distinct(s + [x])
  {
  }

  /** A duplicate-free sequence has as many elements as positions. */
  lemma {:induction false} DistinctSize<T>(s: seq<T>)
    requires Distinct(s)
    ensures |Elements(s)| == |s|
  {
    if s != [] {
      var n := |s| - 1;
      DistinctSize(s[..n]);
      assert Elements(s) == Elements(s[..n]) + {s[n]};
      assert s[n] !in s[..n];
    }
  }

  /** A subset is no larger than the set that contains it. */
  lemma {:induction false} SubsetSize<T>(a: set<T>, b: set<T>)
    requires a <= b
    ensures |a| <= |b|
  {
    assert b == a + (b - a);
    assert a !! (b - a);
  }

  // ----- quotients and remainders

  lemma MulMonotone(a: nat, b: nat, d: nat)
    requires a <= b
    ensures a * d <= b * d
  {
  }

  lemma Recompose(index: nat, d: nat)
    requires d > 0
    ensures index / d * d + index % d == index
    ensures 0 <= index % d < d
    ensures 0 <= index / d <= index / d * d <= index
  {
    var q := index / d;
    MulMonotone(1, d, q);
    assert q * d == d * q;
  }

  lemma DivMonotone(i: nat, j: nat, d: nat)
    requires d > 0 && i <= j
    ensures i / d <= j / d
  {
    Recompose(i, d);
    Recompose(j, d);
    if i / d > j / d {
      MulMonotone(j / d + 1, i / d, d);
      assert false;
    }
  }

  lemma UniqueQuotient(q: nat, r: nat, d: nat)
    requires d > 0 && r < d
    ensures (q * d + r) / d == q && (q * d + r) % d == r
  {
    var x := q * d + r;
    assert q * d >= 0;
    Recompose(x, d);
    if x / d > q {
      MulMonotone(q + 1, x / d, d);
      assert false;
    } else if x / d < q {
      MulMonotone(x / d + 1, q, d);
      assert false;
    }
  }
}
