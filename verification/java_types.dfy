/** Java primitive ranges and the few java.util contracts the codec relies on. */
module JavaTypes {

  const INT_MIN: int := -0x8000_0000
  const INT_MAX: int := 0x7fff_ffff
  const LONG_MIN: int := -0x8000_0000_0000_0000
  const LONG_MAX: int := 0x7fff_ffff_ffff_ffff

  /** A Java `int`. */
  type Int32 = x: int | INT_MIN <= x <= INT_MAX

  /** A Java `long` (also the unboxed value of a non-null `Long`). */
  type Int64 = x: int | LONG_MIN <= x <= LONG_MAX

  /** `Set.size()`: the number of elements, or Integer.MAX_VALUE when the set
      holds more than that. */
  function JavaSize(s: set<Int64>): (n: Int32)
    ensures 0 <= n <= |s|
    ensures n == |s| <==> |s| <= INT_MAX
    ensures n < |s| ==> n == INT_MAX
  {
    if |s| <= INT_MAX then |s| else INT_MAX
  }

  /** The elements of a sequence, as a set. */
  function Elements(q: seq<Int64>): set<Int64>
  {
    set x | x in q
  }

  lemma ElementsAppend(q: seq<Int64>, x: Int64)
    ensures Elements(q + [x]) == Elements(q) + {x}
  {
    assert forall y :: y in q + [x] <==> y in q || y == x;
  }

  /** No value occurs twice in the sequence. */
  predicate Distinct(q: seq<Int64>)
  {
    forall i, j :: 0 <= i < j < |q| ==> q[i] != q[j]
  }

  /** A sequence has at most as many distinct values as positions, and
      exactly as many when no value repeats. */
  lemma {:induction false} ElementsCardinality(q: seq<Int64>)
    ensures |Elements(q)| <= |q|
    ensures |Elements(q)| == |q| <==> Distinct(q)
  {
    if |q| > 0 {
      var t := q[1..];
      ElementsCardinality(t);
      assert Elements(q) == {q[0]} + Elements(t) by {
        assert forall x :: x in q <==> x == q[0] || x in t;
      }
      if q[0] in t {
        assert Elements(q) == Elements(t);
        var j :| 0 <= j < |t| && t[j] == q[0];
        assert q[0] == q[j + 1];
      } else {
        assert |Elements(q)| == 1 + |Elements(t)|;
        if Distinct(t) {
          forall i, j | 0 <= i < j < |q| ensures q[i] != q[j] {
            if i == 0 {
              assert q[j] == t[j - 1];
            } else {
              assert q[i] == t[i - 1] && q[j] == t[j - 1];
            }
          }
        } else {
          var i, j :| 0 <= i < j < |t| && t[i] == t[j];
          assert q[i + 1] == q[j + 1];
        }
      }
    }
  }
}
