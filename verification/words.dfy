/** A `u64` bitmap word, seen as the set of its one-bit positions: or is union, and-not is difference,
    `count_ones` is cardinality, and the shift and scan operations are below. After them the few sets
    and sequences that all parts share. */
module Words {

  const BITS: nat := 64

  type Word = w: set<nat> | forall b | b in w :: b < BITS

  /** `u64::MAX << b`: every position from `b` up. */
  function From(b: nat): (w: Word)
    ensures forall i: nat :: i in w <==> b <= i < BITS
  {
    set i: nat | i < BITS && AtLeast(i, b)
  }

  predicate AtLeast(i: nat, b: nat) { b <= i }

  /** `w & (u64::MAX << b)`. */
  function MaskFrom(w: Word, b: nat): (m: Word)
    ensures forall i | i in m :: i in w && i >= b
    ensures forall i | i in w && i >= b :: i in m
  {
    w * From(b)
  }

  /** `(1 << n) - 1`, or `u64::MAX` for n = 64: every position below `n`. */
  function Below(n: nat): (w: Word)
    requires n <= BITS
    ensures forall i: nat :: i in w <==> i < n
    ensures |w| == n
  {
    if n == 0 then {} else Below(n - 1) + {n - 1}
  }

  /** The lowest one-bit position. */
  function TrailingZeros(w: Word): (r: nat)
    requires w != {}
    ensures r in w && forall b | b in w :: r <= b
  {
    LowestFrom(w, 0)
  }

  function LowestFrom(w: Word, i: nat): (r: nat)
    requires i <= BITS
    requires exists b :: b in w && b >= i
    ensures i <= r && r in w && forall b | b in w && b >= i :: r <= b
    decreases BITS - i
  {
    if i in w then i else LowestFrom(w, i + 1)
  }

  datatype Option<+T> = None | Some(value: T)

  /** The `n` numbers from `h` up. */
  function Range(h: nat, n: nat): (r: set<nat>)
    ensures forall i :: i in r <==> h <= i < h + n
  {
    set i: nat | i < h + n && AtLeast(i, h)
  }

  /** A subset with as many elements is the whole set. */
  lemma {:induction false} SubsetCount<T>(a: set<T>, t: set<T>)
    requires a <= t
    ensures |a| <= |t| && (|a| == |t| ==> a == t)
    decreases a
  {
    if a != {} {
      var x :| x in a;
      SubsetCount(a - {x}, t - {x});
      assert a == (a - {x}) + {x} && t == (t - {x}) + {x};
    }
  }

  /** Last first. */
  ghost function Reversed<T>(xs: seq<T>): (r: seq<T>)
    ensures |r| == |xs| && forall i | 0 <= i < |xs| :: r[i] == xs[|xs| - 1 - i]
  {
    if xs == [] then [] else [xs[|xs| - 1]] + Reversed(xs[..|xs| - 1])
  }
}
