/** The fixed-length vector `Arr<T, SIZE>`.

    In the source the length SIZE is a const generic parameter of the type.
    Dafny has no value-indexed types, so a vector is a plain `seq<T>` and SIZE
    travels as an explicit `size: nat` argument; every constructor promises
    `|r| == size`, which is the type's invariant "the length is always SIZE".
    Element-wise arithmetic is over `int`. */
module Arr {
  import opened Results

  function Min(a: nat, b: nat): nat {
    if a <= b then a else b
  }

  /** `From<T>`: `size` clones of `v`, pushed one after another. */
  function Fill<T>(size: nat, v: T): (r: seq<T>)
    ensures |r| == size
    ensures forall i :: 0 <= i < size ==> r[i] == v
  {
    if size == 0 then [] else Fill(size - 1, v) + [v]
  }

  /** `Default` for integer elements: `size` copies of the integer default, 0. */
  function Zeros(size: nat): (r: seq<int>)
    ensures |r| == size
    ensures forall i :: 0 <= i < size ==> r[i] == 0
  {
    Fill(size, 0)
  }

  /** `map` and `map_copy`: a vector of the same length whose element i is
      `f` applied to element i. With value semantics the two coincide. */
  function Map<T, R>(a: seq<T>, f: T -> R): (r: seq<R>)
    ensures |r| == |a|
    ensures forall i :: 0 <= i < |a| ==> r[i] == f(a[i])
  {
    if |a| == 0 then [] else [f(a[0])] + Map(a[1..], f)
  }

  /** `sum`: the left fold of `+` from 0 over the elements in index order,
      ((0 + a[0]) + a[1]) + ... */
  function Sum(a: seq<int>): int
  {
    if |a| == 0 then 0 else Sum(a[..|a| - 1]) + a[|a| - 1]
  }

  /** The `zip` loop shared by `+`, `-` and `*`: pairs elements index-wise and
      stops at the shorter operand. */
  function ZipWith<A, B, C>(a: seq<A>, b: seq<B>, op: (A, B) -> C): (r: seq<C>)
    ensures |r| == Min(|a|, |b|)
    ensures forall i :: 0 <= i < |r| ==> r[i] == op(a[i], b[i])
  {
    if |a| == 0 || |b| == 0 then [] else [op(a[0], b[0])] + ZipWith(a[1..], b[1..], op)
  }

  /** `Add for Arr`. */
  function Add(a: seq<int>, b: seq<int>): (r: seq<int>)
    ensures |a| == |b| ==> |r| == |a|
    ensures |r| == Min(|a|, |b|)
    ensures forall i :: 0 <= i < |r| ==> r[i] == a[i] + b[i]
  {
    ZipWith(a, b, (x: int, y: int) => x + y)
  }

  /** `Sub for Arr`. */
  function Sub(a: seq<int>, b: seq<int>): (r: seq<int>)
    ensures |a| == |b| ==> |r| == |a|
    ensures |r| == Min(|a|, |b|)
    ensures forall i :: 0 <= i < |r| ==> r[i] == a[i] - b[i]
  {
    ZipWith(a, b, (x: int, y: int) => x - y)
  }

  /** `Mul for Arr`. */
  function Mul(a: seq<int>, b: seq<int>): (r: seq<int>)
    ensures |a| == |b| ==> |r| == |a|
    ensures |r| == Min(|a|, |b|)
    ensures forall i :: 0 <= i < |r| ==> r[i] == a[i] * b[i]
  {
    ZipWith(a, b, (x: int, y: int) => x * y)
  }

  /** The i-th components of a stream of vectors, in stream order. */
  function Column(vs: seq<seq<int>>, i: nat): (c: seq<int>)
    requires forall k :: 0 <= k < |vs| ==> i < |vs[k]|
  {
    seq(|vs|, k requires 0 <= k < |vs| => vs[k][i])
  }

  /** `Sum for Arr`: start from the default vector and add each vector of the
      stream in turn. Component i of the result is the sum of the stream's
      i-th components; an empty stream yields the default vector. */
  function SumAll(vs: seq<seq<int>>, size: nat): (r: seq<int>)
    requires forall k :: 0 <= k < |vs| ==> |vs[k]| == size
    ensures |r| == size
    ensures |vs| == 0 ==> r == Zeros(size)
    ensures forall i :: 0 <= i < size ==> r[i] == Sum(Column(vs, i))
  {
    if |vs| == 0 then Zeros(size)
    else
      var prefix := vs[..|vs| - 1];
      var r := Add(SumAll(prefix, size), vs[|vs| - 1]);
      assert forall i :: 0 <= i < size ==> Column(vs, i)[..|vs| - 1] == Column(prefix, i);
      r
  }

  /** `IndexMut`: writing `v` through `a[i]` changes slot i and nothing else. */
  function Store<T>(a: seq<T>, i: nat, v: T): (r: seq<T>)
    requires i < |a|
    ensures |r| == |a|
    ensures r[i] == v
    ensures forall k :: 0 <= k < |a| && k != i ==> r[k] == a[k]
  {
    a[i := v]
  }

  /** `TryFrom<Vec<T>>`: succeeds exactly when the length is `size`; otherwise
      the input comes back untouched as the error. */
  function TryFrom<T>(v: seq<T>, size: nat): (r: Result<seq<T>, seq<T>>)
    ensures r.Ok? <==> |v| == size
    ensures r.Ok? ==> |r.value| == size && forall i :: 0 <= i < size ==> r.value[i] == v[i]
    ensures r.Err? ==> r.error == v
  {
    if |v| == size then Ok(v) else Err(v)
  }

  /** The vector a `TryFrom` result holds, whichever side it is on. */
  function Recover<T>(r: Result<seq<T>, seq<T>>): seq<T> {
    match r
    case Ok(a) => a
    case Err(v) => v
  }

  /** `From<[T; SIZE]>` and `From<&[T; SIZE]>`: every element stays at its index. */
  function FromArray<T>(values: seq<T>, size: nat): (r: seq<T>)
    requires |values| == size
    ensures |r| == size
    ensures forall i :: 0 <= i < size ==> r[i] == values[i]
  {
    values
  }

  /** `PartialEq`: equal exactly when the underlying vectors agree everywhere. */
  predicate Equal<T(==)>(a: seq<T>, b: seq<T>)
    ensures Equal(a, b) <==> |a| == |b| && forall i :: 0 <= i < |a| ==> a[i] == b[i]
  {
    a == b
  }

  // ---------------------------------------------------------------------------
  // Properties relating the operations to each other.

  /** A failed conversion hands back exactly its input; a successful one holds it. */
  lemma TryFromRecover<T>(v: seq<T>, size: nat)
    ensures Recover(TryFrom(v, size)) == v
  {
  }

  /** The fallible conversion agrees with the array conversion on arrays of the right size. */
  lemma TryFromArray<T>(values: seq<T>, size: nat)
    requires |values| == size
    ensures TryFrom(values, size) == Ok(FromArray(values, size))
  {
  }

  /** Summing splits over concatenation. */
  lemma {:induction false} SumAppend(a: seq<int>, b: seq<int>)
    ensures Sum(a + b) == Sum(a) + Sum(b)
    decreases |b|
  {
    if |b| == 0 {
      assert a + b == a;
    } else {
      var b' := b[..|b| - 1];
      assert (a + b)[..|a + b| - 1] == a + b';
      SumAppend(a, b');
    }
  }

  /** The left fold can be peeled from the front as well. */
  lemma SumCons(x: int, s: seq<int>)
    ensures Sum([x] + s) == x + Sum(s)
  {
    SumAppend([x], s);
    assert [x][..0] == [];
  }

  /** Summing is linear: the sum of an element-wise sum is the sum of the sums. */
  lemma {:induction false} SumOfAdd(a: seq<int>, b: seq<int>)
    requires |a| == |b|
    ensures Sum(Add(a, b)) == Sum(a) + Sum(b)
    decreases |a|
  {
    if |a| > 0 {
      var n := |a| - 1;
      assert Add(a, b)[..n] == Add(a[..n], b[..n]);
      SumOfAdd(a[..n], b[..n]);
    }
  }

  /** The sum of `size` copies of `v` is `size * v`; in particular the default vector sums to 0. */
  lemma {:induction false} SumFill(size: nat, v: int)
    ensures Sum(Fill(size, v)) == size * v
  {
    if size > 0 {
      assert Fill(size, v)[..size - 1] == Fill(size - 1, v);
      SumFill(size - 1, v);
    }
  }

  /** Element-wise `+` is commutative. */
  lemma AddCommutes(a: seq<int>, b: seq<int>)
    ensures Add(a, b) == Add(b, a)
  {
  }

  /** Element-wise `+` is associative, whatever the operand lengths: both
      sides are as long as the shortest operand. */
  lemma AddAssociates(a: seq<int>, b: seq<int>, c: seq<int>)
    ensures Add(Add(a, b), c) == Add(a, Add(b, c))
  {
    var lhs, rhs := Add(Add(a, b), c), Add(a, Add(b, c));
    assert |lhs| == |rhs| == Min(Min(|a|, |b|), |c|);
    forall i | 0 <= i < |lhs|
      ensures lhs[i] == rhs[i]
    {
      assert lhs[i] == (a[i] + b[i]) + c[i];
    }
  }

  /** The default vector is the identity of element-wise `+`. */
  lemma AddZeros(a: seq<int>)
    ensures Add(a, Zeros(|a|)) == a
  {
  }

  /** Subtracting a vector from itself gives the default vector. */
  lemma SubSelf(a: seq<int>)
    ensures Sub(a, a) == Zeros(|a|)
  {
  }

  /** Element-wise `*` is commutative. */
  lemma MulCommutes(a: seq<int>, b: seq<int>)
    ensures Mul(a, b) == Mul(b, a)
  {
  }

  /** Mapping composes: mapping `f` then `h` is mapping their composition. */
  lemma MapCompose<T, U, R>(a: seq<T>, f: T -> U, h: U -> R)
    ensures Map(Map(a, f), h) == Map(a, x => h(f(x)))
  {
  }
}
