/** A single perceptron: one weight vector and one bias. Its forward step is
    `normalizer(Σ activations[i] * weights[i] − bias)`. The normalizer is any
    scalar function the caller passes in. */
module Perceptrons {
  import Arr

  datatype Perceptron = Perceptron(weights: seq<int>, bias: int)

  /** The dot product written independently of the vector operations: the sum
      of the index-wise products, peeled from the front. */
  function Dot(a: seq<int>, w: seq<int>): int
    requires |a| == |w|
  {
    if |a| == 0 then 0 else a[0] * w[0] + Dot(a[1..], w[1..])
  }

  /** `From<([T; SIZE], T)>`: the array becomes the weight vector, the scalar the bias. */
  function FromPair(pair: (seq<int>, int), size: nat): (p: Perceptron)
    requires |pair.0| == size
    ensures |p.weights| == size
    ensures forall i :: 0 <= i < size ==> p.weights[i] == pair.0[i]
    ensures p.bias == pair.1
  {
    Perceptron(Arr.FromArray(pair.0, size), pair.1)
  }

  /** `new`: stores the given weight vector and bias. */
  function New(weights: seq<int>, bias: int): (p: Perceptron)
    ensures Weights(p) == weights && Bias(p) == bias
  {
    Perceptron(weights, bias)
  }

  /** `weights()`. */
  function Weights(p: Perceptron): seq<int> {
    p.weights
  }

  /** `bias()`. */
  function Bias(p: Perceptron): int {
    p.bias
  }

  /** Assigning through `bias_mut()`: only the bias changes. */
  function SetBias(p: Perceptron, b: int): (r: Perceptron)
    ensures Bias(r) == b
    ensures Weights(r) == Weights(p)
  {
    p.(bias := b)
  }

  /** Assigning a whole vector through `weights_mut()`: the new vector has the
      same size, since the size is part of the type, and the bias is kept. */
  function SetWeights(p: Perceptron, w: seq<int>): (r: Perceptron)
    requires |w| == |p.weights|
    ensures Weights(r) == w && |Weights(r)| == |Weights(p)|
    ensures Bias(r) == Bias(p)
  {
    p.(weights := w)
  }

  /** Writing `weights_mut()[i] = v`: weight i changes, the other weights and the bias stay. */
  function SetWeight(p: Perceptron, i: nat, v: int): (r: Perceptron)
    requires i < |p.weights|
    ensures |Weights(r)| == |Weights(p)|
    ensures Weights(r)[i] == v
    ensures forall k :: 0 <= k < |p.weights| && k != i ==> Weights(r)[k] == Weights(p)[k]
    ensures Bias(r) == Bias(p)
  {
    p.(weights := Arr.Store(p.weights, i, v))
  }

  /** `proceed`: pairs the activations with the weights index-wise, sums the
      products in index order, subtracts the bias and normalizes. */
  function Proceed(p: Perceptron, a: seq<int>, normalizer: int -> int): (r: int)
    requires |a| == |p.weights|
    ensures r == normalizer(Dot(a, p.weights) - p.bias)
  {
    SumMulIsDot(a, p.weights);
    normalizer(Arr.Sum(Arr.Mul(a, p.weights)) - p.bias)
  }

  /** The `identity` normalizer. */
  function Identity(x: int): int {
    x
  }

  // ---------------------------------------------------------------------------

  /** Summing the element-wise product is the dot product. */
  lemma {:induction false} SumMulIsDot(a: seq<int>, w: seq<int>)
    requires |a| == |w|
    ensures Arr.Sum(Arr.Mul(a, w)) == Dot(a, w)
    decreases |a|
  {
    if |a| > 0 {
      var m := Arr.Mul(a, w);
      assert m == [a[0] * w[0]] + Arr.Mul(a[1..], w[1..]);
      Arr.SumCons(a[0] * w[0], Arr.Mul(a[1..], w[1..]));
      SumMulIsDot(a[1..], w[1..]);
    }
  }

  /** Rebuilding a perceptron from its accessors gives it back. */
  lemma NewFromAccessors(p: Perceptron)
    ensures New(Weights(p), Bias(p)) == p
  {
  }

  /** With the identity normalizer, changing the bias through `bias_mut` shifts
      the output by exactly the change, since the weights are untouched. */
  lemma ProceedSetBias(p: Perceptron, a: seq<int>, b: int)
    requires |a| == |p.weights|
    ensures Proceed(SetBias(p, b), a, Identity) == Proceed(p, a, Identity) + p.bias - b
  {
  }

  /** Weights [1, 1, 1], bias 0, identity normalizer, input [1, 2, 3]: output 6. */
  lemma ProceedExample()
    ensures Proceed(New([1, 1, 1], 0), [1, 2, 3], Identity) == 6
  {
    assert Dot([1, 2, 3], [1, 1, 1]) == 6 by {
      assert [1, 2, 3][1..] == [2, 3];
      assert [1, 1, 1][1..] == [1, 1];
      assert [2, 3][1..] == [3];
      assert [1, 1][1..] == [1];
    }
  }
}
