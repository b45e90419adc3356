/** `PerceptronLayer<T, INPUT_SIZE, OUTPUT_SIZE>`: OUTPUT_SIZE perceptrons over
    one shared input of width INPUT_SIZE. Perceptron i produces output slot i. */
module Layers {
  import Arr
  import P = Perceptrons

  datatype PerceptronLayer = PerceptronLayer(perceptrons: seq<P.Perceptron>)

  /** The layer's type invariant: OUTPUT_SIZE perceptrons, each with a weight
      vector of length INPUT_SIZE. */
  predicate Shaped(l: PerceptronLayer, inputSize: nat, outputSize: nat) {
    |l.perceptrons| == outputSize && Accepts(l, inputSize)
  }

  /** Every perceptron of the layer reads an input of width `inputSize`. */
  predicate Accepts(l: PerceptronLayer, inputSize: nat) {
    forall k :: 0 <= k < |l.perceptrons| ==> |l.perceptrons[k].weights| == inputSize
  }

  /** `From<[Perceptron<T, INPUT_SIZE>; OUTPUT_SIZE]>`: perceptron i of the
      layer is element i of the array. */
  function FromPerceptrons(ps: seq<P.Perceptron>, inputSize: nat, outputSize: nat): (l: PerceptronLayer)
    requires |ps| == outputSize
    requires forall k :: 0 <= k < outputSize ==> |ps[k].weights| == inputSize
    ensures Shaped(l, inputSize, outputSize)
    ensures forall i :: 0 <= i < outputSize ==> Perceptrons(l)[i] == ps[i]
  {
    PerceptronLayer(Arr.FromArray(ps, outputSize))
  }

  /** `perceptrons()`. */
  function Perceptrons(l: PerceptronLayer): seq<P.Perceptron> {
    l.perceptrons
  }

  /** The forward step as a value: slot i holds perceptron i's output on the
      shared input. This is the reference the loop in `Proceed` is held to. */
  function Apply(l: PerceptronLayer, x: seq<int>, normalizer: int -> int): seq<int>
    requires Accepts(l, |x|)
  {
    seq(|l.perceptrons|, i requires 0 <= i < |l.perceptrons| =>
      P.Proceed(l.perceptrons[i], x, normalizer))
  }

  /** `Layer::proceed`: runs the perceptrons in index order and writes result i
      into slot i. Every slot is filled before the vector is returned. */
  method Proceed(l: PerceptronLayer, x: seq<int>, normalizer: int -> int) returns (r: seq<int>)
    requires Accepts(l, |x|)
    ensures |r| == |l.perceptrons|
    ensures forall i :: 0 <= i < |r| ==> r[i] == P.Proceed(l.perceptrons[i], x, normalizer)
    ensures r == Apply(l, x, normalizer)
  {
    r := [];
    for i := 0 to |l.perceptrons|
      invariant |r| == i
      invariant forall k :: 0 <= k < i ==> r[k] == P.Proceed(l.perceptrons[k], x, normalizer)
    {
      r := r + [P.Proceed(l.perceptrons[i], x, normalizer)];
    }
  }

  // ---------------------------------------------------------------------------

  /** A shaped layer maps an INPUT_SIZE vector to an OUTPUT_SIZE vector. */
  lemma ApplyShape(l: PerceptronLayer, inputSize: nat, outputSize: nat, x: seq<int>, normalizer: int -> int)
    requires Shaped(l, inputSize, outputSize)
    requires |x| == inputSize
    ensures |Apply(l, x, normalizer)| == outputSize
  {
  }

  /** Output slot i depends on perceptron i alone: replacing perceptron j
      changes slot j to the new perceptron's output and leaves every other slot. */
  lemma ApplyLocal(l: PerceptronLayer, j: nat, q: P.Perceptron, x: seq<int>, normalizer: int -> int)
    requires Accepts(l, |x|)
    requires j < |l.perceptrons|
    requires |q.weights| == |x|
    ensures var l' := PerceptronLayer(Arr.Store(l.perceptrons, j, q));
      && Apply(l', x, normalizer)[j] == P.Proceed(q, x, normalizer)
      && forall i :: 0 <= i < |l.perceptrons| && i != j ==>
           Apply(l', x, normalizer)[i] == Apply(l, x, normalizer)[i]
  {
  }
}
