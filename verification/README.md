# simple_neural_net forward pass, in Dafny

A model of the forward-pass engine of a fixed-topology perceptron network. It has four parts.

- `Arr` (`arr.dfy`) models `Arr<T, SIZE>`, the fixed-length vector. It covers the fill constructors, `map`, `sum`, element-wise `+ - *`, summing a stream of vectors, the checked conversion from a `Vec`, the array conversions, writes through `IndexMut`, and equality. Dafny has no const generics, so a vector is a `seq<T>` and SIZE is passed as an explicit `size: nat`. Every constructor promises `|r| == size`, which is the type's invariant. Reads through `Index` are Dafny's own sequence indexing.
- `Perceptrons` (`perceptron.dfy`) models `Perceptron<T, SIZE>`: a weight vector, a bias, and their constructors and accessors. Each mutable accessor becomes a function that returns the updated perceptron. `proceed` computes `normalizer(Σ a[i]·w[i] − bias)`. Its contract is stated against `Dot`, a dot product defined independently of the vector operations.
- `Layers` (`layer.dfy`) models `PerceptronLayer<T, IN, OUT>`. `Proceed` is a loop that fills the output slot by slot. It is proved equal to `Apply`, a functional reference that puts perceptron i's output in slot i.
- `ComposeLayers` (`compose.dfy`) models the `compose_layers!` macro:
  - the parser, over a token sequence;
  - the code it generates: one field shape per adjacent pair of widths, the chain of `proceed` calls, and the `Layer` input and output sizes;
  - the generated `new`/`From`;
  - the generated `proceed`, which executes the generated call list over an environment of result variables `r_i`.

  `Proceed` is proved equal to `Forward`, the fold that threads the input through the layers in order. That fold is the composition `L_last ∘ … ∘ L_0` of the layers' forward steps, and `ForwardSplit` proves that it splits at every layer.

Scalars are mathematical integers (`int`). The normalizer is an arbitrary function `int -> int` supplied by the caller. `Perceptrons.Identity` is the `identity` normalizer.

## Model

| member | source | states |
|---|---|---|
| `Arr.Fill` | src/arr.rs:24-31 | `From<T>` yields exactly SIZE elements, and every one is the given value |
| `Arr.Zeros` | src/arr.rs:15-22 | `Default` yields exactly SIZE elements, each the scalar default 0 |
| `Arr.Map` | src/arr.rs:47-62 | `map`/`map_copy` keep the length, and element i of the result is `f` of element i |
| `Arr.MapCompose` | src/arr.rs:47-53 | mapping `f` and then `h` equals mapping their composition |
| `Arr.Sum` | src/arr.rs:64-70 | left fold of `+` from 0 in index order; its laws are the three lemmas below |
| `Arr.SumAppend` | src/arr.rs:64-70 | the left fold of `+` from 0 splits over concatenation: `Sum(a + b) == Sum(a) + Sum(b)` |
| `Arr.SumCons` | src/arr.rs:64-70 | the left fold can also be peeled from the front: `Sum([x] + s) == x + Sum(s)` |
| `Arr.SumFill` | src/arr.rs:64-70 | the sum of SIZE copies of v is SIZE·v, so the default vector sums to 0 |
| `Arr.ZipWith` | src/arr.rs:96-101 | the zip loop pairs elements index-wise and stops at the shorter operand |
| `Arr.Add` | src/arr.rs:93-104 | the result is as long as the shorter operand (so equal sizes are kept), and `r[i] == a[i] + b[i]` |
| `Arr.Sub` | src/arr.rs:106-117 | the result is as long as the shorter operand (so equal sizes are kept), and `r[i] == a[i] - b[i]` |
| `Arr.Mul` | src/arr.rs:119-130 | the result is as long as the shorter operand (so equal sizes are kept), and `r[i] == a[i] * b[i]` |
| `Arr.SumOfAdd` | src/arr.rs:93-104 | summing an element-wise sum gives the sum of the two sums |
| `Arr.AddCommutes` | src/arr.rs:93-104 | element-wise `+` is commutative |
| `Arr.AddAssociates` | src/arr.rs:93-104 | element-wise `+` is associative for operands of any lengths; both sides are as long as the shortest operand |
| `Arr.AddZeros` | src/arr.rs:93-104 | the default vector is the identity of element-wise `+` |
| `Arr.SubSelf` | src/arr.rs:106-117 | `a - a` is the default (all-zero) vector |
| `Arr.MulCommutes` | src/arr.rs:119-130 | element-wise `*` is commutative |
| `Arr.SumAll` | src/arr.rs:132-145 | summing a stream of SIZE vectors from the default vector yields SIZE elements; component i is the sum of the stream's i-th components; an empty stream yields the default vector |
| `Arr.Store` | src/arr.rs:155-160 | writing through `IndexMut` sets slot i, keeps the length, and leaves every other slot unchanged |
| `Arr.TryFrom` | src/arr.rs:162-173 | succeeds iff the length is SIZE; on success the elements keep their order; on failure the error is the input unchanged |
| `Arr.TryFromRecover` | src/arr.rs:162-173 | whichever side the result is on, it holds exactly the input |
| `Arr.FromArray` | src/arr.rs:175-187 | `From<[T; SIZE]>` and `From<&[T; SIZE]>` keep every element at its index |
| `Arr.TryFromArray` | src/arr.rs:162-187 | on an input of length SIZE, the checked conversion succeeds with the array conversion's result |
| `Arr.Equal` | src/arr.rs:189-193 | equality holds iff the lengths match and the vectors agree at every index |
| `Perceptrons.FromPair` | src/perceptron.rs:28-36 | `From<([T; SIZE], T)>` stores the array element-wise as the weights and the scalar as the bias |
| `Perceptrons.New` | src/perceptron.rs:39-42 | `weights()` and `bias()` of `new(w, b)` return exactly `w` and `b` |
| `Perceptrons.Weights` | src/perceptron.rs:49-52 | `weights()` returns the stored weight vector; `New` and `NewFromAccessors` state its relation to the constructor |
| `Perceptrons.Bias` | src/perceptron.rs:44-47 | `bias()` returns the stored bias; `New` and `NewFromAccessors` state its relation to the constructor |
| `Perceptrons.NewFromAccessors` | src/perceptron.rs:44-52 | rebuilding a perceptron from its two accessors gives it back, so the accessors expose its whole state |
| `Perceptrons.SetBias` | src/perceptron.rs:54-57 | writing through `bias_mut` sets the bias and leaves the weights unchanged |
| `Perceptrons.SetWeights` | src/perceptron.rs:59-62 | replacing the weights through `weights_mut` keeps their length SIZE and leaves the bias unchanged |
| `Perceptrons.SetWeight` | src/perceptron.rs:59-62 | writing weight i through `weights_mut` changes only that weight; the other weights and the bias are kept |
| `Perceptrons.Proceed` | src/perceptron.rs:64-81 | `proceed(a, g) == g(Σ_{i<SIZE} a[i]·w[i] − bias)` |
| `Perceptrons.SumMulIsDot` | src/perceptron.rs:72-78 | summing the zipped products in index order equals the dot product |
| `Perceptrons.ProceedSetBias` | src/perceptron.rs:54-81 | with the identity normalizer, changing only the bias shifts the output by exactly the change |
| `Perceptrons.Identity` | src/lib.rs:24-27 | the `identity` normalizer returns its argument; `ProceedSetBias` and `ProceedExample` use it |
| `Perceptrons.ProceedExample` | src/perceptron.rs:64-81 | with weights [1,1,1], bias 0, the identity normalizer and input [1,2,3], the output is 6 |
| `Layers.FromPerceptrons` | src/layer.rs:24-33 | the layer built from an array of OUT perceptrons has OUT perceptrons with `perceptrons()[i] == p_i`, each of input width IN |
| `Layers.Perceptrons` | src/layer.rs:18-21 | `perceptrons()` returns the layer's perceptrons; `FromPerceptrons` states that element i is the i-th constructor argument |
| `Layers.Proceed` | src/layer.rs:43-52 | the output has exactly OUT slots; slot i is perceptron i's `proceed` on the shared input; every slot is filled (loop invariant over slots `0..i`) |
| `Layers.ApplyShape` | src/layer.rs:9-16 | a layer whose perceptrons have input width IN maps IN-wide inputs to OUT-wide outputs |
| `Layers.ApplyLocal` | src/layer.rs:46-49 | replacing perceptron j changes output slot j to the new perceptron's output and no other slot |
| `ComposeLayers.ParseWidths` | macro/src/lib.rs:17-22 | the width loop succeeds only on `, <int>` pairs that fit in `usize`, and returns the widths in source order |
| `ComposeLayers.Parse` | macro/src/lib.rs:11-24 | empty input is rejected with the missing-type-name error; input that does not start with an identifier is rejected; a successful parse is exactly `Name, w0, w1, …` |
| `ComposeLayers.ParseRenderWidths` | macro/src/lib.rs:17-21 | parsing the tokens of a width list gives the list back |
| `ComposeLayers.ParseRenderWidthsOverflow` | macro/src/lib.rs:20 | a width above `usize::MAX` makes the width list fail to parse |
| `ComposeLayers.RenderedWidthsFailOnlyOnOverflow` | macro/src/lib.rs:18-21 | a rendered width list can fail to parse only because of an oversized literal |
| `ComposeLayers.ParseRender` | macro/src/lib.rs:11-24 | parse inverts rendering for widths that fit in `usize`, and rejects every other rendered invocation with an overflow error |
| `ComposeLayers.Fields` | macro/src/lib.rs:89-99 | one field per adjacent pair of widths (`len−1` fields); field i is shaped `(s_i, s_{i+1})`, so the first reads `s_0`, the last produces `s_last`, and each field's output width is the next field's input width |
| `ComposeLayers.Calls` | macro/src/lib.rs:101-108 | `len−2` calls; call k runs layer k+1 and writes its own variable `r_{k+1}`; the first call reads `r0` and every later one reads the variable the previous call wrote |
| `ComposeLayers.Compose` | macro/src/lib.rs:84-116 | the macro succeeds iff there are at least 2 widths. On success: exactly `len−1` fields, field i shaped `(s_i, s_{i+1})`, adjacent fields agreeing on their shared width, network sizes `s_0` and `s_{len−1}`, each call reading the previous result, and the final variable being the last layer's |
| `ComposeLayers.ComposeLayersMacro` | macro/src/lib.rs:82-116 | the macro as a whole: empty input is the missing-type-name error; an accepted invocation parses, yields consistent generated code named after its first token whose fields are shaped by the parsed widths, and has exactly `2·fields + 3` tokens (name plus one `, s_i` pair per width) |
| `ComposeLayers.MacroOnInvocation` | macro/src/lib.rs:82-116 | an invocation `Name, s0, …, sk` is accepted iff it has at least 2 widths; otherwise the error is "too few layers"; the accepted type keeps the name, has sizes `s0` and `sk`, and field `l_i` is shaped `(s_i, s_{i+1})` |
| `ComposeLayers.New` | macro/src/lib.rs:124-136 | `new(a0, …)` and `From((a0, …))` set field `l_i` to argument i, and the resulting network conforms to the generated field shapes |
| `ComposeLayers.Forward` | macro/src/lib.rs:146-150 | threading an input through chained layers, each reading the previous one's output, gives an output as wide as the last layer |
| `ComposeLayers.ConformsChains` | macro/src/lib.rs:89-99 | layers with the generated field types chain from width `s_0`, and the chain produces width `s_last` |
| `ComposeLayers.ChainsSplit` | macro/src/lib.rs:89-99 | any prefix of a chain chains from the same width, and the rest chains from the width that prefix produces |
| `ComposeLayers.FieldsChain` | macro/src/lib.rs:89-99 | layers typed by a chain of generated fields run one after another from the first field's input width and produce the last field's output width |
| `ComposeLayers.Proceed` | macro/src/lib.rs:138-150 | for well-formed generated code `g` and a network typed by `g`'s fields, the generated `proceed` (`r0 = l0(input)`, then each call of `g`, then return the final `r`) has `g`'s output size and equals the composition of the layers' `proceed`s in order |
| `ComposeLayers.GeneratedProceedApplies` | macro/src/lib.rs:82-150 | the code the macro generates for an invocation is well formed, a network built with its `new` is typed by its fields, and its sizes are `s_0` and `s_last`, so `Proceed` applies to it |
| `ComposeLayers.ForwardSplit` | macro/src/lib.rs:146-150 | running the first k layers and feeding the result to the rest gives the whole forward pass, for every k |
| `ComposeLayers.ForwardSingle` | macro/src/lib.rs:147-149 | with two widths the network's forward pass is just `l0.proceed(input)` |
| `ComposeLayers.ExampleNet` | tests/access_weights.rs:5-16 | the `[4,3,2,1]` network built with `new` conforms to the generated shapes |
| `ComposeLayers.ExampleNetAccess` | tests/access_weights.rs:18-19 | in that network, `l0.perceptrons()[0].weights()[0] == 0` and `l0.perceptrons()[0].bias() == 12` |

## Left out

- Randomised construction (`Arr::rand`, `Perceptron::default`): these sample an RNG over `f64`, so they are nondeterministic and floating-point.
- The normalizers `sigmoid`, `fast_fake_sigmoid` and `sigmoid_derivative`: these use `f64` `exp`/`abs` arithmetic. The normalizer is a function parameter, and `identity` is provided as `Perceptrons.Identity`.
- Floating point in general: scalars are unbounded integers. There is no rounding and no fixed-width wrap-around. Associativity and commutativity therefore hold exactly here, but they do not for `f64`.
- `Arr::uninitialized` and the `Deref` cast to a fixed-size array reference: these are memory-level tricks. The layer builds its output eagerly instead. Assigning `result[i] = …` into uninitialised memory drops whatever garbage is in the slot. That is harmless for `f64`, but the model cannot represent it.
- `Arr::iter`: it is plain sequence traversal.
- The order of calls to `map`'s closure and the `FnMut` side effects it may have: the mapping function is pure.
- Serde `Serialize`/`Deserialize`: these are out of scope. Deserialising an `Arr` does not check its length, so the size invariant holds only for values built through the constructors modelled here.
- Token construction in the macro (`ToTokens`, `quote!`, `format_ident!`) and the emitted struct's derives: the model covers the generated shapes and what the generated code computes, not the token streams.
- `proceed_verbosely`: the benchmark (benches/main_benchmark.rs:70-73) calls it, but `compose_layers!` in macro/src/lib.rs never generates it, so there is nothing to model.
- The parser's finer token rules are not modelled: `syn`'s rejection of keywords as type names, literal suffixes such as `4usize`, and the exact text of its error messages. A `usize` is assumed to be 64 bits wide.
- Operands of different lengths: `Arr.Add`, `Arr.Sub` and `Arr.Mul` accept them and give a result as long as the shorter operand, which is what `zip` does. The source's type system always makes the two lengths equal, so that case never arises there.
- `Arr.Store` and `Perceptrons.SetWeight` require an index below the length. Writing through `IndexMut` or `weights_mut()` with an out-of-range index panics in the source (src/arr.rs:158). The model treats that as a caller's error rather than an outcome.
- `Perceptrons.Proceed`: the property that it is read-only holds because Dafny functions cannot modify their arguments. It is therefore not stated as a separate contract.
- The Criterion benchmark program, and the test file apart from its concrete scenario.
