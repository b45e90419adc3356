/** The `compose_layers!(Name, s0, s1, ..., sk)` procedural macro and the
    network type it generates.

    The macro reads a type name and a list of widths, rejects fewer than two
    widths, and emits a struct with one `PerceptronLayer<T, s_i, s_{i+1}>`
    field `l_i` per adjacent pair of widths, a `new`, a `From` of a tuple of
    layers, and a `Layer<T, s0, sk>` implementation whose `proceed` runs
    `let r0 = self.l0.proceed(input)` followed by one
    `let r_i = self.l_i.proceed(&r_{i-1})` per remaining layer and returns the
    last `r`. This module models the token input as a sequence of tokens, the
    generated code as shapes and a call list, and the generated `proceed` by
    executing that call list. */
module ComposeLayers {
  import opened Results
  import Layers
  import P = Perceptrons

  // ---------------------------------------------------------------------------
  // Parsing the macro input.

  /** The tokens the parser can meet: identifiers, punctuation, integer literals. */
  datatype Token = Ident(name: string) | Punct(ch: char) | LitInt(value: nat)

  datatype ParsedInput = ParsedInput(typeName: string, layers: seq<nat>)

  datatype MacroError =
    | MissingTypeName   // empty input: the parser panics
    | ExpectedIdent     // the input does not start with an identifier
    | ExpectedComma     // a width is not preceded by `,`
    | ExpectedInteger   // a `,` is not followed by an integer literal
    | IntegerOverflow   // a literal does not fit in `usize`
    | TooFewLayers      // fewer than two widths: the macro panics

  /** The largest `usize` on the 64-bit host the macro runs on. */
  const USIZE_MAX: nat := 0xFFFF_FFFF_FFFF_FFFF

  /** The tokens `, w0 , w1 ...` that spell a width list. */
  function RenderWidths(ws: seq<nat>): (toks: seq<Token>)
    ensures |toks| == 2 * |ws|
  {
    if |ws| == 0 then [] else [Punct(','), LitInt(ws[0])] + RenderWidths(ws[1..])
  }

  /** The tokens `Name, w0, w1, ...` of a macro invocation. */
  function Render(p: ParsedInput): seq<Token> {
    [Ident(p.typeName)] + RenderWidths(p.layers)
  }

  predicate FitsUsize(ws: seq<nat>) {
    forall i :: 0 <= i < |ws| ==> ws[i] <= USIZE_MAX
  }

  /** The `while !input.is_empty()` loop of the parser: each round demands a
      `,` then an integer literal that fits in `usize`, and appends it. */
  function ParseWidths(toks: seq<Token>): (r: Result<seq<nat>, MacroError>)
    ensures r.Err? ==> r.error != MissingTypeName && r.error != ExpectedIdent
    ensures r.Ok? ==> toks == RenderWidths(r.value) && FitsUsize(r.value)
    decreases |toks|
  {
    if |toks| == 0 then Ok([])
    else if toks[0] != Punct(',') then Err(ExpectedComma)
    else if |toks| == 1 || !toks[1].LitInt? then Err(ExpectedInteger)
    else if toks[1].value > USIZE_MAX then Err(IntegerOverflow)
    else
      match ParseWidths(toks[2..])
      case Ok(ws) => Ok([toks[1].value] + ws)
      case Err(e) => Err(e)
  }

  /** `ParsedInput::parse`: a type name, then the width list. A successful parse
      reads back exactly the tokens it was given, with widths in source order. */
  function Parse(toks: seq<Token>): (r: Result<ParsedInput, MacroError>)
    ensures |toks| == 0 <==> r == Err(MissingTypeName)
    ensures |toks| > 0 && !toks[0].Ident? ==> r == Err(ExpectedIdent)
    ensures r.Ok? ==> toks == Render(r.value) && FitsUsize(r.value.layers)
  {
    if |toks| == 0 then Err(MissingTypeName)
    else if !toks[0].Ident? then Err(ExpectedIdent)
    else
      match ParseWidths(toks[1..])
      case Ok(ws) => Ok(ParsedInput(toks[0].name, ws))
      case Err(e) => Err(e)
  }

  /** Parsing the rendering of a width list gives the list back. */
  lemma {:induction false} ParseRenderWidths(ws: seq<nat>)
    requires FitsUsize(ws)
    ensures ParseWidths(RenderWidths(ws)) == Ok(ws)
  {
    if |ws| > 0 {
      var toks := RenderWidths(ws);
      assert toks[2..] == RenderWidths(ws[1..]);
      ParseRenderWidths(ws[1..]);
      assert [ws[0]] + ws[1..] == ws;
    }
  }

  /** A width too large for `usize` makes the width list fail to parse. */
  lemma {:induction false} ParseRenderWidthsOverflow(ws: seq<nat>, j: nat)
    requires j < |ws| && ws[j] > USIZE_MAX
    ensures ParseWidths(RenderWidths(ws)).Err?
  {
    if j > 0 {
      var toks := RenderWidths(ws);
      assert toks[2..] == RenderWidths(ws[1..]);
      ParseRenderWidthsOverflow(ws[1..], j - 1);
    }
  }

  /** Parse and Render are inverse: rendering then parsing is the identity on
      inputs whose widths fit in `usize`, and every other input is rejected. */
  lemma ParseRender(p: ParsedInput)
    ensures FitsUsize(p.layers) ==> Parse(Render(p)) == Ok(p)
    ensures !FitsUsize(p.layers) ==> Parse(Render(p)) == Err(IntegerOverflow)
  {
    var toks := Render(p);
    assert toks[1..] == RenderWidths(p.layers);
    if FitsUsize(p.layers) {
      ParseRenderWidths(p.layers);
    } else {
      var j :| 0 <= j < |p.layers| && p.layers[j] > USIZE_MAX;
      ParseRenderWidthsOverflow(p.layers, j);
      RenderedWidthsFailOnlyOnOverflow(p.layers);
    }
  }

  /** The only way a rendered width list fails to parse is an oversized width. */
  lemma {:induction false} RenderedWidthsFailOnlyOnOverflow(ws: seq<nat>)
    ensures ParseWidths(RenderWidths(ws)).Err? ==> ParseWidths(RenderWidths(ws)).error == IntegerOverflow
  {
    if |ws| > 0 {
      var toks := RenderWidths(ws);
      assert toks[2..] == RenderWidths(ws[1..]);
      RenderedWidthsFailOnlyOnOverflow(ws[1..]);
    }
  }

  // ---------------------------------------------------------------------------
  // The generated type.

  /** `PerceptronLayerType`: the type `PerceptronLayer<T, input_size, output_size>` of one field. */
  datatype LayerShape = LayerShape(inputSize: nat, outputSize: nat)

  /** `ProceedCall`: `let r_out = self.l_layer.proceed(&r_in, normalizer)`. */
  datatype ProceedCall = ProceedCall(layerIndex: nat, inputIndex: nat, outputIndex: nat)

  /** What the macro emits for one invocation: the field types `l0 ..`, the
      call chain after `r0`, the `Layer` input and output sizes, and the index
      of the variable `proceed` returns. */
  datatype Generated = Generated(
    typeName: string,
    fields: seq<LayerShape>,
    calls: seq<ProceedCall>,
    inputSize: nat,
    outputSize: nat,
    finalResult: nat)

  /** The first loop of the macro: field `l_i` has type `PerceptronLayer<T, s_i, s_{i+1}>`. */
  function Fields(ws: seq<nat>): (fs: seq<LayerShape>)
    requires |ws| >= 1
    ensures |fs| == |ws| - 1
    ensures forall i :: 0 <= i < |fs| ==> fs[i] == LayerShape(ws[i], ws[i + 1])
    ensures |fs| > 0 ==> fs[0].inputSize == ws[0] && fs[|fs| - 1].outputSize == ws[|ws| - 1]
    ensures forall i :: 0 <= i < |fs| - 1 ==> fs[i].outputSize == fs[i + 1].inputSize
  {
    seq(|ws| - 1, i requires 0 <= i < |ws| - 1 => LayerShape(ws[i], ws[i + 1]))
  }

  /** The second loop of the macro, `for i in 1..len - 1`: layer i reads `r_{i-1}` and writes `r_i`. */
  function Calls(layerCount: nat): (cs: seq<ProceedCall>)
    requires layerCount >= 1
    ensures |cs| == layerCount - 1
    ensures forall k :: 0 <= k < |cs| ==> cs[k].layerIndex == k + 1 && cs[k].outputIndex == cs[k].layerIndex
    ensures |cs| > 0 ==> cs[0].inputIndex == 0
    ensures forall k :: 0 < k < |cs| ==> cs[k].inputIndex == cs[k - 1].outputIndex
  {
    seq(layerCount - 1, k requires 0 <= k < layerCount - 1 => ProceedCall(k + 1, k, k + 1))
  }

  /** The generated code is consistent: adjacent fields agree on their shared
      width, the `Layer` sizes are the outer widths, every call consumes the
      variable the previous step defined and defines its layer's own variable,
      and `proceed` returns the last layer's variable. */
  predicate WellFormed(g: Generated) {
    && |g.fields| >= 1
    && (forall i :: 0 <= i < |g.fields| - 1 ==> g.fields[i].outputSize == g.fields[i + 1].inputSize)
    && g.inputSize == g.fields[0].inputSize
    && g.outputSize == g.fields[|g.fields| - 1].outputSize
    && |g.calls| == |g.fields| - 1
    && (forall k :: 0 <= k < |g.calls| ==>
          && g.calls[k].layerIndex == k + 1
          && g.calls[k].outputIndex == g.calls[k].layerIndex
          && g.calls[k].inputIndex == (if k == 0 then 0 else g.calls[k - 1].outputIndex))
    && g.finalResult == |g.fields| - 1
  }

  /** The body of `compose_layers` after parsing. */
  function Compose(p: ParsedInput): (r: Result<Generated, MacroError>)
    ensures r.Ok? <==> |p.layers| >= 2
    ensures r.Err? ==> r.error == TooFewLayers
    ensures r.Ok? ==> && WellFormed(r.value)
                      && r.value.typeName == p.typeName
                      && |r.value.fields| == |p.layers| - 1
                      && (forall i :: 0 <= i < |r.value.fields| ==>
                            r.value.fields[i].inputSize == p.layers[i]
                            && r.value.fields[i].outputSize == p.layers[i + 1])
                      && r.value.inputSize == p.layers[0]
                      && r.value.outputSize == p.layers[|p.layers| - 1]
  {
    var ws := p.layers;
    if |ws| < 2 then Err(TooFewLayers)
    else
      var calls := Calls(|ws| - 1);
      Ok(Generated(p.typeName, Fields(ws), calls, ws[0], ws[|ws| - 1], |calls|))
  }

  /** The whole macro: parse, then generate. */
  function ComposeLayersMacro(toks: seq<Token>): (r: Result<Generated, MacroError>)
    ensures |toks| == 0 ==> r == Err(MissingTypeName)
    ensures r.Ok? ==> && WellFormed(r.value)
                      && toks[0] == Ident(r.value.typeName)
                      && |toks| == 2 * |r.value.fields| + 3
    ensures r.Ok? ==> Parse(toks).Ok? && r.value.fields == Fields(Parse(toks).value.layers)
  {
    match Parse(toks)
    case Ok(p) => Compose(p)
    case Err(e) => Err(e)
  }

  /** An invocation `Name, s0, ..., sk` with widths that fit in `usize` is
      accepted exactly when it lists at least two widths, and the generated
      network takes `s0` inputs, gives `sk` outputs, and has field `l_i` of
      shape `(s_i, s_{i+1})`. */
  lemma MacroOnInvocation(name: string, ws: seq<nat>)
    requires FitsUsize(ws)
    ensures ComposeLayersMacro(Render(ParsedInput(name, ws))).Ok? <==> |ws| >= 2
    ensures |ws| < 2 ==> ComposeLayersMacro(Render(ParsedInput(name, ws))) == Err(TooFewLayers)
    ensures |ws| >= 2 ==>
      var g := ComposeLayersMacro(Render(ParsedInput(name, ws))).value;
      g.typeName == name && g.inputSize == ws[0] && g.outputSize == ws[|ws| - 1]
      && g.fields == Fields(ws)
  {
    ParseRender(ParsedInput(name, ws));
  }

  // ---------------------------------------------------------------------------
  // The network value and its forward pass.

  /** A value of the generated struct: field `l_i` is `layers[i]`. */
  datatype Network = Network(layers: seq<Layers.PerceptronLayer>)

  /** Each layer has the type of the generated field at its position. */
  predicate FieldsTyped(layers: seq<Layers.PerceptronLayer>, fields: seq<LayerShape>) {
    && |layers| == |fields|
    && forall i :: 0 <= i < |layers| ==>
         Layers.Shaped(layers[i], fields[i].inputSize, fields[i].outputSize)
  }

  /** The layers have the field types the macro generates for widths `ws`. */
  predicate Conforms(layers: seq<Layers.PerceptronLayer>, ws: seq<nat>) {
    |ws| >= 1 && FieldsTyped(layers, Fields(ws))
  }

  /** The generated `new(l0, l1, ...)` and `From<(L0, L1, ...)>`: field `l_i`
      is the i-th argument, and the arguments have the generated field types. */
  function New(ws: seq<nat>, args: seq<Layers.PerceptronLayer>): (net: Network)
    requires |ws| >= 2
    requires FieldsTyped(args, Fields(ws))
    ensures |net.layers| == |ws| - 1
    ensures forall i :: 0 <= i < |ws| - 1 ==> net.layers[i] == args[i]
    ensures Conforms(net.layers, ws)
  {
    Network(args)
  }

  /** The layers can run one after another on an input of width `w`: each
      layer reads the width the previous one produces. */
  predicate Chains(layers: seq<Layers.PerceptronLayer>, w: nat)
    decreases |layers|
  {
    |layers| == 0 || (Layers.Accepts(layers[0], w) && Chains(layers[1..], |layers[0].perceptrons|))
  }

  /** The width the last of the chained layers produces from an input of width `w`. */
  function OutWidth(layers: seq<Layers.PerceptronLayer>, w: nat): nat
    decreases |layers|
  {
    if |layers| == 0 then w else OutWidth(layers[1..], |layers[0].perceptrons|)
  }

  /** The forward pass as a fold: the input goes through layer 0, its output
      through layer 1, and so on; no layers at all is the identity. */
  function Forward(layers: seq<Layers.PerceptronLayer>, x: seq<int>, normalizer: int -> int): (r: seq<int>)
    requires Chains(layers, |x|)
    ensures |r| == OutWidth(layers, |x|)
    decreases |layers|
  {
    if |layers| == 0 then x
    else Forward(layers[1..], Layers.Apply(layers[0], x, normalizer), normalizer)
  }

  /** Layers with the generated field types chain from the first width to the last. */
  lemma {:induction false} ConformsChains(layers: seq<Layers.PerceptronLayer>, ws: seq<nat>)
    requires Conforms(layers, ws)
    ensures Chains(layers, ws[0])
    ensures OutWidth(layers, ws[0]) == ws[|ws| - 1]
    decreases |layers|
  {
    if |layers| > 0 {
      assert Layers.Shaped(layers[0], ws[0], ws[1]);
      assert Conforms(layers[1..], ws[1..]) by {
        forall i | 0 <= i < |layers| - 1
          ensures Layers.Shaped(layers[1..][i], ws[1..][i], ws[1..][i + 1])
        {
          assert Layers.Shaped(layers[i + 1], ws[i + 1], ws[i + 2]);
        }
      }
      ConformsChains(layers[1..], ws[1..]);
    }
  }

  /** A prefix of a chain chains from the same width, and the rest chains from
      the width that prefix produces. */
  lemma {:induction false} ChainsSplit(layers: seq<Layers.PerceptronLayer>, w: nat, k: nat)
    requires Chains(layers, w)
    requires k <= |layers|
    ensures Chains(layers[..k], w)
    ensures Chains(layers[k..], OutWidth(layers[..k], w))
    decreases k
  {
    if k == 0 {
      assert layers[..0] == [] && layers[0..] == layers;
    } else {
      var rest := layers[1..];
      ChainsSplit(rest, |layers[0].perceptrons|, k - 1);
      assert layers[..k][1..] == rest[..k - 1];
      assert rest[k - 1..] == layers[k..];
    }
  }

  /** Composition splits at any layer: running the first k layers and feeding
      the result to the remaining ones is the whole forward pass. */
  lemma {:induction false} ForwardSplit(layers: seq<Layers.PerceptronLayer>, x: seq<int>, normalizer: int -> int, k: nat)
    requires Chains(layers, |x|)
    requires k <= |layers|
    ensures Chains(layers[..k], |x|)
    ensures Chains(layers[k..], OutWidth(layers[..k], |x|))
    ensures Forward(layers, x, normalizer)
         == Forward(layers[k..], Forward(layers[..k], x, normalizer), normalizer)
    decreases k
  {
    ChainsSplit(layers, |x|, k);
    if k == 0 {
      assert layers[..0] == [] && layers[0..] == layers;
    } else {
      var rest := layers[1..];
      var y := Layers.Apply(layers[0], x, normalizer);
      ForwardSplit(rest, y, normalizer, k - 1);
      assert layers[..k][1..] == rest[..k - 1];
      assert rest[k - 1..] == layers[k..];
    }
  }

  /** Layers that have the types of a chain of fields run one after another
      from the first field's input width and produce the last field's output width. */
  lemma {:induction false} FieldsChain(layers: seq<Layers.PerceptronLayer>, fields: seq<LayerShape>)
    requires |fields| >= 1
    requires forall i :: 0 <= i < |fields| - 1 ==> fields[i].outputSize == fields[i + 1].inputSize
    requires FieldsTyped(layers, fields)
    ensures Chains(layers, fields[0].inputSize)
    ensures OutWidth(layers, fields[0].inputSize) == fields[|fields| - 1].outputSize
    decreases |layers|
  {
    assert Layers.Shaped(layers[0], fields[0].inputSize, fields[0].outputSize);
    if |layers| > 1 {
      assert FieldsTyped(layers[1..], fields[1..]) by {
        forall i | 0 <= i < |layers| - 1
          ensures Layers.Shaped(layers[1..][i], fields[1..][i].inputSize, fields[1..][i].outputSize)
        {
          assert Layers.Shaped(layers[i + 1], fields[i + 1].inputSize, fields[i + 1].outputSize);
        }
      }
      FieldsChain(layers[1..], fields[1..]);
    } else {
      assert layers[1..] == [];
    }
  }

  /** The generated `Layer::proceed` of generated code `g`, on a network whose
      fields have `g`'s field types: `r0 = l0(input)`, then each call
      `r_out = l_layer(r_in)` of `g` in order, returning `r_final`. It equals
      the forward pass through all layers and has `g`'s output size.
      `Compose` guarantees that the code it generates is well formed. */
  method Proceed(g: Generated, net: Network, x: seq<int>, normalizer: int -> int) returns (r: seq<int>)
    requires WellFormed(g)
    requires FieldsTyped(net.layers, g.fields)
    requires |x| == g.inputSize
    ensures |r| == g.outputSize
    ensures Chains(net.layers, |x|) && r == Forward(net.layers, x, normalizer)
  {
    var layers := net.layers;
    FieldsChain(layers, g.fields);
    var r0 := Layers.Proceed(layers[0], x, normalizer);
    var env: map<nat, seq<int>> := map[0 := r0];
    for k := 0 to |g.calls|
      invariant k in env && Chains(layers[k + 1..], |env[k]|)
      invariant Forward(layers, x, normalizer) == Forward(layers[k + 1..], env[k], normalizer)
    {
      var c := g.calls[k];
      assert c.layerIndex == k + 1 && c.outputIndex == k + 1;
      if k > 0 {
        assert g.calls[k - 1].layerIndex == k;
        assert g.calls[k - 1].outputIndex == k;
      }
      assert c.inputIndex == k;
      assert layers[k + 1..][1..] == layers[k + 2..];
      var rc := Layers.Proceed(layers[c.layerIndex], env[c.inputIndex], normalizer);
      env := env[c.outputIndex := rc];
    }
    assert layers[|layers|..] == [];
    r := env[g.finalResult];
  }

  /** The code the macro generates for an invocation, with a network built by
      its generated `new`, meets what `Proceed` asks for. */
  lemma GeneratedProceedApplies(p: ParsedInput, g: Generated, args: seq<Layers.PerceptronLayer>)
    requires Compose(p) == Ok(g)
    requires FieldsTyped(args, Fields(p.layers))
    ensures WellFormed(g)
    ensures FieldsTyped(New(p.layers, args).layers, g.fields)
    ensures g.inputSize == p.layers[0] && g.outputSize == p.layers[|p.layers| - 1]
  {
    assert g.fields == Fields(p.layers);
  }

  /** With two widths the network is its single layer: `proceed` is `l0.proceed(input)`. */
  lemma ForwardSingle(l: Layers.PerceptronLayer, x: seq<int>, normalizer: int -> int)
    requires Layers.Accepts(l, |x|)
    ensures Chains([l], |x|)
    ensures Forward([l], x, normalizer) == Layers.Apply(l, x, normalizer)
  {
    assert [l][1..] == [];
  }

  // ---------------------------------------------------------------------------
  // The `compose_layers!(Net, 4, 3, 2, 1)` network of the repository's
  // access_weights test, with integer weights.

  function ExampleNet(): (net: Network)
    ensures Conforms(net.layers, [4, 3, 2, 1])
  {
    var l0 := Layers.FromPerceptrons([
      P.FromPair(([0, 1, 2, 3], 12), 4),
      P.FromPair(([4, 5, 6, 7], 13), 4),
      P.FromPair(([8, 9, 10, 11], 13), 4)], 4, 3);
    var l1 := Layers.FromPerceptrons([
      P.FromPair(([14, 15, 16], 20), 3),
      P.FromPair(([17, 18, 19], 21), 3)], 3, 2);
    var l2 := Layers.FromPerceptrons([P.FromPair(([22, 23], 24), 2)], 2, 1);
    New([4, 3, 2, 1], [l0, l1, l2])
  }

  /** `net.l0.perceptrons()[0].weights()[0] == 0` and `*net.l0.perceptrons()[0].bias() == 12`. */
  lemma ExampleNetAccess()
    ensures P.Weights(Layers.Perceptrons(ExampleNet().layers[0])[0])[0] == 0
    ensures P.Bias(Layers.Perceptrons(ExampleNet().layers[0])[0]) == 12
  {
  }
}
