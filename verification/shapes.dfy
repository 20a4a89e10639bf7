/** Shape bookkeeping of the tensor calls the demonstrator makes: `reshape`
    (with an optional inferred `-1` extent), a slice of whole rows of a
    rank-2 tensor, and `flatten`. Only shapes and the row-major order of the
    values are modelled; the numbers themselves are carried along unchanged. */
module Shapes {
  import opened Results

  /** A tensor: its shape and its values in row-major order. */
  datatype Tensor = Tensor(shape: seq<nat>, values: seq<real>)

  /** One entry of a requested shape: a fixed extent, or `-1`, to be inferred. */
  datatype Dim = Fixed(n: nat) | Inferred

  /** Number of elements of a tensor of the given shape. */
  function Product(dims: seq<nat>): nat
  {
    if dims == [] then 1 else dims[0] * Product(dims[1..])
  }

  /** A tensor holds exactly as many values as its shape has elements. */
  predicate Valid(t: Tensor)
  {
    |t.values| == Product(t.shape)
  }

  /** The element count of `[d] + rest` is `d` times that of `rest`. */
  lemma ProductCons(d: nat, rest: seq<nat>)
    ensures Product([d] + rest) == d * Product(rest)
  {
    assert ([d] + rest)[1..] == rest;
  }

  /** A rank-2 shape `[rows, w]` has `rows * w` elements. */
  lemma ProductPair(rows: nat, w: nat)
    ensures Product([rows, w]) == rows * w
  {
    ProductCons(rows, [w]);
    ProductCons(w, []);
  }

  /** How many entries of `spec` ask for inference. */
  function CountInferred(spec: seq<Dim>): nat
  {
    if spec == [] then 0
    else (if spec[0].Inferred? then 1 else 0) + CountInferred(spec[1..])
  }

  /** Product of the fixed extents of `spec`. */
  function FixedProduct(spec: seq<Dim>): nat
  {
    if spec == [] then 1
    else (if spec[0].Fixed? then spec[0].n else 1) * FixedProduct(spec[1..])
  }

  /** The requested shape that fixes every extent to `dims`. */
  function AllFixed(dims: seq<nat>): (spec: seq<Dim>)
    ensures |spec| == |dims|
  {
    if dims == [] then [] else [Fixed(dims[0])] + AllFixed(dims[1..])
  }

  /** How the bookkeeping functions see a requested shape one entry longer. */
  lemma ConsDim(d: Dim, rest: seq<Dim>, v: nat)
    ensures CountInferred([d] + rest) == (if d.Inferred? then 1 else 0) + CountInferred(rest)
    ensures FixedProduct([d] + rest) == (if d.Fixed? then d.n else 1) * FixedProduct(rest)
    ensures Fill([d] + rest, v) == [if d.Fixed? then d.n else v] + Fill(rest, v)
  {
    assert ([d] + rest)[1..] == rest;
  }

  /** `shape` is an instance of `spec`: same rank, same fixed extents. */
  predicate Matches(spec: seq<Dim>, shape: seq<nat>)
  {
    && |shape| == |spec|
    && forall i :: 0 <= i < |spec| ==> spec[i].Fixed? ==> shape[i] == spec[i].n
  }

  /** `spec` with every inferred entry replaced by `n`. */
  function Fill(spec: seq<Dim>, n: nat): (shape: seq<nat>)
    ensures Matches(spec, shape)
    ensures forall i :: 0 <= i < |spec| ==> spec[i].Inferred? ==> shape[i] == n
  {
    if spec == [] then []
    else [if spec[0].Fixed? then spec[0].n else n] + Fill(spec[1..], n)
  }

  /** The extent `shape` puts where `spec` asks for inference (0 when it does not). */
  function InferredExtent(spec: seq<Dim>, shape: seq<nat>): nat
    requires |shape| == |spec|
  {
    if spec == [] then 0
    else if spec[0].Inferred? then shape[0]
    else InferredExtent(spec[1..], shape[1..])
  }

  /** Filling the inferred entry with `n` multiplies the fixed extents by `n`. */
  lemma {:induction false} FillProduct(spec: seq<Dim>, n: nat)
    requires CountInferred(spec) <= 1
    ensures Product(Fill(spec, n)) == FixedProduct(spec) * (if CountInferred(spec) == 1 then n else 1)
  {
    if spec != [] {
      FillProduct(spec[1..], n);
      assert Fill(spec, n)[1..] == Fill(spec[1..], n);
    }
  }

  /** With at most one inferred entry, an instance of `spec` is determined by
      the extent it puts there. */
  lemma {:induction false} MatchesIsFill(spec: seq<Dim>, shape: seq<nat>)
    requires Matches(spec, shape) && CountInferred(spec) <= 1
    ensures shape == Fill(spec, InferredExtent(spec, shape))
  {
    if spec != [] {
      assert Matches(spec[1..], shape[1..]);
      MatchesIsFill(spec[1..], shape[1..]);
      if spec[0].Inferred? {
        assert CountInferred(spec[1..]) == 0;
        FillIgnoresExtent(spec[1..], InferredExtent(spec[1..], shape[1..]), shape[0]);
      }
    }
  }

  /** Without an inferred entry the filler value is irrelevant. */
  lemma {:induction false} FillIgnoresExtent(spec: seq<Dim>, m: nat, n: nat)
    requires CountInferred(spec) == 0
    ensures Fill(spec, m) == Fill(spec, n)
  {
    if spec != [] {
      FillIgnoresExtent(spec[1..], m, n);
    }
  }

  /** The shape `reshape(spec)` gives a tensor of `size` elements: at most one
      `-1`, whose extent is the size divided by the fixed extents; the result
      must hold exactly `size` elements. */
  function InferShape(spec: seq<Dim>, size: nat): (r: Result<seq<nat>>)
    ensures r.Ok? ==> Matches(spec, r.value) && Product(r.value) == size
    ensures CountInferred(spec) > 1 ==> r.Err?
  {
    var fixed := FixedProduct(spec);
    if CountInferred(spec) > 1 then Err(ShapeMismatch)
    else if CountInferred(spec) == 0 then
      FillProduct(spec, 0);
      if fixed == size then Ok(Fill(spec, 0)) else Err(ShapeMismatch)
    else if fixed == 0 || size % fixed != 0 then Err(ShapeMismatch)
    else
      FillProduct(spec, size / fixed);
      Ok(Fill(spec, size / fixed))
  }

  lemma DivExact(a: nat, b: nat)
    requires 0 < b
    ensures (b * a) % b == 0 && (b * a) / b == a
  {
    var q, r := (b * a) / b, (b * a) % b;
    assert b * (a - q) == r by {
      assert b * a == b * q + r;
      assert b * (a - q) == b * a - b * q;
    }
    SmallMultiple(b, a - q, r);
  }

  /** A multiple of `b` that lies in `[0, b)` is zero times `b`. */
  lemma SmallMultiple(b: nat, d: int, r: int)
    requires 0 <= r < b && b * d == r
    ensures d == 0
  {
  }

  /** Completeness: whenever a unique instance of `spec` with `size` elements
      exists, `InferShape` finds it. */
  lemma InferShapeComplete(spec: seq<Dim>, size: nat, shape: seq<nat>)
    requires Matches(spec, shape) && Product(shape) == size
    requires CountInferred(spec) <= 1
    requires CountInferred(spec) == 1 ==> FixedProduct(spec) > 0
    ensures InferShape(spec, size) == Ok(shape)
  {
    var v := InferredExtent(spec, shape);
    MatchesIsFill(spec, shape);
    FillProduct(spec, v);
    if CountInferred(spec) == 0 {
      FillIgnoresExtent(spec, 0, v);
    } else {
      var fixed := FixedProduct(spec);
      assert size == fixed * v;
      DivExact(v, fixed);
    }
  }

  /** `t.reshape(spec)`: same values, new shape; refused when no shape fits. */
  function Reshape(t: Tensor, spec: seq<Dim>): (r: Result<Tensor>)
    ensures r.Ok? ==> Valid(r.value) && r.value.values == t.values && Matches(spec, r.value.shape)
    ensures r.Ok? <==> InferShape(spec, |t.values|).Ok?
  {
    match InferShape(spec, |t.values|)
    case Ok(shape) => Ok(Tensor(shape, t.values))
    case Err(e) => Err(e)
  }

  /** `t.flatten()`: the same values as a rank-1 tensor. */
  function Flatten(t: Tensor): (r: Tensor)
    ensures Valid(r) && |r.shape| == 1
    ensures r.values == t.values
  {
    Tensor([|t.values|], t.values)
  }

  lemma MulMono(a: nat, b: nat, w: nat)
    requires a <= b
    ensures a * w <= b * w
  {
  }

  /** Rows `begin .. begin + count - 1` of a `rows x w` layout occupy the
      `count * w` positions from `begin * w` on, inside the tensor. */
  lemma RowBounds(rows: nat, w: nat, begin: nat, count: nat)
    requires begin + count <= rows
    ensures begin * w <= (begin + count) * w <= rows * w
    ensures (begin + count) * w - begin * w == count * w
  {
    MulMono(begin + count, rows, w);
    MulMono(begin, begin + count, w);
  }

  /** `t.slice([begin, 0], [count, w])` on a rank-2 tensor of width `w`:
      whole rows `begin .. begin + count - 1`, refused when they run past
      the last row. */
  function SliceRows(t: Tensor, begin: nat, count: nat): (r: Result<Tensor>)
    requires |t.shape| == 2 && Valid(t)
    ensures r.Ok? <==> begin + count <= t.shape[0]
    ensures r.Ok? ==> Valid(r.value) && r.value.shape == [count, t.shape[1]]
    ensures r.Ok? ==> begin * t.shape[1] <= (begin + count) * t.shape[1] <= |t.values|
    ensures r.Ok? ==> r.value.values == t.values[begin * t.shape[1] .. (begin + count) * t.shape[1]]
  {
    var rows, w := t.shape[0], t.shape[1];
    if begin + count > rows then Err(ShapeMismatch)
    else
      assert t.shape == [rows, w];
      ProductPair(rows, w);
      ProductPair(count, w);
      RowBounds(rows, w, begin, count);
      var lo, hi := begin * w, (begin + count) * w;
      Ok(Tensor([count, w], t.values[lo..hi]))
  }

  /** Row 0, sliced and flattened, is the first `w` values of the tensor in
      order. */
  lemma FirstRowFlattened(t: Tensor)
    requires |t.shape| == 2 && Valid(t) && 1 <= t.shape[0]
    ensures SliceRows(t, 0, 1).Ok?
    ensures t.shape[1] <= |t.values|
    ensures Flatten(SliceRows(t, 0, 1).value).values == t.values[..t.shape[1]]
  {
    assert t.shape == [t.shape[0], t.shape[1]];
    ProductPair(t.shape[0], t.shape[1]);
    MulMono(1, t.shape[0], t.shape[1]);
    var r := SliceRows(t, 0, 1).value;
    ProductPair(1, t.shape[1]);
    assert |r.values| == t.shape[1];
  }

  /** Every extent fixed: no inference, and the shape is `dims` itself. */
  lemma {:induction false} AllFixedShape(dims: seq<nat>, v: nat)
    ensures CountInferred(AllFixed(dims)) == 0
    ensures FixedProduct(AllFixed(dims)) == Product(dims)
    ensures Fill(AllFixed(dims), v) == dims
  {
    if dims != [] {
      AllFixedShape(dims[1..], v);
      ConsDim(Fixed(dims[0]), AllFixed(dims[1..]), v);
      ProductCons(dims[0], dims[1..]);
      assert [dims[0]] + dims[1..] == dims;
    }
  }

  /** A reshape to fixed extents succeeds exactly when they hold as many
      elements as the tensor, and then the shape is those extents. */
  lemma ReshapeToFixed(t: Tensor, dims: seq<nat>)
    ensures Reshape(t, AllFixed(dims)).Ok? <==> Product(dims) == |t.values|
    ensures Reshape(t, AllFixed(dims)).Ok? ==> Reshape(t, AllFixed(dims)).value == Tensor(dims, t.values)
  {
    AllFixedShape(dims, 0);
  }

  /** A reshape to `[-1] + dims` succeeds exactly when the tensor's size is a
      multiple of the fixed extents' product (which must not be 0), and the
      leading extent is the quotient. */
  lemma ReshapeInferLeading(t: Tensor, dims: seq<nat>)
    ensures var r := Reshape(t, [Inferred] + AllFixed(dims));
      && (r.Ok? <==> Product(dims) > 0 && |t.values| % Product(dims) == 0)
      && (r.Ok? ==> r.value == Tensor([|t.values| / Product(dims)] + dims, t.values))
  {
    var v := if Product(dims) == 0 then 0 else |t.values| / Product(dims);
    AllFixedShape(dims, v);
    ConsDim(Inferred, AllFixed(dims), v);
  }

  /** Reshaping a flat batch of `b` rows of 784 values to `[b, 28, 28, 1]` and
      flattening back returns the original values; reshaping back to `[b, 784]`
      returns the original tensor. */
  lemma ReshapeRoundTrip(t: Tensor, b: nat)
    requires Valid(t) && t.shape == [b, 784]
    ensures Reshape(t, AllFixed([b, 28, 28, 1])).Ok?
    ensures var u := Reshape(t, AllFixed([b, 28, 28, 1])).value;
      && u.shape == [b, 28, 28, 1]
      && Flatten(u).values == t.values
      && Reshape(u, AllFixed([b, 784])) == Ok(t)
  {
    ProductPair(b, 784);
    ProductCons(b, [28, 28, 1]);
    ReshapeToFixed(t, [b, 28, 28, 1]);
    var u := Reshape(t, AllFixed([b, 28, 28, 1])).value;
    ReshapeToFixed(u, [b, 784]);
  }
}
