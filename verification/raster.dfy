/** The pixel expansion done by `draw`: a flat run of 784 gray intensities
    becomes the 28x28 RGBA byte buffer of an `ImageData`. */
module Raster {
  import opened Uint8Clamp

  const Width: nat := 28
  const Height: nat := 28
  const Pixels: nat := Width * Height
  /** Bytes per pixel: red, green, blue, alpha. */
  const Channels: nat := 4
  const AlphaChannel: nat := 3
  const BufferSize: nat := Pixels * Channels

  /** Gray level stored for pixel `i`. Reading past the end of `data` yields
      `undefined`, whose product with 255 is NaN, which the clamped store
      turns into 0. */
  function Gray(data: seq<real>, i: nat): (g: byte)
    ensures i < |data| ==> g == ToByte(data[i])
    ensures |data| <= i ==> g == 0
  {
    var product := if i < |data| then Finite(data[i] * 255.0) else NaN;
    ToUint8ClampNumber(product)
  }

  /** Reference layout: byte `k` of the buffer is channel `k % 4` of pixel
      `k / 4`; the colour channels carry the gray level, alpha is opaque. */
  function ExpectedByte(data: seq<real>, k: nat): byte
  {
    if k % Channels == AlphaChannel then MaxByte else Gray(data, k / Channels)
  }

  /** Byte `4i + c` belongs to pixel `i`, channel `c`. */
  lemma SplitIndex(i: nat, c: nat)
    requires c < Channels
    ensures (i * Channels + c) / Channels == i
    ensures (i * Channels + c) % Channels == c
  {
  }

  /** One store into the buffer. */
  datatype Write = Write(index: nat, value: byte)

  /** The four stores of loop iteration `i`, at `j = i * 4`. */
  function PixelWrites(data: seq<real>, i: nat): seq<Write>
  {
    var j := i * Channels;
    var g := Gray(data, i);
    [Write(j, g), Write(j + 1, g), Write(j + 2, g), Write(j + 3, MaxByte)]
  }

  /** The stores done by the first `n` iterations of the loop, in order. Store
      number `k` goes to byte `k` and carries that byte's reference value, so
      the stores never revisit or skip an index. */
  function DrawWrites(data: seq<real>, n: nat): (ws: seq<Write>)
    ensures |ws| == n * Channels
    ensures forall k :: 0 <= k < |ws| ==> ws[k].index == k && ws[k].value == ExpectedByte(data, k)
  {
    if n == 0 then []
    else
      var prev := DrawWrites(data, n - 1);
      var last := PixelWrites(data, n - 1);
      SplitIndex(n - 1, 0);
      SplitIndex(n - 1, 1);
      SplitIndex(n - 1, 2);
      SplitIndex(n - 1, 3);
      prev + last
  }

  /** The iterations run in order: the first `m` iterations' stores are a
      prefix of the first `n` iterations' stores. */
  lemma {:induction false} DrawWritesPrefix(data: seq<real>, m: nat, n: nat)
    requires m <= n
    ensures DrawWrites(data, m) == DrawWrites(data, n)[..m * Channels]
  {
    if m < n {
      DrawWritesPrefix(data, m, n - 1);
      var prev := DrawWrites(data, n - 1);
      assert DrawWrites(data, n) == prev + PixelWrites(data, n - 1);
      assert (prev + PixelWrites(data, n - 1))[..m * Channels] == prev[..m * Channels];
    }
  }

  /** Pixel `i` is written to bytes `4i .. 4i+3` and to nothing else: in the
      full run of stores, those four positions are exactly iteration `i`'s. */
  lemma PixelWritesInPlace(data: seq<real>, i: nat)
    requires i < Pixels
    ensures DrawWrites(data, Pixels)[i * Channels .. (i + 1) * Channels] == PixelWrites(data, i)
  {
    DrawWritesPrefix(data, i + 1, Pixels);
    assert DrawWrites(data, i + 1) == DrawWrites(data, i) + PixelWrites(data, i);
  }

  /** The full run of stores touches every byte of the buffer exactly once
      and no index outside it. */
  lemma DrawWritesCoverBufferOnce(data: seq<real>)
    ensures var ws := DrawWrites(data, Pixels);
      && |ws| == BufferSize
      && (forall k :: 0 <= k < |ws| ==> ws[k].index < BufferSize)
      && (forall p :: 0 <= p < BufferSize ==> ws[p].index == p)
      && (forall k, l :: 0 <= k < l < |ws| ==> ws[k].index != ws[l].index)
  {
  }

  /** Performs the stores `ws` on `buf`, first to last. */
  function Apply(buf: seq<byte>, ws: seq<Write>): (r: seq<byte>)
    requires forall k :: 0 <= k < |ws| ==> ws[k].index < |buf|
    ensures |r| == |buf|
  {
    if ws == [] then buf
    else
      var last := ws[|ws| - 1];
      Apply(buf, ws[..|ws| - 1])[last.index := last.value]
  }

  /** Stores to indices `0, 1, 2, ...` in turn leave store `p`'s value at byte
      `p` and the rest of the buffer untouched. */
  lemma {:induction false} ApplyInOrder(buf: seq<byte>, ws: seq<Write>)
    requires |ws| <= |buf|
    requires forall k :: 0 <= k < |ws| ==> ws[k].index == k
    ensures forall p :: 0 <= p < |buf| ==>
      Apply(buf, ws)[p] == (if p < |ws| then ws[p].value else buf[p])
  {
    if ws != [] {
      ApplyInOrder(buf, ws[..|ws| - 1]);
    }
  }

  /** A freshly constructed `ImageData`: every byte is 0. */
  function Blank(): (buf: seq<byte>)
    ensures |buf| == BufferSize
  {
    seq(BufferSize, _ => 0)
  }

  /** `draw`: the buffer after all 784 iterations of the loop. */
  function Draw(data: seq<real>): (buf: seq<byte>)
    ensures |buf| == BufferSize
    ensures forall k :: 0 <= k < BufferSize ==> buf[k] == ExpectedByte(data, k)
  {
    var ws := DrawWrites(data, Pixels);
    ApplyInOrder(Blank(), ws);
    Apply(Blank(), ws)
  }

  /** Each pixel's four bytes are gray, gray, gray, opaque. */
  lemma DrawPixel(data: seq<real>, i: nat)
    requires i < Pixels
    ensures var g := Gray(data, i);
      Draw(data)[i * Channels .. (i + 1) * Channels] == [g, g, g, MaxByte]
  {
    var buf := Draw(data);
    var j := i * Channels;
    SplitIndex(i, 0);
    SplitIndex(i, 1);
    SplitIndex(i, 2);
    SplitIndex(i, 3);
    assert buf[j..j + Channels] == [buf[j], buf[j + 1], buf[j + 2], buf[j + 3]];
  }

  /** Whatever the input, every alpha byte is 255. */
  lemma DrawAlphaOpaque(data: seq<real>)
    ensures forall i :: 0 <= i < Pixels ==> Draw(data)[i * Channels + AlphaChannel] == MaxByte
  {
    forall i | 0 <= i < Pixels
      ensures Draw(data)[i * Channels + AlphaChannel] == MaxByte
    {
      DrawPixel(data, i);
    }
  }

  /** Red, green and blue of pixel `i` all hold the converted value of
      `data[i]`. */
  lemma DrawGrayscale(data: seq<real>, i: nat)
    requires i < Pixels && i < |data|
    ensures var buf, j := Draw(data), i * Channels;
      buf[j] == buf[j + 1] == buf[j + 2] == ToByte(data[i])
  {
    DrawPixel(data, i);
  }

  /** An all-zero image draws every colour byte as 0. */
  lemma DrawAllZero(data: seq<real>)
    requires forall i :: 0 <= i < |data| ==> data[i] == 0.0
    ensures forall k :: 0 <= k < BufferSize && k % Channels != AlphaChannel ==> Draw(data)[k] == 0
  {
  }

  /** An all-one image of at least 784 values draws every colour byte as 255. */
  lemma DrawAllOne(data: seq<real>)
    requires Pixels <= |data|
    requires forall i :: 0 <= i < |data| ==> data[i] == 1.0
    ensures forall k :: 0 <= k < BufferSize && k % Channels != AlphaChannel ==> Draw(data)[k] == MaxByte
  {
  }

  /** `draw` reads only the first 784 values: inputs that agree there give
      byte-identical buffers. */
  lemma DrawReadsOnlyPrefix(a: seq<real>, b: seq<real>)
    requires Pixels <= |a| && Pixels <= |b|
    requires a[..Pixels] == b[..Pixels]
    ensures Draw(a) == Draw(b)
  {
    forall k | 0 <= k < BufferSize
      ensures Draw(a)[k] == Draw(b)[k]
    {
      assert k / Channels < Pixels;
      assert a[k / Channels] == a[..Pixels][k / Channels];
      assert b[k / Channels] == b[..Pixels][k / Channels];
    }
  }

  /** Values past index 783 are ignored. */
  lemma DrawIgnoresTail(data: seq<real>, extra: seq<real>)
    requires Pixels <= |data|
    ensures Draw(data + extra) == Draw(data)
  {
    assert (data + extra)[..Pixels] == data[..Pixels];
    DrawReadsOnlyPrefix(data + extra, data);
  }
}
