/**
 flip_image_vertical from 04/main.c (3 bytes per pixel) and 02/main.c (4
 bytes per pixel): the decoded image is a flat byte buffer of `height` rows of
 `width * bytesPerPixel` bytes each, and the flip reverses the order of the
 rows, copying each row whole into a fresh buffer that is then copied back.

 The buffer is modelled as a sequence of bytes; the reference definition
 splits it into rows, reverses the list of rows and joins them again.
 */
module Image {

  type byte = bv8

  /** The largest value of a C `unsigned int` plus one. */
  const UINT_LIMIT: int := 0x1_0000_0000

  /** Where byte `col` of row `row` sits in a buffer of rows of `stride` bytes. */
  function Offset(row: nat, col: nat, stride: nat): nat
  {
    row * stride + col
  }

  lemma MulSucc(a: nat, s: nat)
    ensures (a + 1) * s == a * s + s
  {
  }

  lemma MulRegroup(w: nat, h: nat, b: nat)
    ensures w * h * b == h * (w * b)
  {
  }

  /** Every row has exactly `stride` bytes. */
  predicate IsGrid(rows: seq<seq<byte>>, stride: nat)
  {
    forall r :: 0 <= r < |rows| ==> |rows[r]| == stride
  }

  /** The rows laid end to end. */
  function Concat(rows: seq<seq<byte>>): seq<byte>
  {
    if |rows| == 0 then [] else rows[0] + Concat(rows[1..])
  }

  function Reverse<T>(xs: seq<T>): (r: seq<T>)
    ensures |r| == |xs|
  {
    seq(|xs|, i requires 0 <= i < |xs| => xs[|xs| - 1 - i])
  }

  lemma ReverseReverse<T>(xs: seq<T>)
    ensures Reverse(Reverse(xs)) == xs
  {
  }

  /** Reversing a list with one more element puts that element in front. */
  lemma ReverseSnoc<T>(xs: seq<T>, x: T)
    ensures Reverse(xs + [x]) == [x] + Reverse(xs)
  {
  }

  lemma ConcatCons(row: seq<byte>, rows: seq<seq<byte>>)
    ensures Concat([row] + rows) == row + Concat(rows)
  {
    assert ([row] + rows)[1..] == rows;
  }

  /** A buffer of `height` rows of `stride` bytes, cut into its rows. */
  function SplitRows(data: seq<byte>, stride: nat, height: nat): (rows: seq<seq<byte>>)
    requires |data| == height * stride
    ensures |rows| == height
    ensures IsGrid(rows, stride)
    ensures Concat(rows) == data
  {
    if height == 0 then []
    else
      MulSucc(height - 1, stride);
      var rest := SplitRows(data[stride..], stride, height - 1);
      ConcatCons(data[..stride], rest);
      [data[..stride]] + rest
  }

  /** The rows of a grid, laid end to end, add up to rows times stride bytes. */
  lemma {:induction false} ConcatLength(rows: seq<seq<byte>>, stride: nat)
    requires IsGrid(rows, stride)
    ensures |Concat(rows)| == |rows| * stride
  {
    if |rows| > 0 {
      ConcatLength(rows[1..], stride);
      MulSucc(|rows| - 1, stride);
    }
  }

  /** Byte c of row r of a grid sits at offset r * stride + c of the joined buffer. */
  lemma {:induction false} ConcatIndex(rows: seq<seq<byte>>, stride: nat, r: nat, c: nat)
    requires IsGrid(rows, stride)
    requires r < |rows| && c < stride
    ensures r * stride + c < |Concat(rows)|
    ensures Concat(rows)[r * stride + c] == rows[r][c]
  {
    ConcatLength(rows, stride);
    if r > 0 {
      ConcatLength(rows[1..], stride);
      ConcatIndex(rows[1..], stride, r - 1, c);
      MulSucc(r - 1, stride);
      assert Concat(rows) == rows[0] + Concat(rows[1..]);
    }
  }

  /** Cutting a joined grid into rows of the same stride gives the grid back. */
  lemma {:induction false} SplitConcat(rows: seq<seq<byte>>, stride: nat)
    requires IsGrid(rows, stride)
    ensures |Concat(rows)| == |rows| * stride
    ensures SplitRows(Concat(rows), stride, |rows|) == rows
  {
    ConcatLength(rows, stride);
    if |rows| > 0 {
      SplitConcat(rows[1..], stride);
      var data := Concat(rows);
      assert data == rows[0] + Concat(rows[1..]);
      assert data[..stride] == rows[0];
      assert data[stride..] == Concat(rows[1..]);
    }
  }

  /** Joining splits at any row boundary. */
  lemma {:induction false} ConcatSplit(rows: seq<seq<byte>>, i: nat)
    requires i <= |rows|
    ensures Concat(rows) == Concat(rows[..i]) + Concat(rows[i..])
  {
    if i == 0 {
      assert rows[..0] == [] && rows[0..] == rows;
    } else {
      ConcatSplit(rows[1..], i - 1);
      assert rows[1..][..i - 1] == rows[..i][1..];
      assert rows[1..][i - 1..] == rows[i..];
    }
  }

  /** Row i of a buffer is the `stride` bytes starting at i * stride. */
  lemma RowIsSlice(data: seq<byte>, stride: nat, height: nat, i: nat)
    requires |data| == height * stride
    requires i < height
    ensures i * stride + stride <= |data|
    ensures SplitRows(data, stride, height)[i] == data[i * stride .. i * stride + stride]
  {
    var rows := SplitRows(data, stride, height);
    ConcatSplit(rows, i);
    assert IsGrid(rows[..i], stride);
    ConcatLength(rows[..i], stride);
    NextRow(data, i * stride, rows, stride, i);
  }

  /** The reference flip: the same rows in reverse order. */
  function Flipped(data: seq<byte>, stride: nat, height: nat): seq<byte>
    requires |data| == height * stride
  {
    Concat(Reverse(SplitRows(data, stride, height)))
  }

  /** The flip keeps the buffer's length and cuts into the input's rows, reversed. */
  lemma FlippedRows(data: seq<byte>, stride: nat, height: nat)
    requires |data| == height * stride
    ensures |Flipped(data, stride, height)| == |data|
    ensures SplitRows(Flipped(data, stride, height), stride, height)
         == Reverse(SplitRows(data, stride, height))
  {
    var rows := Reverse(SplitRows(data, stride, height));
    assert IsGrid(rows, stride);
    SplitConcat(rows, stride);
  }

  /** Byte k of row i of `data` is byte k of row height - 1 - i of `out`. */
  predicate MirroredByte(out: seq<byte>, data: seq<byte>, stride: nat, height: nat, i: nat, k: nat)
    requires i < height
  {
    && Offset(height - 1 - i, k, stride) < |out|
    && Offset(i, k, stride) < |data|
    && out[Offset(height - 1 - i, k, stride)] == data[Offset(i, k, stride)]
  }

  /**
   The index relation of the flip: byte k of input row i lands as byte k of
   output row height - 1 - i.
   */
  lemma FlippedIndex(data: seq<byte>, stride: nat, height: nat, i: nat, k: nat)
    requires |data| == height * stride
    requires i < height && k < stride
    ensures MirroredByte(Flipped(data, stride, height), data, stride, height, i, k)
  {
    var rows := SplitRows(data, stride, height);
    ConcatIndex(rows, stride, i, k);
    ConcatIndex(Reverse(rows), stride, height - 1 - i, k);
    FlippedRows(data, stride, height);
  }

  /** Flipping twice restores the buffer. */
  lemma FlipInvolution(data: seq<byte>, stride: nat, height: nat)
    requires |data| == height * stride
    ensures |Flipped(data, stride, height)| == height * stride
    ensures Flipped(Flipped(data, stride, height), stride, height) == data
  {
    FlippedRows(data, stride, height);
    ReverseReverse(SplitRows(data, stride, height));
  }

  /** An image of at most one row, or of zero-width rows, is left as it is. */
  lemma FlipSmallIsIdentity(data: seq<byte>, stride: nat, height: nat)
    requires |data| == height * stride
    requires height <= 1 || stride == 0
    ensures Flipped(data, stride, height) == data
  {
    var rows := SplitRows(data, stride, height);
    if height <= 1 {
      assert Reverse(rows) == rows;
    } else {
      assert data == [];
      ConcatLength(Reverse(rows), stride);
    }
  }

  /** In an image with an odd number of rows the middle row stays where it is. */
  lemma FlipKeepsMiddleRow(data: seq<byte>, stride: nat, height: nat)
    requires |data| == height * stride
    requires height % 2 == 1
    ensures |Flipped(data, stride, height)| == |data|
    ensures (height / 2) * stride + stride <= |data|
    ensures Flipped(data, stride, height)[(height / 2) * stride .. (height / 2) * stride + stride]
         == data[(height / 2) * stride .. (height / 2) * stride + stride]
  {
    var m := height / 2;
    assert height - 1 - m == m;
    FlippedRows(data, stride, height);
    RowIsSlice(data, stride, height, m);
    RowIsSlice(Flipped(data, stride, height), stride, height, m);
  }

  /**
   flip_image_vertical for `bytesPerPixel` bytes per pixel: every input row is
   copied whole to its mirrored position in a new buffer, which is the result.
   The source computes the size and stride as C `unsigned int`; the caller
   must keep width * height * bytesPerPixel below 2^32 and pass a buffer of
   exactly that many bytes.
   */
  method FlipImageVertical(data: seq<byte>, width: nat, height: nat, bytesPerPixel: nat)
    returns (out: seq<byte>)
    requires width * height * bytesPerPixel < UINT_LIMIT
    requires |data| == width * height * bytesPerPixel
    ensures |out| == |data|
    ensures |data| == height * (width * bytesPerPixel)
    ensures out == Flipped(data, width * bytesPerPixel, height)
  {
    MulRegroup(width, height, bytesPerPixel);
    out := FlipRows(data, width * bytesPerPixel, height);
  }

  /** The copy loop of the flip, on a buffer of `height` rows of `stride` bytes. */
  method FlipRows(data: seq<byte>, stride: nat, height: nat) returns (out: seq<byte>)
    requires |data| == height * stride
    ensures |out| == |data|
    ensures out == Flipped(data, stride, height)
  {
    var newData := new byte[|data|];
    ghost var rows := SplitRows(data, stride, height);
    assert rows[0..] == rows;
    var i := 0;
    var src: nat := 0;       // where input row i starts
    var top: nat := |data|;  // output rows from `top` on are already in place
    while i < height
      invariant 0 <= i <= height
      invariant src <= |data| && top == |data| - src
      invariant data[src..] == Concat(rows[i..])
      invariant newData[top..] == Concat(Reverse(rows[..i]))
    {
      NextRow(data, src, rows, stride, i);
      var dst: nat := top - stride;
      ghost var placed := newData[top..];
      CopyRowInto(newData, dst, data, src, stride);
      assert newData[dst..] == rows[i] + placed;
      ExtendReversed(rows, i);
      i := i + 1;
      src := src + stride;
      top := dst;
    }
    assert rows[..height] == rows;
    assert rows[height..] == [];
    out := newData[..];
    assert out == newData[top..];
  }

  /**
   The memcpy of one row: `stride` bytes of `data` from `src` go to `a` from
   `dst`, in front of the bytes already in place after them.
   */
  method CopyRowInto(a: array<byte>, dst: nat, data: seq<byte>, src: nat, stride: nat)
    requires dst + stride <= a.Length && src + stride <= |data|
    modifies a
    ensures a[dst..] == data[src .. src + stride] + old(a[dst + stride ..])
    ensures a[..dst] == old(a[..dst])
  {
    ghost var before := a[..];
    forall k | 0 <= k < stride {
      a[dst + k] := data[src + k];
    }
    CopyRow(before, a[..], data, src, dst, stride);
    assert before[dst + stride ..] == old(a[dst + stride ..]);
  }

  /**
   Copying `stride` bytes from `src` of `data` to `dst` of a buffer whose
   bytes after `dst + stride` are already placed puts that row in front of them.
   */
  lemma CopyRow(before: seq<byte>, after: seq<byte>, data: seq<byte>, src: nat, dst: nat, stride: nat)
    requires |after| == |before| && dst + stride <= |before| && src + stride <= |data|
    requires forall x :: dst <= x < dst + stride ==> after[x] == data[src + (x - dst)]
    requires forall x :: dst + stride <= x < |before| ==> after[x] == before[x]
    ensures after[dst..] == data[src .. src + stride] + before[dst + stride ..]
  {
    var row := data[src .. src + stride];
    forall x | 0 <= x < |after| - dst
      ensures after[dst..][x] == (row + before[dst + stride ..])[x]
    {
      if x < stride {
        assert after[dst + x] == data[src + x];
      }
    }
  }

  /** The rest of a buffer that starts at row i starts with row i's bytes. */
  lemma NextRow(data: seq<byte>, src: nat, rows: seq<seq<byte>>, stride: nat, i: nat)
    requires IsGrid(rows, stride) && i < |rows|
    requires src <= |data| && data[src..] == Concat(rows[i..])
    ensures src + stride <= |data|
    ensures data[src .. src + stride] == rows[i]
    ensures data[src + stride ..] == Concat(rows[i + 1..])
  {
    assert rows[i..][1..] == rows[i + 1..];
    assert |rows[i]| == stride;
  }

  /** The reversed prefix grows by putting the next row in front. */
  lemma ExtendReversed(rows: seq<seq<byte>>, i: nat)
    requires i < |rows|
    ensures Concat(Reverse(rows[..i + 1])) == rows[i] + Concat(Reverse(rows[..i]))
  {
    ReverseSnoc(rows[..i], rows[i]);
    assert rows[..i + 1] == rows[..i] + [rows[i]];
    ConcatCons(rows[i], Reverse(rows[..i]));
  }

  /** The program's flip for 24-bit RGB images (04/main.c). */
  method FlipRgb(data: seq<byte>, width: nat, height: nat) returns (out: seq<byte>)
    requires width * height * 3 < UINT_LIMIT
    requires |data| == width * height * 3
    ensures |out| == |data|
    ensures forall i, k :: 0 <= i < height && 0 <= k < width * 3 ==>
      MirroredByte(out, data, width * 3, height, i, k)
  {
    out := FlipImageVertical(data, width, height, 3);
    forall i, k | 0 <= i < height && 0 <= k < width * 3
      ensures MirroredByte(out, data, width * 3, height, i, k)
    {
      FlippedIndex(data, width * 3, height, i, k);
    }
  }

  /** The program's flip for 32-bit RGBA images (02/main.c). */
  method FlipRgba(data: seq<byte>, width: nat, height: nat) returns (out: seq<byte>)
    requires width * height * 4 < UINT_LIMIT
    requires |data| == width * height * 4
    ensures |out| == |data|
    ensures SplitRows(out, width * 4, height) == Reverse(SplitRows(data, width * 4, height))
  {
    out := FlipImageVertical(data, width, height, 4);
    FlippedRows(data, width * 4, height);
  }
}
