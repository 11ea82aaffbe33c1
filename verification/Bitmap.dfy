/** Tightly packed RGBA rows copied into a bitmap whose own rows may be padded, or cut short. */
module Bitmap {

  /** Where row `row` starts. */
  function Start(row: nat, stride: nat): nat {
    if row == 0 then 0 else Start(row - 1, stride) + stride
  }

  lemma {:induction false} StartIsProduct(row: nat, stride: nat)
    ensures Start(row, stride) == row * stride
  {
    if row > 0 {
      StartIsProduct(row - 1, stride);
    }
  }

  lemma {:induction false} StartsApart(row: nat, later: nat, stride: nat)
    requires row < later
    ensures Start(row, stride) + stride <= Start(later, stride)
  {
    if row + 1 < later {
      StartsApart(row, later - 1, stride);
    }
  }

  function Used(srcStride: nat, dstStride: nat): nat {
    if srcStride < dstStride then srcStride else dstStride
  }

  /** One row of the bitmap: the source's row in the columns both have, if the source holds that much;
      what was there before in all others. */
  predicate RowCopied(pixels: seq<bv8>, before: seq<bv8>, after: seq<bv8>, srcStride: nat, dstStride: nat, row: nat)
  {
    var used, from, to := Used(srcStride, dstStride), Start(row, srcStride), Start(row, dstStride);
    && |before| == |after| && to + dstStride <= |after|
    && after[to..to + dstStride] ==
      if from + used <= |pixels| then pixels[from..from + used] + before[to + used..to + dstStride]
      else before[to..to + dstStride]
  }

  /** The rows before `rows` are copied, and nothing from there on is touched. */
  predicate RowsCopied(pixels: seq<bv8>, before: seq<bv8>, after: seq<bv8>, srcStride: nat, dstStride: nat, rows: nat) {
    && |before| == |after| && Start(rows, dstStride) <= |after|
    && (forall row: nat :: row < rows ==> RowCopied(pixels, before, after, srcStride, dstStride, row))
    && after[Start(rows, dstStride)..] == before[Start(rows, dstStride)..]
  }

  /** The bitmap after one more row of bytes. */
  function Overwritten(data: seq<bv8>, to: nat, row: seq<bv8>): seq<bv8>
    requires to + |row| <= |data|
  {
    data[..to] + row + data[to + |row|..]
  }

  method CopyBytes(pixels: seq<bv8>, from: nat, data: array<bv8>, to: nat, count: nat)
    requires from + count <= |pixels| && to + count <= data.Length
    modifies data
    ensures data[..] == Overwritten(old(data[..]), to, pixels[from..from + count])
  {
    forall k | 0 <= k < count {
      data[to + k] := pixels[from + k];
    }
    forall i: nat | i < data.Length
      ensures data[..][i] == Overwritten(old(data[..]), to, pixels[from..from + count])[i]
    {
      if to <= i < to + count {
        assert data[to + (i - to)] == pixels[from + (i - to)];
      }
    }
  }

  lemma {:induction false} EarlierRow(pixels: seq<bv8>, before: seq<bv8>, middle: seq<bv8>, to: nat, row: seq<bv8>,
                                      srcStride: nat, dstStride: nat, r: nat)
    requires |before| == |middle| && Start(r, dstStride) + dstStride <= to && to + |row| <= |middle|
    requires RowCopied(pixels, before, middle, srcStride, dstStride, r)
    ensures RowCopied(pixels, before, Overwritten(middle, to, row), srcStride, dstStride, r)
  {
    var start := Start(r, dstStride);
    assert Overwritten(middle, to, row)[..to] == middle[..to];
    assert Overwritten(middle, to, row)[start..start + dstStride] == middle[start..start + dstStride];
  }

  lemma {:induction false} ThisRow(pixels: seq<bv8>, before: seq<bv8>, middle: seq<bv8>, srcStride: nat,
                                   dstStride: nat, row: nat)
    requires |before| == |middle| && Start(row, dstStride) + dstStride <= |middle|
    requires middle[Start(row, dstStride)..] == before[Start(row, dstStride)..]
    requires Start(row, srcStride) + Used(srcStride, dstStride) <= |pixels|
    ensures var from, to := Start(row, srcStride), Start(row, dstStride);
            var after := Overwritten(middle, to, pixels[from..from + Used(srcStride, dstStride)]);
            && RowCopied(pixels, before, after, srcStride, dstStride, row)
            && after[to + dstStride..] == before[to + dstStride..]
  {
    var from, to, used := Start(row, srcStride), Start(row, dstStride), Used(srcStride, dstStride);
    var after := Overwritten(middle, to, pixels[from..from + used]);
    assert middle[to + used..] == middle[to..][used..] == before[to..][used..] == before[to + used..];
    assert after[to + used..] == before[to + used..];
    assert after[to..to + used] == pixels[from..from + used];
    assert after[to + used..to + dstStride] == after[to + used..][..dstStride - used]
           == before[to + used..to + dstStride];
    assert after[to..to + dstStride] == after[to..to + used] + after[to + used..to + dstStride];
    assert after[to + dstStride..] == after[to + used..][dstStride - used..] == before[to + dstStride..];
  }

  lemma {:induction false} OneMoreRow(pixels: seq<bv8>, before: seq<bv8>, middle: seq<bv8>, srcStride: nat,
                                      dstStride: nat, row: nat)
    requires RowsCopied(pixels, before, middle, srcStride, dstStride, row)
    requires Start(row + 1, dstStride) <= |middle|
    requires Start(row, srcStride) + Used(srcStride, dstStride) <= |pixels|
    ensures var from := Start(row, srcStride);
            var after := Overwritten(middle, Start(row, dstStride), pixels[from..from + Used(srcStride, dstStride)]);
            RowsCopied(pixels, before, after, srcStride, dstStride, row + 1)
  {
    var from, to, used := Start(row, srcStride), Start(row, dstStride), Used(srcStride, dstStride);
    var after := Overwritten(middle, to, pixels[from..from + used]);
    ThisRow(pixels, before, middle, srcStride, dstStride, row);
    forall r: nat | r < row + 1
      ensures RowCopied(pixels, before, after, srcStride, dstStride, r)
    {
      if r < row {
        StartsApart(r, row, dstStride);
        EarlierRow(pixels, before, middle, to, pixels[from..from + used], srcStride, dstStride, r);
      }
    }
  }

  /** Once the source runs short it stays short. */
  lemma {:induction false} NoMoreRows(pixels: seq<bv8>, before: seq<bv8>, after: seq<bv8>, srcStride: nat,
                                      dstStride: nat, row: nat, height: nat)
    requires RowsCopied(pixels, before, after, srcStride, dstStride, row) && row <= height
    requires Start(height, dstStride) <= |after|
    requires Start(row, srcStride) + Used(srcStride, dstStride) > |pixels|
    ensures RowsCopied(pixels, before, after, srcStride, dstStride, height)
  {
    var here := Start(row, dstStride);
    forall r: nat | r < height
      ensures RowCopied(pixels, before, after, srcStride, dstStride, r)
    {
      StartsApart(r, height, dstStride);
      if row <= r {
        StartsNoEarlier(row, r, srcStride);
        StartsNoEarlier(row, r, dstStride);
        SameSlice(before, after, here, Start(r, dstStride), Start(r, dstStride) + dstStride);
      }
    }
    StartsNoEarlier(row, height, dstStride);
    SameSlice(before, after, here, Start(height, dstStride), |after|);
  }

  lemma {:induction false} StartsNoEarlier(row: nat, later: nat, stride: nat)
    requires row <= later
    ensures Start(row, stride) <= Start(later, stride)
  {
    if row < later {
      StartsApart(row, later, stride);
    }
  }

  lemma {:induction false} SameSlice(a: seq<bv8>, b: seq<bv8>, from: nat, i: nat, j: nat)
    requires |a| == |b| && from <= i <= j <= |a| && a[from..] == b[from..]
    ensures a[i..j] == b[i..j]
  {
    forall k | i <= k < j ensures a[k] == b[k] {
      assert a[k] == a[from..][k - from] && b[k] == b[from..][k - from];
    }
  }

  method RowOffset(row: nat, stride: nat) returns (offset: nat)
    ensures offset == Start(row, stride)
  {
    offset := row * stride;
    StartIsProduct(row, stride);
  }

  /** Row by row, never past either buffer. */
  method CopyRows(pixels: seq<bv8>, width: nat, height: nat, data: array<bv8>, dstStride: nat)
    requires Start(height, dstStride) <= data.Length
    modifies data
    ensures RowsCopied(pixels, old(data[..]), data[..], width * 4, dstStride, height)
  {
    var srcStride := width * 4;
    var rowBytes := if srcStride < dstStride then srcStride else dstStride;
    ghost var before := data[..];
    var row := 0;
    while row < height
      invariant 0 <= row <= height
      invariant RowsCopied(pixels, before, data[..], srcStride, dstStride, row)
    {
      var from := RowOffset(row, srcStride);
      var to := RowOffset(row, dstStride);
      StartsApart(row, height, dstStride);
      if from + rowBytes > |pixels| {
        NoMoreRows(pixels, before, data[..], srcStride, dstStride, row, height);
        return;
      }
      CopyNextRow(pixels, before, data, srcStride, dstStride, row, from, to);
      row := row + 1;
    }
  }

  method CopyNextRow(pixels: seq<bv8>, ghost before: seq<bv8>, data: array<bv8>, srcStride: nat, dstStride: nat,
                     ghost row: nat, from: nat, to: nat)
    requires RowsCopied(pixels, before, data[..], srcStride, dstStride, row)
    requires from == Start(row, srcStride) && to == Start(row, dstStride) && to + dstStride <= data.Length
    requires from + Used(srcStride, dstStride) <= |pixels|
    modifies data
    ensures RowsCopied(pixels, before, data[..], srcStride, dstStride, row + 1)
  {
    OneMoreRow(pixels, before, data[..], srcStride, dstStride, row);
    CopyBytes(pixels, from, data, to, Used(srcStride, dstStride));
  }

  /** No shear: with bitmap rows at least as wide as the source's and all pixels there, row `y` of the
      bitmap is row `y` of the source followed by its padding, untouched. */
  lemma {:induction false} RowsLandInPlace(pixels: seq<bv8>, before: seq<bv8>, after: seq<bv8>, width: nat,
                                           height: nat, dstStride: nat, y: nat)
    requires width * 4 <= dstStride && RowsCopied(pixels, before, after, width * 4, dstStride, height)
    requires height * (width * 4) <= |pixels| && y < height
    ensures y * dstStride + dstStride <= |after| && y * (width * 4) + width * 4 <= |pixels|
    ensures after[y * dstStride..y * dstStride + dstStride]
         == pixels[y * (width * 4)..y * (width * 4) + width * 4]
            + before[y * dstStride + width * 4..y * dstStride + dstStride]
  {
    StartIsProduct(y, dstStride);
    StartIsProduct(y, width * 4);
    StartIsProduct(height, width * 4);
    StartsApart(y, height, width * 4);
    assert RowCopied(pixels, before, after, width * 4, dstStride, y);
  }
}
