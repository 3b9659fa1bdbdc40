/**
 * The animated test card of the encode demo: `generate_test_card` fills a
 * planar YUV 4:2:0 frame in place, one 2x2 luma block plus one U byte and
 * one V byte per step, with a pattern of diagonal bands that moves with the
 * frame number.
 */
module TestCard {

  import opened Common
  import opened FrameLayout

  /** The three planes of the frame, in buffer order. */
  datatype Plane = Y | U | V

  /** Block column `i` and block row `j` of one plane (a 2x2 square of luma, one chroma sample). */
  datatype Block = Block(plane: Plane, i: int, j: int)

  const MinInt32: int := -0x8000_0000
  const MaxInt32: int := 0x7fff_ffff

  /**
   * The pattern index `z` of block (i, j) in frame `frame`: the exclusive or
   * of the 16-pixel band numbers of `i + frame` and `j + frame`, keeping
   * four bits. An arithmetic shift right by 4 is floor division by 16, which
   * Dafny's `/` is for a positive divisor; masking the exclusive or with 15
   * is the exclusive or of the low four bits of each operand.
   */
  function PatternIndex(i: int, j: int, frame: int): (z: int)
    ensures 0 <= z < 16
  {
    (((i + frame) / 16 % 16) as bv4 ^ ((j + frame) / 16 % 16) as bv4) as int
  }

  /** The pattern is zero exactly on the diagonal bands where both coordinates fall in the same 16-pixel band (modulo 16 bands). */
  lemma PatternZeroOnDiagonal(i: int, j: int, frame: int)
    ensures PatternIndex(i, j, frame) == 0 <==> (i + frame) / 16 % 16 == (j + frame) / 16 % 16
  {
    var a, b := ((i + frame) / 16 % 16) as bv4, ((j + frame) / 16 % 16) as bv4;
    assert (a ^ b == 0) <==> a == b;
  }

  /** The card scrolls diagonally: the next frame shows at block (i, j) what this frame shows at (i + 1, j + 1). */
  lemma PatternScrolls(i: int, j: int, frame: int)
    ensures PatternIndex(i, j, frame + 1) == PatternIndex(i + 1, j + 1, frame)
  {
    assert i + (frame + 1) == (i + 1) + frame && j + (frame + 1) == (j + 1) + frame;
  }

  /** `0x80 + z * 0x8`: the luma of a block, which always fits in a byte. */
  function LumaValue(z: int): (r: byte)
    requires 0 <= z < 16
    ensures r as int == 0x80 + 8 * z
    ensures 0x80 <= r as int <= 0xf8
  {
    ToByte(0x80 + z * 0x8)
  }

  /** `0x00 + z * 0x10`: the U sample of a block, which always fits in a byte. */
  function CbValue(z: int): (r: byte)
    requires 0 <= z < 16
    ensures r as int == 0x10 * z
  {
    ToByte(0x00 + z * 0x10)
  }

  /** `0x80 + z * 0x30` stored into a `char`: it wraps modulo 256 from `z == 3` on. */
  function CrValue(z: int): (r: byte)
    requires 0 <= z < 16
    ensures r as int == (0x80 + 0x30 * z) % 0x100
    ensures r as int == 0x80 + 0x30 * z <==> z < 3
  {
    ToByte(0x80 + z * 0x30)
  }

  /** The byte written for a block of the given plane. */
  function BlockValue(b: Block, frame: int): (r: byte)
    requires 0 <= b.i < Width / 2 && 0 <= b.j < Height / 2
    ensures var z := PatternIndex(b.i, b.j, frame);
      r as int == match b.plane
        case Y => 0x80 + 8 * z
        case U => 0x10 * z
        case V => (0x80 + 0x30 * z) % 0x100
  {
    var z := PatternIndex(b.i, b.j, frame);
    match b.plane
    case Y => LumaValue(z)
    case U => CbValue(z)
    case V => CrValue(z)
  }

  /**
   * Offset of the top-left luma byte of block (i, j), `2 * j * PITCH + 2 * i`:
   * the block's two-by-two square of luma bytes lies inside the luma plane.
   */
  function LumaOffset(i: int, j: int): (r: int)
    ensures 0 <= i < Width / 2 && 0 <= j < Height / 2 ==> 0 <= r && r + Pitch + 1 < LumaPlane
  {
    DemoConstants();
    2 * j * Pitch + 2 * i
  }

  /** Offset of the U byte of block (i, j), `u + j * (PITCH >> 1) + i`: it lies inside the U plane. */
  function CbOffset(i: int, j: int): (r: int)
    ensures 0 <= i < Width / 2 && 0 <= j < Height / 2 ==> LumaPlane <= r < LumaPlane + ChromaPlane
  {
    DemoConstants();
    LumaPlane + j * (Pitch / 2) + i
  }

  /** Offset of the V byte of block (i, j), `v + j * (PITCH >> 1) + i`: it lies inside the V plane. */
  function CrOffset(i: int, j: int): (r: int)
    ensures 0 <= i < Width / 2 && 0 <= j < Height / 2 ==> LumaPlane + ChromaPlane <= r < LayoutEnd
  {
    DemoConstants();
    LumaPlane + ChromaPlane + j * (Pitch / 2) + i
  }

  /**
   * Which block the loops of `generate_test_card` address at buffer offset
   * `k`, if any: offsets in the padding rows and columns of each plane and
   * offsets past the V plane belong to no block.
   */
  function BlockAt(k: int): (r: Option<Block>)
    ensures r.Some? ==> 0 <= r.value.i < Width / 2 && 0 <= r.value.j < Height / 2
  {
    DemoConstants();
    if k < 0 then None
    else if k < LumaPlane then
      var row, col := k / Pitch, k % Pitch;
      if row / 2 < Height / 2 && col / 2 < Width / 2 then Some(Block(Y, col / 2, row / 2)) else None
    else if k < LumaPlane + ChromaPlane then
      var row, col := (k - LumaPlane) / (Pitch / 2), (k - LumaPlane) % (Pitch / 2);
      if row < Height / 2 && col < Width / 2 then Some(Block(U, col, row)) else None
    else if k < LumaPlane + 2 * ChromaPlane then
      var row, col := (k - LumaPlane - ChromaPlane) / (Pitch / 2), (k - LumaPlane - ChromaPlane) % (Pitch / 2);
      if row < Height / 2 && col < Width / 2 then Some(Block(V, col, row)) else None
    else None
  }

  /** Byte `k` of the buffer `s` after the test card for `frame` has been drawn into it. */
  function CardByte(s: seq<byte>, k: int, frame: int): byte
    requires 0 <= k < |s|
  {
    match BlockAt(k)
    case None => s[k]
    case Some(b) => BlockValue(b, frame)
  }

  /** The buffer `s` after the test card for `frame` has been drawn into it. */
  function TestCard(s: seq<byte>, frame: int): (r: seq<byte>)
    ensures |r| == |s|
  {
    seq(|s|, k requires 0 <= k < |s| => CardByte(s, k, frame))
  }

  /** The four luma bytes of block (i, j) all hold `0x80 + 8 * z` for the block's pattern index `z`. */
  lemma LumaBlockBytes(s: seq<byte>, frame: int, i: int, j: int, dx: int, dy: int)
    requires LayoutEnd <= |s|
    requires 0 <= i < Width / 2 && 0 <= j < Height / 2 && 0 <= dx < 2 && 0 <= dy < 2
    ensures 0 <= LumaOffset(i, j) + dy * Pitch + dx < LumaPlane
    ensures TestCard(s, frame)[LumaOffset(i, j) + dy * Pitch + dx] as int == 0x80 + 8 * PatternIndex(i, j, frame)
  {
    LumaOffsetsAddressBlock(i, j, dx, dy);
  }

  /** The U byte of block (i, j) holds `0x10 * z` for the block's pattern index `z`. */
  lemma CbByte(s: seq<byte>, frame: int, i: int, j: int)
    requires LayoutEnd <= |s|
    requires 0 <= i < Width / 2 && 0 <= j < Height / 2
    ensures LumaPlane <= CbOffset(i, j) < LumaPlane + ChromaPlane
    ensures TestCard(s, frame)[CbOffset(i, j)] as int == 0x10 * PatternIndex(i, j, frame)
  {
    CbOffsetAddressesBlock(i, j);
    var cb := CbOffset(i, j);
    assert TestCard(s, frame)[cb] == CardByte(s, cb, frame);
  }

  /** The V byte of block (i, j) holds `(0x80 + 0x30 * z) mod 256` for the block's pattern index `z`. */
  lemma CrByte(s: seq<byte>, frame: int, i: int, j: int)
    requires LayoutEnd <= |s|
    requires 0 <= i < Width / 2 && 0 <= j < Height / 2
    ensures LumaPlane + ChromaPlane <= CrOffset(i, j) < LayoutEnd
    ensures TestCard(s, frame)[CrOffset(i, j)] as int == (0x80 + 0x30 * PatternIndex(i, j, frame)) % 0x100
  {
    CrOffsetAddressesBlock(i, j);
    var cr := CrOffset(i, j);
    assert TestCard(s, frame)[cr] == CardByte(s, cr, frame);
  }

  /**
   * The bytes the loops never address keep their value: the luma rows
   * `HEIGHT .. HEIGHT16 - 1`, the chroma rows `HEIGHT/2 .. HEIGHT16/2 - 1`
   * of U and of V, and everything past the V plane.
   */
  lemma PaddingUntouched(s: seq<byte>, frame: int, k: int)
    requires 0 <= k < |s|
    requires || Height * Pitch <= k < LumaPlane
             || LumaPlane + (Height / 2) * (Pitch / 2) <= k < LumaPlane + ChromaPlane
             || LumaPlane + ChromaPlane + (Height / 2) * (Pitch / 2) <= k < LayoutEnd
             || LayoutEnd <= k
    ensures TestCard(s, frame)[k] == s[k]
  {
    DemoConstants();
    if k < LumaPlane {
      RowBelow(k, Pitch, Height);
    } else if k < LumaPlane + ChromaPlane {
      RowBelow(k - LumaPlane, Pitch / 2, Height / 2);
    } else if k < LayoutEnd {
      RowBelow(k - LumaPlane - ChromaPlane, Pitch / 2, Height / 2);
    }
    assert BlockAt(k).None?;
  }

  /** An offset at or past row `h` of a plane with rows of `p` bytes lies in a row numbered at least `h`. */
  lemma RowBelow(x: int, p: int, h: nat)
    requires p > 0 && h * p <= x
    ensures x / p >= h
  {
    if x / p < h {
      assert x == (x / p) * p + x % p;
      assert (h - x / p) * p == h * p - (x / p) * p;
      MulAtLeast(h - x / p, p);
    }
  }

  /**
   * Every byte the card changes lies inside the three planes, that is in
   * the first `SIZE` bytes of the buffer, and belongs to a block the loops
   * address.
   */
  lemma WritesWithinLayout(s: seq<byte>, frame: int, k: int)
    requires 0 <= k < |s|
    ensures TestCard(s, frame)[k] != s[k] ==> k < LayoutEnd && k < Size && BlockAt(k).Some?
  {
    DemoConstants();
  }

  /** Drawing frame `f2` over frame `f1` gives what drawing `f2` alone gives: every byte the card addresses is overwritten, so no trace of `f1` survives. */
  lemma RedrawOverwrites(s: seq<byte>, f1: int, f2: int)
    ensures TestCard(TestCard(s, f1), f2) == TestCard(s, f2)
  {
    var r1, r2 := TestCard(TestCard(s, f1), f2), TestCard(s, f2);
    forall k | 0 <= k < |s|
      ensures r1[k] == r2[k]
    {
      assert TestCard(s, f1)[k] == CardByte(s, k, f1);
    }
  }

  /** Block `b` is drawn before the loops reach block (i, j). */
  predicate DrawnBefore(b: Block, i: int, j: int) {
    b.j < j || (b.j == j && b.i < i)
  }

  /** Byte `k` while the loops of `generate_test_card` stand at block (i, j). */
  function PartialByte(s: seq<byte>, k: int, frame: int, i: int, j: int): byte
    requires 0 <= k < |s|
  {
    match BlockAt(k)
    case None => s[k]
    case Some(b) => if DrawnBefore(b, i, j) then BlockValue(b, frame) else s[k]
  }

  /** The four luma offsets of block (i, j) belong to it. */
  lemma LumaOffsetsAddressBlock(i: int, j: int, dx: int, dy: int)
    requires 0 <= i < Width / 2 && 0 <= j < Height / 2 && 0 <= dx < 2 && 0 <= dy < 2
    ensures BlockAt(LumaOffset(i, j) + dy * Pitch + dx) == Some(Block(Y, i, j))
  {
    DemoConstants();
  }

  /** The U offset of block (i, j) belongs to it. */
  lemma CbOffsetAddressesBlock(i: int, j: int)
    requires 0 <= i < Width / 2 && 0 <= j < Height / 2
    ensures BlockAt(CbOffset(i, j)) == Some(Block(U, i, j))
  {
    DemoConstants();
    DivModUnique(CbOffset(i, j) - LumaPlane, Pitch / 2, j, i);
  }

  /** The V offset of block (i, j) belongs to it. */
  lemma CrOffsetAddressesBlock(i: int, j: int)
    requires 0 <= i < Width / 2 && 0 <= j < Height / 2
    ensures BlockAt(CrOffset(i, j)) == Some(Block(V, i, j))
  {
    DemoConstants();
    DivModUnique(CrOffset(i, j) - LumaPlane - ChromaPlane, Pitch / 2, j, i);
  }

  /** Conversely, the only offsets belonging to block (i, j) are its four luma bytes, its U byte and its V byte. */
  lemma BlockOffsets(k: int, i: int, j: int)
    requires BlockAt(k).Some? && BlockAt(k).value.i == i && BlockAt(k).value.j == j
    ensures k == LumaOffset(i, j) || k == LumaOffset(i, j) + 1
         || k == LumaOffset(i, j) + Pitch || k == LumaOffset(i, j) + Pitch + 1
         || k == CbOffset(i, j) || k == CrOffset(i, j)
  {
    DemoConstants();
  }

  /** Drawing block (i, j) changes exactly its six bytes. */
  lemma DrawStep(s: seq<byte>, k: int, frame: int, i: int, j: int)
    requires 0 <= k < |s| && 0 <= i < Width / 2 && 0 <= j < Height / 2
    ensures var z := PatternIndex(i, j, frame);
      PartialByte(s, k, frame, i + 1, j) ==
        if k == LumaOffset(i, j) || k == LumaOffset(i, j) + 1
           || k == LumaOffset(i, j) + Pitch || k == LumaOffset(i, j) + Pitch + 1 then LumaValue(z)
        else if k == CbOffset(i, j) then CbValue(z)
        else if k == CrOffset(i, j) then CrValue(z)
        else PartialByte(s, k, frame, i, j)
  {
    DemoConstants();
    LumaOffsetsAddressBlock(i, j, 0, 0);
    LumaOffsetsAddressBlock(i, j, 1, 0);
    LumaOffsetsAddressBlock(i, j, 0, 1);
    LumaOffsetsAddressBlock(i, j, 1, 1);
    CbOffsetAddressesBlock(i, j);
    CrOffsetAddressesBlock(i, j);
    if BlockAt(k).Some? && BlockAt(k).value.i == i && BlockAt(k).value.j == j {
      BlockOffsets(k, i, j);
    }
  }

  /** Finishing block row j is starting block row j + 1. */
  lemma RowDone(s: seq<byte>, k: int, frame: int, j: int)
    requires 0 <= k < |s|
    ensures PartialByte(s, k, frame, Width / 2, j) == PartialByte(s, k, frame, 0, j + 1)
  {
  }

  /** Once every block row is drawn, the buffer holds the test card. */
  lemma AllRowsDone(s: seq<byte>, k: int, frame: int)
    requires 0 <= k < |s|
    ensures PartialByte(s, k, frame, 0, Height / 2) == TestCard(s, frame)[k]
  {
  }

  /** One step of the inner loop: draws block (i, j) at the pointers `py`, `pu` and `pv`. */
  method DrawBlock(buf: array<byte>, ghost s0: seq<byte>, frame: int, i: int, j: int, py: int, pu: int, pv: int)
    requires LayoutEnd <= buf.Length == |s0|
    requires 0 <= i < Width / 2 && 0 <= j < Height / 2
    requires MinInt32 <= frame && frame + Width / 2 - 1 <= MaxInt32
    requires py == LumaOffset(i, j) && pu == CbOffset(i, j) && pv == CrOffset(i, j)
    requires forall k :: 0 <= k < buf.Length ==> buf[k] == PartialByte(s0, k, frame, i, j)
    modifies buf
    ensures forall k :: 0 <= k < buf.Length ==> buf[k] == PartialByte(s0, k, frame, i + 1, j)
  {
    var z := PatternIndex(i, j, frame);
    ghost var before := buf[..];
    // the six bytes of the block lie at distinct offsets, so the order of the stores does not matter
    buf[py + Pitch + 1] := LumaValue(z);
    buf[py + Pitch] := LumaValue(z);
    buf[py + 1] := LumaValue(z);
    buf[py] := LumaValue(z);
    buf[pu] := CbValue(z);
    buf[pv] := CrValue(z);
    forall k | 0 <= k < buf.Length
      ensures buf[k] == PartialByte(s0, k, frame, i + 1, j)
    {
      DrawStep(s0, k, frame, i, j);
      assert before[k] == PartialByte(s0, k, frame, i, j);
    }
  }

  /**
   * `generate_test_card`: draws the card for `frame` into `buf` in place,
   * sets the fill length to `SIZE` and returns 1. `frame` must keep
   * `i + frame` and `j + frame` within a C `int`.
   */
  method GenerateTestCard(buf: array<byte>, frame: int) returns (filledLen: u32, status: int)
    requires LayoutEnd <= buf.Length
    requires MinInt32 <= frame && frame + Width / 2 - 1 <= MaxInt32
    modifies buf
    ensures buf[..] == TestCard(old(buf[..]), frame)
    ensures filledLen as int == Size && status == 1
  {
    DemoConstants();
    ghost var s0 := buf[..];
    var y, u := 0, Pitch * Height16;
    var v := u + (Pitch / 2) * (Height16 / 2);
    var j := 0;
    while j < Height / 2
      invariant 0 <= j <= Height / 2
      invariant forall k :: 0 <= k < buf.Length ==> buf[k] == PartialByte(s0, k, frame, 0, j)
    {
      var py := y + 2 * j * Pitch;
      var pu := u + j * (Pitch / 2);
      var pv := v + j * (Pitch / 2);
      var i := 0;
      while i < Width / 2
        invariant 0 <= i <= Width / 2
        invariant py == LumaOffset(i, j) && pu == CbOffset(i, j) && pv == CrOffset(i, j)
        invariant forall k :: 0 <= k < buf.Length ==> buf[k] == PartialByte(s0, k, frame, i, j)
      {
        DrawBlock(buf, s0, frame, i, j, py, pu, pv);
        py, pu, pv := py + 2, pu + 1, pv + 1;
        i := i + 1;
      }
      forall k | 0 <= k < buf.Length
        ensures buf[k] == PartialByte(s0, k, frame, 0, j + 1)
      {
        RowDone(s0, k, frame, j);
      }
      j := j + 1;
    }
    forall k | 0 <= k < buf.Length
      ensures buf[k] == TestCard(s0, frame)[k]
    {
      AllRowsDone(s0, k, frame);
    }
    filledLen := Size as u32;
    status := 1;
  }
}
