/**
 * The planar YUV 4:2:0 frame layout of the encode demo: the `PITCH`,
 * `HEIGHT`, `HEIGHT16` and `SIZE` macros, written as functions of the
 * frame width so that their alignment properties can be stated for every
 * width, and then instantiated at the demo's `WIDTH` of 640.
 */
module FrameLayout {

  import opened Common

  /** `WIDTH`: the width of the generated test card, in pixels. */
  const Width: nat := 640

  /**
   * `(x + (a-1)) & ~(a-1)` for a power-of-two alignment `a`: clearing the
   * low bits of a non-negative number subtracts its remainder modulo `a`.
   * The result is a multiple of `a` that is at least `x` and less than `x + a`.
   */
  function AlignUp(x: nat, a: nat): (r: nat)
    requires a > 0
    ensures r % a == 0
    ensures x <= r < x + a
  {
    var y := x + a - 1;
    DivModUnique(y - y % a, a, y / a, 0);
    y - y % a
  }

  /** `AlignUp(x, a)` is the least multiple of `a` that is at least `x`. */
  lemma AlignUpIsLeast(x: nat, a: nat, m: nat)
    requires a > 0 && m % a == 0 && x <= m
    ensures AlignUp(x, a) <= m
  {
    var r := AlignUp(x, a);
    if m < r {
      var q, p := m / a, r / a;
      assert m == q * a && r == p * a;
      assert (p - q) * a == r - m;
      MulAtLeast(p - q, a);
    }
  }

  /** A multiple of `a` is its own alignment. */
  lemma AlignUpOfMultiple(x: nat, a: nat)
    requires a > 0
    ensures AlignUp(x, a) == x <==> x % a == 0
  {
    if x % a == 0 {
      AlignUpIsLeast(x, a, x);
    }
  }

  /** `PITCH`: the width rounded up to a multiple of 32. */
  function PitchOf(w: nat): (r: nat)
    ensures r % 32 == 0 && w <= r < w + 32
  {
    AlignUp(w, 32)
  }

  /** `HEIGHT`: a 16:9 frame of the given width, rounded down. */
  function HeightOf(w: nat): (r: nat)
    ensures 16 * r <= 9 * w < 16 * r + 16
  {
    w * 9 / 16
  }

  /** `HEIGHT16`: the height rounded up to a multiple of 16. */
  function Height16Of(w: nat): (r: nat)
    ensures r % 16 == 0 && HeightOf(w) <= r < HeightOf(w) + 16
  {
    AlignUp(HeightOf(w), 16)
  }

  /**
   * `SIZE`: the fill length reported for a frame, computed from the width
   * (not the pitch); the halving loses nothing because `HEIGHT16` is even.
   */
  function SizeOf(w: nat): (r: nat)
    ensures 2 * r == 3 * w * Height16Of(w)
  {
    var h := Height16Of(w);
    HalfOfAligned(h, 16);
    ExactHalf(w, h / 2);
    w * h * 3 / 2
  }

  /** The size of one chroma plane, `(PITCH >> 1) * (HEIGHT16 >> 1)`: a quarter of the luma plane. */
  function ChromaPlaneOf(w: nat): (r: nat)
    ensures 4 * r == LumaPlaneOf(w)
  {
    var p, h := PitchOf(w), Height16Of(w);
    HalfOfAligned(p, 32);
    HalfOfAligned(h, 16);
    ProductOfHalves(p / 2, h / 2);
    assert LumaPlaneOf(w) == p * h;
    (p / 2) * (h / 2)
  }

  lemma ExactHalf(w: nat, h2: nat)
    ensures 2 * (w * (2 * h2) * 3 / 2) == 3 * w * (2 * h2)
  {
    var m := w * h2;
    assert w * (2 * h2) * 3 == 6 * m;
    assert 3 * w * (2 * h2) == 6 * m;
    DivModUnique(6 * m, 2, 3 * m, 0);
  }

  /**
   * Where the luma plane ends and the U plane starts, `PITCH * HEIGHT16`:
   * large enough for every visible row and column of the frame.
   */
  function LumaPlaneOf(w: nat): (r: nat)
    ensures w * HeightOf(w) <= r
  {
    MulMonotone(w, HeightOf(w), PitchOf(w), Height16Of(w));
    PitchOf(w) * Height16Of(w)
  }

  lemma MulMonotone(a: nat, b: nat, c: nat, d: nat)
    requires a <= c && b <= d
    ensures a * b <= c * d
  {
    assert a * b <= c * b;
  }

  /** The end of the V plane: the number of bytes the three planes occupy. */
  function LayoutEndOf(w: nat): nat { LumaPlaneOf(w) + 2 * ChromaPlaneOf(w) }

  /** The three planes occupy `PITCH * HEIGHT16 * 3 / 2` bytes. */
  lemma LayoutEndIsThreeHalves(w: nat)
    ensures 2 * LayoutEndOf(w) == 3 * LumaPlaneOf(w)
    ensures LayoutEndOf(w) == PitchOf(w) * Height16Of(w) * 3 / 2
  {
    var p, h := PitchOf(w), Height16Of(w);
    HalfOfAligned(p, 32);
    HalfOfAligned(h, 16);
    ProductOfHalves(p / 2, h / 2);
  }

  /** A multiple of an even alignment is twice its half. */
  lemma HalfOfAligned(x: nat, a: nat)
    requires a > 0 && a % 2 == 0 && x % a == 0
    ensures x == 2 * (x / 2)
  {
    var k := x / a;
    assert x == k * a;
    assert k * a == 2 * (k * (a / 2));
    DivModUnique(x, 2, k * (a / 2), 0);
  }

  lemma ProductOfHalves(p2: nat, h2: nat)
    ensures (2 * p2) * (2 * h2) == 4 * (p2 * h2)
  {
  }

  /**
   * `SIZE` is computed from `WIDTH` while the planes are laid out with
   * `PITCH`: the reported fill length never exceeds the layout, and equals
   * it exactly when the width is already a multiple of 32.
   */
  lemma SizeMatchesLayout(w: nat)
    requires w >= 2
    ensures SizeOf(w) <= LayoutEndOf(w)
    ensures SizeOf(w) == LayoutEndOf(w) <==> w % 32 == 0
  {
    var p, h := PitchOf(w), Height16Of(w);
    LayoutEndIsThreeHalves(w);
    assert h >= 1 by { assert HeightOf(w) >= 1; }
    HalfOfAligned(h, 16);
    ThreeHalvesOfEven(w, h / 2);
    ThreeHalvesOfEven(p, h / 2);
    AlignUpOfMultiple(w, 32);
    StrictlyScales(w, p, 3 * (h / 2));
  }

  /** With an even height `2 * h2`, `x * height * 3 / 2` is exact. */
  lemma ThreeHalvesOfEven(x: nat, h2: nat)
    ensures x * (2 * h2) * 3 / 2 == x * (3 * h2)
  {
    assert x * (2 * h2) * 3 == 2 * (x * (3 * h2));
  }

  /** Multiplying by a positive factor keeps the order of two numbers, strictly. */
  lemma StrictlyScales(x: nat, y: nat, c: nat)
    requires x <= y && c > 0
    ensures x * c <= y * c
    ensures x * c == y * c <==> x == y
  {
    if x < y {
      assert y * c - x * c == (y - x) * c;
      MulAtLeast(y - x, c);
    }
  }

  const Pitch: nat := PitchOf(Width)
  const Height: nat := HeightOf(Width)
  const Height16: nat := Height16Of(Width)
  const Size: nat := SizeOf(Width)
  const ChromaPlane: nat := ChromaPlaneOf(Width)
  const LumaPlane: nat := LumaPlaneOf(Width)
  const LayoutEnd: nat := LayoutEndOf(Width)

  /** The demo's layout constants: 640x360 pixels padded to 640x368 rows, 353280 bytes. */
  lemma DemoConstants()
    ensures Pitch == 640 && Height == 360 && Height16 == 368
    ensures LumaPlane == 235520 && ChromaPlane == 58880
    ensures Size == 353280 && LayoutEnd == Size
  {
  }
}
