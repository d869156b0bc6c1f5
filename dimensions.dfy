/** Grid geometry (src/dimensions.rs). */
module Dimensions {
  import opened Basics

  /** The largest value of a `u32`, as an integer. */
  const U32_MAX_INT: int := U32_LIMIT - 1

  /** Multiplication is monotone: factors bounded by `m` give a product bounded by `m * m`. */
  lemma {:induction false} ProductBounded(a: nat, b: nat, m: nat)
    requires a <= m && b <= m
    ensures a * b <= m * m
  {
    assert a * b <= m * b by {
      assert (m - a) * b >= 0;
    }
    assert m * b <= m * m by {
      assert m * (m - b) >= 0;
    }
  }

  /** Two `u32` factors widened to a 64-bit `usize` cannot overflow when multiplied:
      their product is at most (2^32 - 1)^2 < 2^64. */
  lemma WidenedProductFits(w: u32, h: u32)
    ensures 0 <= w as int * h as int <= U32_MAX_INT * U32_MAX_INT
    ensures w as int * h as int < USIZE_LIMIT
  {
    ProductBounded(w as int, h as int, U32_MAX_INT);
  }

  /** `Dimensions`: the width and height of the cell grid. */
  datatype Dimensions = Dimensions(width: u32, height: u32) {

    /** `Dimensions::new`: the accessors give back exactly the values passed in. */
    static function New(width: u32, height: u32): (d: Dimensions)
      ensures d.Width() == width && d.Height() == height
    {
      Dimensions(width, height)
    }

    /** `area`: the number of cells, `width * height` computed in `usize` after widening
        each factor; the multiplication never overflows, and the grid is empty exactly
        when one of its sides is. */
    function Area(): (r: usize)
      ensures r as int == width as int * height as int
      ensures r as int <= U32_MAX_INT * U32_MAX_INT
      ensures r == 0 <==> width == 0 || height == 0
    {
      WidenedProductFits(width, height);
      ZeroProduct(width as int, height as int);
      (width as usize) * (height as usize)
    }

    /** `width`: the side that, times the height, gives the area. */
    function Width(): (r: u32)
      ensures r as int * height as int == Area() as int
    {
      width
    }

    /** `height`: the side that, times the width, gives the area. */
    function Height(): (r: u32)
      ensures width as int * r as int == Area() as int
    {
      height
    }
  }

  /** A product of two naturals is zero exactly when one factor is. */
  lemma ZeroProduct(a: nat, b: nat)
    ensures a * b == 0 <==> a == 0 || b == 0
  {
    if a != 0 && b != 0 {
      assert a * b >= b by {
        assert (a - 1) * b >= 0;
      }
    }
  }

  /** Swapping width and height leaves the area unchanged. */
  lemma AreaSymmetric(w: u32, h: u32)
    ensures Dimensions(w, h).Area() == Dimensions(h, w).Area()
  {
  }
}
