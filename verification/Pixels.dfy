/** Areas without formulas: the pixels of a rectangle with integer corners, counted. */
module Pixels {
  datatype Pixel = Pixel(x: int, y: int)

  /** The pixels from column `left` up to `right` and from row `top` up to `bottom`, the ends excluded. */
  ghost function Block(left: int, top: int, right: int, bottom: int): set<Pixel> {
    set x, y | left <= x < right && top <= y < bottom :: Pixel(x, y)
  }

  lemma {:induction false} ColumnSize(x: int, top: int, bottom: int)
    requires top <= bottom
    ensures |Block(x, top, x + 1, bottom)| == bottom - top
    decreases bottom - top
  {
    if top == bottom {
      assert Block(x, top, x + 1, bottom) == {};
    } else {
      ColumnSize(x, top, bottom - 1);
      assert Block(x, top, x + 1, bottom) == Block(x, top, x + 1, bottom - 1) + {Pixel(x, bottom - 1)};
    }
  }

  lemma {:induction false} ColumnsSize(left: int, top: int, right: int, bottom: int, height: nat)
    requires left <= right && height == bottom - top
    ensures |Block(left, top, right, bottom)| == (right - left) * height
    decreases right - left
  {
    if left == right {
      assert Block(left, top, right, bottom) == {};
    } else {
      var x := right - 1;
      ColumnsSize(left, top, x, bottom, height);
      ColumnSize(x, top, bottom);
      assert Block(left, top, right, bottom) == Block(left, top, x, bottom) + Block(x, top, right, bottom);
      assert Block(left, top, x, bottom) !! Block(x, top, right, bottom);
      OneMore(right - left, height);
    }
  }

  lemma OneMore(n: int, m: int)
    ensures n * m == (n - 1) * m + m
  {
  }

  lemma {:induction false} RealProduct(n: nat, m: nat)
    ensures (n * m) as real == n as real * m as real
  {
    if n > 0 {
      RealProduct(n - 1, m);
      OneMore(n, m);
      RealOneMore(n as real, m as real);
    }
  }

  lemma RealOneMore(n: real, m: real)
    ensures n * m == (n - 1.0) * m + m
  {
  }

  /** As many pixels as the product of the sides says. */
  lemma BlockSize(left: int, top: int, right: int, bottom: int, width: real, height: real)
    requires left <= right && top <= bottom && width == (right - left) as real && height == (bottom - top) as real
    ensures |Block(left, top, right, bottom)| as real == width * height
  {
    ColumnsSize(left, top, right, bottom, bottom - top);
    RealProduct(right - left, bottom - top);
  }

  function Later(a: int, b: int): int {
    if a < b then b else a
  }

  function Earlier(a: int, b: int): int {
    if b < a then b else a
  }

  /** What two blocks have in common is a block, or nothing. */
  lemma CommonBlock(a: int, b: int, c: int, d: int, e: int, f: int, g: int, h: int)
    ensures Block(a, b, c, d) * Block(e, f, g, h) == Block(Later(a, e), Later(b, f), Earlier(c, g), Earlier(d, h))
  {
  }

  datatype Sides = Sides(width: real, height: real)

  /** The area of a rectangle; none if a side is not positive. */
  function Extent(s: Sides): real {
    match s
    case Sides(w, h) => if w > 0.0 && h > 0.0 then w * h else 0.0
  }

  /** The sides of what two blocks have in common; one is not positive if that is nothing. */
  function CommonPart(l: int, t: int, r: int, m: int, l': int, t': int, r': int, m': int): Sides {
    Sides((Earlier(r, r') - Later(l, l')) as real, (Earlier(m, m') - Later(t, t')) as real)
  }

  lemma BlockExtent(left: int, top: int, right: int, bottom: int, s: Sides)
    requires s == Sides((right - left) as real, (bottom - top) as real)
    ensures |Block(left, top, right, bottom)| as real == Extent(s)
  {
    if s.width > 0.0 && s.height > 0.0 {
      BlockSize(left, top, right, bottom, s.width, s.height);
    } else {
      assert Block(left, top, right, bottom) == {};
    }
  }

  lemma CommonSize(l: int, t: int, r: int, m: int, l': int, t': int, r': int, m': int)
    ensures |Block(l, t, r, m) * Block(l', t', r', m')| as real == Extent(CommonPart(l, t, r, m, l', t', r', m'))
  {
    CommonBlock(l, t, r, m, l', t', r', m');
    BlockExtent(Later(l, l'), Later(t, t'), Earlier(r, r'), Earlier(m, m'), CommonPart(l, t, r, m, l', t', r', m'));
  }

  lemma UnionSize(s: set<Pixel>, t: set<Pixel>)
    ensures |s + t| == |s| + |t| - |s * t|
  {
  }
}
