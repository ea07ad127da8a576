/** Box ids of standard boards (calculate_standard and its helpers).  A
    square board of side s*s has s-by-s boxes; a "wide" board has boxes
    `short` rows high and `long` columns wide, a "tall" board the
    transpose. */
module StandardBox {
  import opened Common

  /** calculate_square_box_size: int(math.sqrt(dimension)), the integer
      square root. */
  function SquareBoxSize(dimension: nat): (s: nat)
    ensures s * s <= dimension < (s + 1) * (s + 1)
  {
    if dimension == 0 then 0
    else
      var s := SquareBoxSize(dimension - 1);
      if (s + 1) * (s + 1) <= dimension then s + 1 else s
  }

  /** A perfect square's root is found exactly. */
  lemma SquareBoxSizeExact(dimension: nat, s: nat)
    requires s * s == dimension
    ensures SquareBoxSize(dimension) == s
  {
    var r := SquareBoxSize(dimension);
    SquareOrder(r, s);
    SquareOrder(s, r + 1);
  }

  /** Squaring is strictly monotone on naturals, read backwards. */
  lemma SquareOrder(a: nat, b: nat)
    ensures a * a <= b * b ==> a <= b
    ensures a * a < b * b ==> a < b
  {
    if a > b {
      MulStrict(b, a);
    }
  }

  lemma MulStrict(a: nat, b: nat)
    requires a < b
    ensures a * a < b * b
  {
    assert a * a <= a * b;
    assert a * b < b * b;
  }

  /** calculate_box_sizes: the short side is 3 on a 12-board and 2
      otherwise; the long side is the dimension divided by it.  On every
      board of even dimension the two sides multiply to the dimension. */
  function BoxSizes(dimension: nat): (sizes: (nat, nat))
    ensures sizes.0 == 3 <==> dimension == 12
    ensures sizes.0 == 2 || sizes.0 == 3
    ensures dimension % 2 == 0 ==> sizes.0 * sizes.1 == dimension
    ensures dimension % 2 == 1 ==> sizes.0 * sizes.1 == dimension - 1
  {
    var short := if dimension == 12 then 3 else 2;
    (short, dimension / short)
  }

  predicate KnownRatio(ratio: string) {
    ratio == "square" || ratio == "wide" || ratio == "tall"
  }

  /** calculate_standard(puzzle, col, row).  An unknown ratio leaves `x`
      unassigned (UnboundLocalError); a zero box side divides by zero. */
  function CalculateStandard(dimension: nat, ratio: string, col: nat, row: nat): (r: Result<int>)
    ensures !KnownRatio(ratio) ==> r == Err(Unbound("x"))
    ensures r.Err? <==>
              || !KnownRatio(ratio)
              || (ratio == "square" && dimension == 0)
              || (ratio != "square" && dimension < 2)
  {
    if ratio == "square" then
      var s := SquareBoxSize(dimension);
      if s == 0 then Err(DivByZero) else Ok(col / s + (row / s) * s)
    else
      var sizes := BoxSizes(dimension);
      var short, long := sizes.0, sizes.1;
      if ratio == "wide" then
        if long == 0 then Err(DivByZero) else Ok(col / long + (row / short) * short)
      else if ratio == "tall" then
        if long == 0 then Err(DivByZero) else Ok(col / short + (row / long) * long)
      else Err(Unbound("x"))
  }

  /** The standard boards the page offers: 4, 9 and 16 square; 6, 8, 10
      and 12 wide or tall. */
  predicate StandardBoard(dimension: nat, ratio: string) {
    || (ratio == "square" && dimension in {4, 9, 16})
    || ((ratio == "wide" || ratio == "tall") && dimension in {6, 8, 10, 12})
  }

  /** Height and width of one box. */
  function BoxShape(dimension: nat, ratio: string): (nat, nat) {
    if ratio == "square" then (SquareBoxSize(dimension), SquareBoxSize(dimension))
    else if ratio == "wide" then (BoxSizes(dimension).0, BoxSizes(dimension).1)
    else (BoxSizes(dimension).1, BoxSizes(dimension).0)
  }

  lemma BoxShapeValues(dimension: nat, ratio: string)
    requires StandardBoard(dimension, ratio)
    ensures var (h, w) := BoxShape(dimension, ratio);
            h * w == dimension &&
            (ratio == "square" ==> h == w) &&
            (dimension == 4 ==> h == 2) && (dimension == 9 ==> h == 3) && (dimension == 16 ==> h == 4) &&
            (dimension == 6 ==> (h, w) == (if ratio == "wide" then (2, 3) else (3, 2))) &&
            (dimension == 8 ==> (h, w) == (if ratio == "wide" then (2, 4) else (4, 2))) &&
            (dimension == 10 ==> (h, w) == (if ratio == "wide" then (2, 5) else (5, 2))) &&
            (dimension == 12 ==> (h, w) == (if ratio == "wide" then (3, 4) else (4, 3)))
  {
    if ratio == "square" {
      if dimension == 4 { SquareBoxSizeExact(4, 2); }
      else if dimension == 9 { SquareBoxSizeExact(9, 3); }
      else { SquareBoxSizeExact(16, 4); }
    }
  }

  /** On every standard board each cell's box id lies in [0, dimension). */
  lemma StandardBoxInRange(dimension: nat, ratio: string, col: nat, row: nat)
    requires StandardBoard(dimension, ratio)
    requires col < dimension && row < dimension
    ensures CalculateStandard(dimension, ratio, col, row).Ok?
    ensures 0 <= CalculateStandard(dimension, ratio, col, row).value < dimension
  {
    StandardBoxIsBlock(dimension, ratio, col, row, 0);
  }

  /** Box `b` is exactly the h-by-w block (h * w == dimension cells) in
      block row b / (dimension / w) and block column b % (dimension / w). */
  lemma StandardBoxIsBlock(dimension: nat, ratio: string, col: nat, row: nat, b: int)
    requires StandardBoard(dimension, ratio)
    requires col < dimension && row < dimension && 0 <= b < dimension
    ensures var (h, w) := BoxShape(dimension, ratio);
            h * w == dimension &&
            CalculateStandard(dimension, ratio, col, row) == Ok(col / w + (row / h) * h) &&
            0 <= col / w + (row / h) * h < dimension &&
            (CalculateStandard(dimension, ratio, col, row) == Ok(b) <==>
               row / h == b / h && col / w == b % h)
  {
    BoxShapeValues(dimension, ratio);
    var (h, w) := BoxShape(dimension, ratio);
    assert CalculateStandard(dimension, ratio, col, row) == Ok(col / w + (row / h) * h);
    BlockGrid(h, w, col, row, b);
  }

  /** Numbering the blocks of an (h*w)-by-(h*w) grid of h-by-w blocks
      left to right, top to bottom: the id is in range and names exactly
      one block. */
  lemma BlockGrid(h: nat, w: nat, col: nat, row: nat, b: int)
    requires h >= 1 && w >= 1 && col < h * w && row < h * w && 0 <= b < h * w
    ensures 0 <= col / w + (row / h) * h < h * w
    ensures col / w + (row / h) * h == b <==> row / h == b / h && col / w == b % h
  {
    var p, q := col / w, row / h;
    DivBelow(col, w, h);
    assert h * w == w * h;
    DivBelow(row, h, w);
    GridIdRange(p, q, h, w);
    GridIdUnique(p, q, h, b);
  }

  /** Column block p < h of row band q < w lands inside [0, h*w). */
  lemma GridIdRange(p: nat, q: nat, h: nat, w: nat)
    requires p < h && q < w
    ensures p + q * h < h * w
  {
    MulLe(q, w - 1, h);
    assert (w - 1) * h + h == w * h;
    assert w * h == h * w;
  }

  /** p + q*h with p < h names b exactly when q and p are b's quotient
      and remainder by h. */
  lemma GridIdUnique(p: nat, q: nat, h: nat, b: int)
    requires h >= 1 && p < h
    ensures p + q * h == b <==> q == b / h && p == b % h
  {
    DivUnique(p + q * h, h, q, p);
    assert b == (b / h) * h + b % h;
  }

  lemma MulLe(a: nat, b: nat, c: nat)
    requires a <= b
    ensures a * c <= b * c
  {
  }

  lemma DivBelow(x: nat, d: nat, n: nat)
    requires d >= 1 && x < n * d
    ensures x / d < n
  {
    if x / d >= n {
      MulLe(n, x / d, d);
    }
  }

  lemma DivUnique(x: int, d: int, q: int, r: int)
    requires d >= 1 && 0 <= r < d && x == q * d + r
    ensures x / d == q && x % d == r
  {
    var q', r' := x / d, x % d;
    assert q' * d + r' == q * d + r;
    if q' > q {
      assert (q' - q) * d == r - r';
      MulLe(1, q' - q, d);
    } else if q' < q {
      assert (q - q') * d == r' - r;
      MulLe(1, q - q', d);
    }
  }
}
