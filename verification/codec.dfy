/** The literal codec: a (value, row, col) triple becomes the integer whose
    decimal text is str(value) followed by the row and column fields, each
    zero-padded to two digits on boards of dimension 10 or more
    (attr_to_str, var_coords_to_str); the decoder slices that text back
    (model_to_sudokuvar). */
module Codec {
  import opened Common
  import opened Digits

  /** attr_to_str: a row or column index as text. */
  function AttrToStr(attr: nat, dimension: int): (s: string)
    ensures AllDigits(s) && Parse(s) == attr
    ensures attr <= 9 ==> |s| == (if dimension >= 10 then 2 else 1)
    ensures 10 <= attr <= 99 ==> |s| == 2
  {
    var d := Decimal(attr);
    ParseDecimal(attr);
    DecimalWidth(attr);
    if dimension >= 10 && attr <= 9 then
      ParseAppend("0", d);
      "0" + d
    else
      d
  }

  /** var_coords_to_str: the row field followed by the column field. */
  function VarCoordsToStr(row: nat, col: nat, dimension: int): (s: string)
    ensures AllDigits(s)
    ensures dimension < 10 && row <= 9 && col <= 9 ==> |s| == 2 && Parse(s) == 10 * row + col
    ensures dimension >= 10 && row <= 99 && col <= 99 ==> |s| == 4 && Parse(s) == 100 * row + col
  {
    var r := AttrToStr(row, dimension);
    var c := AttrToStr(col, dimension);
    ParseAppend(r, c);
    assert Pow10(1) == 10 && Pow10(2) == 100;
    r + c
  }

  /** The width of one coordinate field: two digits on boards of
      dimension 10 or more, otherwise the width of the number itself. */
  function FieldWidth(attr: nat, dimension: int): (w: nat)
    ensures w >= 1
  {
    if dimension >= 10 && attr <= 9 then 2 else NumDigits(attr)
  }

  lemma AttrWidth(attr: nat, dimension: int)
    ensures |AttrToStr(attr, dimension)| == FieldWidth(attr, dimension)
  {
    DecimalLength(attr);
  }

  /** The text the compiler builds for `value` at (row, col):
      str(value) + var_coords_to_str(...). */
  function LiteralText(value: nat, row: nat, col: nat, dimension: int): (s: string)
    ensures AllDigits(s)
  {
    Decimal(value) + VarCoordsToStr(row, col, dimension)
  }

  /** The literal the compiler emits for `value` at (row, col): the value
      shifted past the row field, then past the column field.  LiteralIsText
      shows this is int() of LiteralText.  A value of at least 1 gives a
      positive literal, so its negation is a distinct negative one. */
  function Literal(value: nat, row: nat, col: nat, dimension: int): (lit: nat)
    ensures value >= 1 ==> lit >= 1
  {
    var p, q := Pow10(FieldWidth(row, dimension)), Pow10(FieldWidth(col, dimension));
    ShiftPositive(value, p, row);
    ShiftPositive(value * p + row, q, col);
    (value * p + row) * q + col
  }

  lemma ShiftPositive(x: nat, p: nat, y: nat)
    requires p >= 1
    ensures x >= 1 ==> x * p + y >= 1
  {
  }

  /** The literal is exactly the integer the source reads back from its
      concatenated text. */
  lemma LiteralIsText(value: nat, row: nat, col: nat, dimension: int)
    ensures Literal(value, row, col, dimension) == Parse(LiteralText(value, row, col, dimension))
  {
    var rc := VarCoordsToStr(row, col, dimension);
    var p, q := Pow10(FieldWidth(row, dimension)), Pow10(FieldWidth(col, dimension));
    CoordsValue(row, col, dimension);
    ParseDecimal(value);
    ParseAppend(Decimal(value), rc);
    Regroup(value, row, col, p, q);
  }

  /** The coordinate text reads as the row shifted past the column field,
      and is as wide as the two fields together. */
  lemma CoordsValue(row: nat, col: nat, dimension: int)
    ensures var q := Pow10(FieldWidth(col, dimension));
            Parse(VarCoordsToStr(row, col, dimension)) == row * q + col &&
            Pow10(|VarCoordsToStr(row, col, dimension)|) == Pow10(FieldWidth(row, dimension)) * q
  {
    var r, c := AttrToStr(row, dimension), AttrToStr(col, dimension);
    AttrWidth(row, dimension);
    AttrWidth(col, dimension);
    ParseAppend(r, c);
    Pow10Add(|r|, |c|);
  }

  lemma Regroup(value: nat, row: nat, col: nat, p: nat, q: nat)
    ensures value * (p * q) + (row * q + col) == (value * p + row) * q + col
  {
    assert value * (p * q) == (value * p) * q;
  }

  /** The decimal concatenation is plain positional arithmetic. */
  lemma LiteralArithmetic(value: nat, row: nat, col: nat, dimension: int)
    ensures dimension < 10 && row <= 9 && col <= 9 ==>
              Literal(value, row, col, dimension) == 100 * value + 10 * row + col
    ensures dimension >= 10 && row <= 99 && col <= 99 ==>
              Literal(value, row, col, dimension) == 10000 * value + 100 * row + col
  {
    if dimension < 10 && row <= 9 && col <= 9 {
      assert FieldWidth(row, dimension) == 1 && FieldWidth(col, dimension) == 1;
      assert Pow10(1) == 10;
    } else if dimension >= 10 && row <= 99 && col <= 99 {
      assert NumDigits(row / 10) == 1 && NumDigits(col / 10) == 1;
      assert FieldWidth(row, dimension) == 2 && FieldWidth(col, dimension) == 2;
      assert Pow10(2) == 100;
    }
  }

  /** The triples the fixed-width reading recovers: the value takes the
      leading digit(s), so it must be non-zero and fit one (small boards)
      or two (large boards) digits, as must the row and column fields. */
  predicate Encodable(value: nat, row: nat, col: nat, dimension: int) {
    if dimension < 10 then 1 <= value <= 9 && row <= 9 && col <= 9
    else 1 <= value <= 99 && row <= 99 && col <= 99
  }

  /** The literals of encodable triples: three-digit numbers on small
      boards, five- or six-digit numbers on large ones. */
  predicate LiteralRange(lit: int, dimension: int) {
    if dimension < 10 then 100 <= lit <= 999 else 10000 <= lit <= 999999
  }

  datatype Triple = Triple(value: nat, row: nat, col: nat)

  /** Positional reading of a literal back into its fields. */
  function Unpack(lit: nat, dimension: int): Triple {
    if dimension < 10 then Triple(lit / 100, lit / 10 % 10, lit % 10)
    else Triple(lit / 10000, lit / 100 % 100, lit % 100)
  }

  lemma DivMod(x: int, q: int, r: int, d: int)
    requires d == 10 || d == 100 || d == 10000
    requires x == q * d + r && 0 <= r < d
    ensures x / d == q && x % d == r
  {
  }

  /** Positional reading inverts positional writing. */
  lemma UnpackFields(value: nat, row: nat, col: nat, dimension: int)
    requires if dimension < 10 then row <= 9 && col <= 9 else row <= 99 && col <= 99
    ensures var lit := if dimension < 10 then 100 * value + 10 * row + col
                       else 10000 * value + 100 * row + col;
            Unpack(lit, dimension) == Triple(value, row, col)
  {
    if dimension < 10 {
      var lit := 100 * value + 10 * row + col;
      DivMod(lit, value, 10 * row + col, 100);
      DivMod(lit, 10 * value + row, col, 10);
      DivMod(10 * value + row, value, row, 10);
    } else {
      var lit := 10000 * value + 100 * row + col;
      DivMod(lit, value, 100 * row + col, 10000);
      DivMod(lit, 100 * value + row, col, 100);
      DivMod(100 * value + row, value, row, 100);
    }
  }

  /** Encoding then unpacking gives the triple back. */
  lemma UnpackLiteral(value: nat, row: nat, col: nat, dimension: int)
    requires Encodable(value, row, col, dimension)
    ensures LiteralRange(Literal(value, row, col, dimension), dimension)
    ensures Unpack(Literal(value, row, col, dimension), dimension) == Triple(value, row, col)
  {
    LiteralArithmetic(value, row, col, dimension);
    UnpackFields(value, row, col, dimension);
  }

  /** Every literal in range is the encoding of the triple it unpacks to,
      so the codec is a bijection between encodable triples and the
      literal range. */
  lemma LiteralUnpack(lit: nat, dimension: int)
    requires LiteralRange(lit, dimension)
    ensures var t := Unpack(lit, dimension);
            Encodable(t.value, t.row, t.col, dimension) &&
            Literal(t.value, t.row, t.col, dimension) == lit
  {
    var d := if dimension < 10 then 10 else 100;
    var value, rest := lit / (d * d), lit % (d * d);
    var row, col := rest / d, rest % d;
    assert lit == (d * d) * value + d * row + col;
    UnpackFields(value, row, col, dimension);
    LiteralArithmetic(value, row, col, dimension);
  }

  lemma LiteralInjective(v1: nat, r1: nat, c1: nat, v2: nat, r2: nat, c2: nat, dimension: int)
    requires Encodable(v1, r1, c1, dimension) && Encodable(v2, r2, c2, dimension)
    requires Literal(v1, r1, c1, dimension) == Literal(v2, r2, c2, dimension)
    ensures v1 == v2 && r1 == r2 && c1 == c2
  {
    UnpackLiteral(v1, r1, c1, dimension);
    UnpackLiteral(v2, r2, c2, dimension);
  }

  /** The fields the decoder's loop body assigns from one model entry.
      `value` is None when no branch assigned it and no earlier entry did. */
  datatype Fields = Fields(value: Option<nat>, row: nat, col: nat)

  /** Python's clamp of a negative slice bound at 0. */
  function Clamp(i: int): nat {
    if i < 0 then 0 else i
  }

  /** The slicing of str(item) in model_to_sudokuvar.  Small boards read
      item[0], item[1], item[2] (IndexError when shorter).  Large boards
      take the value from the first two characters of a six-character text
      or the first of a five-character one, and otherwise keep the value
      of the previous entry (`previous`); the column is item[-2:] and the
      row item[-4:-2], whose emptiness is a ValueError from int(""). */
  function ParseItem(item: nat, dimension: int, previous: Option<nat>): Result<Fields> {
    var s := Decimal(item);
    if dimension < 10 then
      if |s| < 3 then Err(IndexOut)
      else Ok(Fields(Some(DigitValue(s[0])), DigitValue(s[1]), DigitValue(s[2])))
    else
      var value :=
        if |s| == 6 then Some(Parse(s[0..2]))
        else if |s| == 5 then Some(DigitValue(s[0]))
        else previous;
      var colText := s[Clamp(|s| - 2)..];
      var rowText := s[Clamp(|s| - 4)..Clamp(|s| - 2)];
      if rowText == [] then Err(BadInt)
      else Ok(Fields(value, Parse(rowText), Parse(colText)))
  }

  /** On a large board only five- and six-character entries assign a
      value.  An entry below 100 has no row text, so int("") raises; every
      other entry outside [10000, 1000000) parses, and its value is
      whatever the previous entry left (None before the first). */
  lemma ParseItemStale(item: nat, dimension: int, previous: Option<nat>)
    requires dimension >= 10
    ensures item < 100 ==> ParseItem(item, dimension, previous) == Err(BadInt)
    ensures 100 <= item < 10000 || 1000000 <= item ==>
              ParseItem(item, dimension, previous).Ok? &&
              ParseItem(item, dimension, previous).value.value == previous
  {
    var s := Decimal(item);
    var n := |s|;
    ParseDecimal(item);
    ParseBound(s);
    PowMonotone(n);
    if item >= 1 {
      ParseLeadBound(s);
      PowMonotone(n - 1);
    }
    assert item < 100 ==> n <= 2;
    assert 100 <= item < 10000 ==> 3 <= n <= 4;
    assert 1000000 <= item ==> n >= 7;
  }

  /** Splitting a digit string one character from its end splits its
      value by 10. */
  lemma SplitLast1(s: string)
    requires AllDigits(s) && 1 <= |s|
    ensures Parse(s) / 10 == Parse(s[..|s| - 1])
    ensures Parse(s) % 10 == DigitValue(s[|s| - 1])
  {
  }

  /** Splitting a digit string two characters from its end splits its
      value by 100. */
  lemma SplitLast2(s: string)
    requires AllDigits(s) && 2 <= |s|
    ensures Parse(s) / 100 == Parse(s[..|s| - 2])
    ensures Parse(s) % 100 == Parse(s[|s| - 2..])
  {
    var head, tail := s[..|s| - 2], s[|s| - 2..];
    assert s == head + tail;
    ParseAppend(head, tail);
    ParseBound(tail);
    PowMonotone(2);
    assert |tail| == 2 && Pow10(|tail|) == 100;
    DivMod(Parse(s), Parse(head), Parse(tail), 100);
  }

  lemma ParseOne(s: string)
    requires AllDigits(s) && |s| == 1
    ensures Parse(s) == DigitValue(s[0])
  {
    assert s[..0] == [];
  }

  /** Decoding the text of an in-range literal recovers its unpacked
      fields, whatever value an earlier entry left behind. */
  lemma ParseItemLiteral(lit: nat, dimension: int, previous: Option<nat>)
    requires LiteralRange(lit, dimension)
    ensures var t := Unpack(lit, dimension);
            ParseItem(lit, dimension, previous) == Ok(Fields(Some(t.value), t.row, t.col))
  {
    if dimension < 10 {
      ParseItemSmall(lit, dimension, previous);
    } else {
      ParseItemLarge(lit, dimension, previous);
    }
  }

  lemma ParseItemSmall(lit: nat, dimension: int, previous: Option<nat>)
    requires dimension < 10 && 100 <= lit <= 999
    ensures var t := Unpack(lit, dimension);
            ParseItem(lit, dimension, previous) == Ok(Fields(Some(t.value), t.row, t.col))
  {
    var s := Decimal(lit);
    ParseDecimal(lit);
    DecimalWidth(lit);
    var a, b, c := DigitValue(s[0]), DigitValue(s[1]), DigitValue(s[2]);
    assert Parse(s) == Parse(s[..2]) * 10 + c;
    assert s[..2][..1] == s[..1];
    assert Parse(s[..2]) == Parse(s[..1]) * 10 + b;
    ParseOne(s[..1]);
    assert lit == 100 * a + 10 * b + c;
    UnpackFields(a, b, c, dimension);
  }

  lemma ParseItemLarge(lit: nat, dimension: int, previous: Option<nat>)
    requires dimension >= 10 && 10000 <= lit <= 999999
    ensures var t := Unpack(lit, dimension);
            ParseItem(lit, dimension, previous) == Ok(Fields(Some(t.value), t.row, t.col))
  {
    LargeSlices(lit, dimension, previous);
    LargeFields(lit);
    var s := Decimal(lit);
    var n := |s|;
    UnpackFields(Parse(s[..n - 4]), Parse(s[n - 4..n - 2]), Parse(s[n - 2..]), dimension);
  }

  /** On a large board a five- or six-digit entry is read as its leading
      digits, then two row digits, then two column digits. */
  lemma LargeSlices(lit: nat, dimension: int, previous: Option<nat>)
    requires dimension >= 10 && 10000 <= lit <= 999999
    ensures var s := Decimal(lit);
            |s| >= 5 &&
            ParseItem(lit, dimension, previous) ==
              Ok(Fields(Some(Parse(s[..|s| - 4])), Parse(s[|s| - 4..|s| - 2]), Parse(s[|s| - 2..])))
  {
    var s := Decimal(lit);
    ParseDecimal(lit);
    DecimalWidth(lit);
    var n := |s|;
    assert Clamp(n - 2) == n - 2 && Clamp(n - 4) == n - 4;
    if n == 5 {
      ParseOne(s[..1]);
    } else {
      assert s[0..2] == s[..n - 4];
    }
  }

  /** Those three slices carry the positional value of the entry. */
  lemma LargeFields(lit: nat)
    requires 10000 <= lit <= 999999
    ensures var s := Decimal(lit);
            var n := |s|;
            n >= 5 &&
            var v, r, c := Parse(s[..n - 4]), Parse(s[n - 4..n - 2]), Parse(s[n - 2..]);
            r <= 99 && c <= 99 && lit == 10000 * v + 100 * r + c
  {
    ParseDecimal(lit);
    DecimalWidth(lit);
    SplitFields(Decimal(lit));
  }

  /** A digit string of four or more characters is its leading digits,
      then two digits, then two more, read positionally. */
  lemma SplitFields(s: string)
    requires AllDigits(s) && |s| >= 4
    ensures var n := |s|;
            var v, r, c := Parse(s[..n - 4]), Parse(s[n - 4..n - 2]), Parse(s[n - 2..]);
            r <= 99 && c <= 99 && Parse(s) == 10000 * v + 100 * r + c
  {
    var n := |s|;
    var head := s[..n - 2];
    var v, r, c := Parse(s[..n - 4]), Parse(s[n - 4..n - 2]), Parse(s[n - 2..]);
    SplitAt(s, n - 2);
    assert Pow10(|s| - (n - 2)) == 100;
    assert Parse(s) == Parse(head) * 100 + c;
    SplitAt(head, n - 4);
    assert head[..n - 4] == s[..n - 4];
    assert head[n - 4..] == s[n - 4..n - 2];
    assert Pow10(|head| - (n - 4)) == 100;
    assert Parse(head) == v * 100 + r;
    ParseBound(s[n - 2..]);
    ParseBound(s[n - 4..n - 2]);
  }

  /** Cutting a digit string in two splits its value positionally. */
  lemma SplitAt(s: string, k: nat)
    requires AllDigits(s) && k <= |s|
    ensures AllDigits(s[..k]) && AllDigits(s[k..])
    ensures Parse(s) == Parse(s[..k]) * Pow10(|s| - k) + Parse(s[k..])
  {
    assert s == s[..k] + s[k..];
    ParseAppend(s[..k], s[k..]);
  }
}
