// The braille line chart (rices/cadenza/widgets/Kit.js, `brailleLines`), with exact arithmetic.
module Braille {
  import opened Common

  // ----- Dots in a cell -----

  /** The bit of a cell's dot: four rows of two. */
  function Bit(row: nat, column: nat): bv8
    requires row < 4 && column < 2
  {
    if column == 0 then
      if row == 0 then 0x01 else if row == 1 then 0x02 else if row == 2 then 0x04 else 0x40
    else if row == 0 then 0x08 else if row == 1 then 0x10 else if row == 2 then 0x20 else 0x80
  }

  predicate HasDot(cell: bv8, row: nat, column: nat)
    requires row < 4 && column < 2
  {
    cell & Bit(row, column) != 0
  }

  /** The number of a dot, as braille counts them: three of the left column, three of the right, and the two below. */
  function DotNumber(row: nat, column: nat): nat
    requires row < 4 && column < 2
  {
    if row < 3 then 3 * column + row + 1 else 7 + column
  }

  /** Unicode's pattern with one dot, from that dot's number. */
  function OneDot(number: nat): string
    requires 1 <= number <= 8
  {
    ["\U{2801}", "\U{2802}", "\U{2804}", "\U{2808}", "\U{2810}", "\U{2820}", "\U{2840}", "\U{2880}"][number - 1]
  }

  /** A dot is drawn as the pattern that has its number. */
  lemma DotIsNumbered(row: nat, column: nat)
    requires row < 4 && column < 2
    ensures [Glyph(Bit(row, column))] == OneDot(DotNumber(row, column))
    ensures forall r: nat, c: nat :: r < 4 && c < 2 ==>
              (HasDot(Bit(row, column), r, c) <==> DotNumber(r, c) == DotNumber(row, column))
  {
    forall r: nat, c: nat | r < 4 && c < 2
      ensures HasDot(Bit(row, column), r, c) <==> DotNumber(r, c) == DotNumber(row, column)
    {
      OneDotMore(0, row, column, r, c);
      assert 0 | Bit(row, column) == Bit(row, column);
    }
  }

  lemma OneDotMore(cell: bv8, row: nat, column: nat, r: nat, c: nat)
    requires row < 4 && column < 2 && r < 4 && c < 2
    ensures HasDot(cell | Bit(row, column), r, c) <==> HasDot(cell, r, c) || (r == row && c == column)
  {
  }

  function Glyph(cell: bv8): (c: char)
    ensures 0x2800 <= c as int <= 0x28FF
  {
    (0x2800 + cell as int) as char
  }

  /** The dots of a character, none if it is no braille pattern. */
  function CellOf(c: char): bv8 {
    if 0x2800 <= c as int <= 0x28FF then (c as int - 0x2800) as bv8 else 0
  }

  // ----- The series -----

  function Floor(x: real): int { x.Floor }

  function Round(x: real): int { Floor(x + 0.5) }

  function Least(v: seq<real>): (m: real)
    requires v != []
    ensures m in v && forall i :: 0 <= i < |v| ==> m <= v[i]
  {
    if |v| == 1 then v[0]
    else
      var rest := Least(v[..|v| - 1]);
      if v[|v| - 1] < rest then v[|v| - 1] else rest
  }

  function Greatest(v: seq<real>): (m: real)
    requires v != []
    ensures m in v && forall i :: 0 <= i < |v| ==> v[i] <= m
  {
    if |v| == 1 then v[0]
    else
      var rest := Greatest(v[..|v| - 1]);
      if v[|v| - 1] > rest then v[|v| - 1] else rest
  }

  /** Where a column's sample lies in the series. */
  function Position(n: nat, x: nat, width: nat): real
    requires n > 0 && width > 1
  {
    x as real / (width - 1) as real * (n - 1) as real
  }

  lemma PositionIsWithin(n: nat, x: nat, width: nat)
    requires n > 0 && x < width && width > 1
    ensures 0.0 <= Position(n, x, width) <= (n - 1) as real
    ensures 0 <= Floor(Position(n, x, width)) < n
  {
    var part := x as real / (width - 1) as real;
    Quotient(x as real, (width - 1) as real);
    var whole := (n - 1) as real;
    Scaled(part, whole);
    assert Position(n, x, width) == part * whole;
  }

  lemma Scaled(part: real, whole: real)
    requires 0.0 <= part <= 1.0 && whole >= 0.0
    ensures 0.0 <= part * whole <= whole
  {
  }

  function Blend(a: real, b: real, f: real): real { a * (1.0 - f) + b * f }

  /** A column's value: the two points around its place, weighted. */
  function ValueAt(v: seq<real>, x: nat, width: nat): real
    requires v != [] && x < width && width > 1
  {
    PositionIsWithin(|v|, x, width);
    var t := Position(|v|, x, width);
    var a := Floor(t);
    var b := if a + 1 < |v| then a + 1 else |v| - 1;
    var f := t - a as real;
    Blend(v[a], v[b], f)
  }

  /** The row a value is drawn at, counted from the top, before it is kept on the grid. */
  function RawRow(value: real, min: real, span: real, height: nat): int
    requires span != 0.0 && height > 0
  {
    Round((1.0 - (value - min) / span) * (height - 1) as real)
  }

  function Clamped(row: int, height: nat): (r: nat)
    requires height > 0
    ensures r < height
  {
    if row < 0 then 0 else if row > height - 1 then height - 1 else row
  }

  datatype Range = Range(min: real, span: real)

  /** The range drawn: as given, or the series' own; one that is empty counts as one. */
  function RangeOf(v: seq<real>, lo: Option<real>, hi: Option<real>): (r: Range)
    requires v != []
    ensures r.span != 0.0
  {
    var min := if lo.None? then Least(v) else lo.value;
    var max := if hi.None? then Greatest(v) else hi.value;
    Range(min, if max - min == 0.0 then 1.0 else max - min)
  }

  /** Each column's row. */
  function Samples(v: seq<real>, width: nat, height: nat, lo: Option<real>, hi: Option<real>): (ys: seq<nat>)
    requires v != [] && width > 1 && height > 0
    ensures |ys| == width && forall x :: 0 <= x < width ==> ys[x] < height
  {
    var r := RangeOf(v, lo, hi);
    seq(width, x requires 0 <= x < width => Clamped(RawRow(ValueAt(v, x, width), r.min, r.span, height), height))
  }

  // ----- The curve -----

  /** The first row of a column's run: below the last column's sample when the curve falls, else its own. */
  function Top(ys: seq<nat>, x: nat): nat
    requires x < |ys|
  {
    if x == 0 then ys[x] else if ys[x] > ys[x - 1] then ys[x - 1] + 1 else ys[x]
  }

  /** The last row of a column's run: just above the last column's sample when the curve rises further than that. */
  function Bottom(ys: seq<nat>, x: nat): nat
    requires x < |ys|
  {
    if x == 0 || ys[x] > ys[x - 1] then ys[x] else if ys[x - 1] > ys[x] + 1 then ys[x - 1] - 1 else ys[x]
  }

  predicate Lit(ys: seq<nat>, y: nat, x: nat) {
    x < |ys| && Top(ys, x) <= y <= Bottom(ys, x)
  }

  /** What a grid's dots show. */
  predicate Shows(grid: array2<bv8>, y: nat, x: nat)
    requires y < grid.Length0 * 4 && x < grid.Length1 * 2
    reads grid
  {
    HasDot(grid[y / 4, x / 2], y % 4, x % 2)
  }

  ghost predicate ShowsExactly(grid: array2<bv8>, ys: seq<nat>, columns: nat, end: nat)
    reads grid
  {
    forall y: nat, x: nat :: y < grid.Length0 * 4 && x < grid.Length1 * 2 ==>
      (Shows(grid, y, x) <==> (x < columns && Lit(ys, y, x)) || (x == columns && Lit(ys, y, x) && y < end))
  }

  method SetDot(grid: array2<bv8>, y: nat, x: nat)
    requires y < grid.Length0 * 4 && x < grid.Length1 * 2
    modifies grid
    ensures forall b: nat, a: nat :: b < grid.Length0 * 4 && a < grid.Length1 * 2 ==>
              (Shows(grid, b, a) <==> old(Shows(grid, b, a)) || (b == y && a == x))
  {
    var was := grid[y / 4, x / 2];
    grid[y / 4, x / 2] := was | Bit(y % 4, x % 2);
    forall b: nat, a: nat | b < grid.Length0 * 4 && a < grid.Length1 * 2
      ensures Shows(grid, b, a) <==> old(Shows(grid, b, a)) || (b == y && a == x)
    {
      OneDotMore(was, y % 4, x % 2, b % 4, a % 2);
    }
  }

  /** Draws the samples, each column joined to the last. */
  method Draw(grid: array2<bv8>, ys: seq<nat>)
    requires |ys| == grid.Length1 * 2 && forall x :: 0 <= x < |ys| ==> ys[x] < grid.Length0 * 4
    requires forall i, j :: 0 <= i < grid.Length0 && 0 <= j < grid.Length1 ==> grid[i, j] == 0
    modifies grid
    ensures ShowsExactly(grid, ys, |ys|, 0)
  {
    forall y: nat, x: nat | y < grid.Length0 * 4 && x < grid.Length1 * 2 ensures !Shows(grid, y, x) {
    }
    var prev: int := -1;
    for x := 0 to |ys|
      invariant prev == if x == 0 then -1 else ys[x - 1] as int
      invariant ShowsExactly(grid, ys, x, 0)
    {
      var y := ys[x];
      var from := if prev < 0 || y <= prev then y else prev + 1;
      var to := if prev < 0 || y > prev then y else if y > prev - 1 then y else prev - 1;
      assert from == Top(ys, x) && to == Bottom(ys, x);
      var yy := from;
      while yy <= to
        invariant from <= yy <= to + 1
        invariant ShowsExactly(grid, ys, x, yy)
      {
        SetDot(grid, yy, x);
        yy := yy + 1;
      }
      prev := y;
    }
  }

  /** The dots a chart's lines show. */
  predicate Dotted(lines: seq<string>, y: nat, x: nat)
    requires y / 4 < |lines| && x / 2 < |lines[y / 4]|
  {
    HasDot(CellOf(lines[y / 4][x / 2]), y % 4, x % 2)
  }

  /** A chart's size, and that it is all braille patterns. */
  predicate Chart(lines: seq<string>, columns: nat, rows: nat) {
    && |lines| == rows
    && (forall i :: 0 <= i < rows ==> |lines[i]| == columns)
    && (forall i, j :: 0 <= i < rows && 0 <= j < columns ==> 0x2800 <= lines[i][j] as int <= 0x28FF)
  }

  method Print(grid: array2<bv8>) returns (lines: seq<string>)
    ensures Chart(lines, grid.Length1, grid.Length0)
    ensures forall i, j :: 0 <= i < grid.Length0 && 0 <= j < grid.Length1 ==> CellOf(lines[i][j]) == grid[i, j]
  {
    lines := [];
    for i := 0 to grid.Length0
      invariant Chart(lines, grid.Length1, i)
      invariant forall r, c :: 0 <= r < i && 0 <= c < grid.Length1 ==> CellOf(lines[r][c]) == grid[r, c]
    {
      var line := "";
      for j := 0 to grid.Length1
        invariant |line| == j && forall c :: 0 <= c < j ==>
                  0x2800 <= line[c] as int <= 0x28FF && CellOf(line[c]) == grid[i, c]
      {
        line := line + [Glyph(grid[i, j])];
      }
      lines := lines + [line];
    }
  }

  /** `brailleLines`: the lines show the curve's dots and no other; an empty series shows none. */
  method BrailleLines(v: seq<real>, columns: nat, rows: nat, lo: Option<real>, hi: Option<real>)
      returns (lines: seq<string>)
    requires columns > 0 && rows > 0
    ensures Chart(lines, columns, rows)
    ensures forall y: nat, x: nat :: y < rows * 4 && x < columns * 2 ==>
              (Dotted(lines, y, x) <==> v != [] && Lit(Samples(v, columns * 2, rows * 4, lo, hi), y, x))
  {
    var grid := new bv8[rows, columns]((_, _) => 0);
    if v != [] {
      var ys := Samples(v, columns * 2, rows * 4, lo, hi);
      Draw(grid, ys);
    }
    lines := Print(grid);
    forall y: nat, x: nat | y < rows * 4 && x < columns * 2
      ensures Dotted(lines, y, x) <==> v != [] && Lit(Samples(v, columns * 2, rows * 4, lo, hi), y, x)
    {
      assert Dotted(lines, y, x) <==> Shows(grid, y, x);
    }
  }

  // ----- What the chart looks like -----

  /** Each column is one unbroken run that holds its own sample and comes within a row of the last column's. */
  lemma CurveHasNoGap(ys: seq<nat>, x: nat)
    requires x < |ys|
    ensures Lit(ys, ys[x], x)
    ensures forall a: nat, b: nat, c: nat :: a <= b <= c && Lit(ys, a, x) && Lit(ys, c, x) ==> Lit(ys, b, x)
    ensures x > 0 ==> exists y: nat :: Lit(ys, y, x) && ys[x - 1] <= y + 1 && y <= ys[x - 1] + 1
    ensures forall y: nat :: Lit(ys, y, x) && y != ys[x] ==> x > 0 && (ys[x - 1] < y < ys[x] || ys[x] < y < ys[x - 1])
  {
    if x > 0 {
      var near := if ys[x] > ys[x - 1] then Top(ys, x) else Bottom(ys, x);
      assert Lit(ys, near, x);
    }
  }

  /** The first and last columns show the first and last values. */
  lemma EndsAreTheSeries(v: seq<real>, width: nat)
    requires v != [] && width > 1
    ensures ValueAt(v, 0, width) == v[0] && ValueAt(v, width - 1, width) == v[|v| - 1]
  {
    var n := |v|;
    assert Position(n, 0, width) == 0.0;
    assert Position(n, width - 1, width) == (n - 1) as real by {
      assert (width - 1) as real / (width - 1) as real == 1.0;
    }
  }

  /** A column's value lies on the line between the two points of the series around its place. */
  lemma ValueIsBetween(v: seq<real>, x: nat, width: nat) returns (a: nat)
    requires v != [] && x < width && width > 1
    ensures a < |v|
    ensures var place := x as real * (|v| - 1) as real / (width - 1) as real;
            && a as real <= place < a as real + 1.0
            && (a + 1 < |v| ==> ValueAt(v, x, width) == v[a] + (place - a as real) * (v[a + 1] - v[a]))
            && (a + 1 == |v| ==> ValueAt(v, x, width) == v[a])
  {
    PositionIsWithin(|v|, x, width);
    var t := Position(|v|, x, width);
    a := Floor(t);
    PlaceIs(x as real, (|v| - 1) as real, (width - 1) as real);
    var place := x as real * (|v| - 1) as real / (width - 1) as real;
    assert t == place;
    if a + 1 < |v| {
      BlendIsALine(v[a], v[a + 1], t - a as real);
    } else {
      assert a == |v| - 1;
      BlendIsItself(v[a], t - a as real);
    }
  }

  lemma BlendIsItself(a: real, f: real)
    ensures Blend(a, a, f) == a
  {
  }

  lemma PlaceIs(x: real, n: real, w: real)
    requires w > 0.0
    ensures x / w * n == x * n / w
  {
    assert (x / w) * w == x;
    Scale(x / w, n, w);
    assert (x * n / w) * w == x * n;
  }

  lemma Scale(q: real, n: real, w: real)
    ensures q * n * w == q * w * n
  {
  }

  lemma BlendIsALine(a: real, b: real, f: real)
    ensures Blend(a, b, f) == a + f * (b - a)
  {
  }

  /** How far below the top a value lies, in rows: the range's greatest at the top, its least at the bottom. */
  function Depth(value: real, min: real, max: real, height: nat): real
    requires min != max && height > 0
  {
    (max - value) / (max - min) * (height - 1) as real
  }

  /** A value is drawn on the row nearest to where it lies, the lower of two as near; so a greater one is no lower. */
  lemma RowIsNearest(a: real, b: real, min: real, max: real, height: nat)
    requires min < max && height > 0 && a <= b
    ensures var row := RawRow(a, min, max - min, height);
            row as real - 0.5 <= Depth(a, min, max, height) < row as real + 0.5
    ensures RawRow(b, min, max - min, height) <= RawRow(a, min, max - min, height)
  {
    DepthIs(a, min, max, height);
    DepthIs(b, min, max, height);
    var part := (b - a) / (max - min);
    Divided(b - a, max - min);
    NotNegative(part, max - min);
    Product(part, (height - 1) as real);
    Quotients(a - min, b - a, max - min);
    Distributes(1.0 - (b - min) / (max - min), part, (height - 1) as real);
  }

  lemma Distributes(x: real, part: real, scale: real)
    ensures (x + part) * scale == x * scale + part * scale
  {
  }

  lemma DepthIs(value: real, min: real, max: real, height: nat)
    requires min < max && height > 0
    ensures (1.0 - (value - min) / (max - min)) * (height - 1) as real == Depth(value, min, max, height)
  {
    var d := max - min;
    Quotients(value - min, max - value, d);
    Divided(d, d);
    OneQuotient(d / d, 1.0, d);
  }

  lemma NotNegative(p: real, d: real)
    requires d > 0.0 && p * d >= 0.0
    ensures p >= 0.0
  {
  }

  lemma Quotients(a: real, b: real, d: real)
    requires d > 0.0
    ensures a / d + b / d == (a + b) / d
  {
    Divided(a, d);
    Divided(b, d);
    Divided(a + b, d);
    Distributes(a / d, b / d, d);
    OneQuotient(a / d + b / d, (a + b) / d, d);
  }

  lemma Divided(a: real, d: real)
    requires d > 0.0
    ensures a / d * d == a
  {
  }

  lemma OneQuotient(p: real, q: real, d: real)
    requires d > 0.0 && p * d == q * d
    ensures p == q
  {
    assert p * d / d == p && q * d / d == q;
  }

  /** A row on the grid is drawn where it is, and any other on the edge it passes. */
  lemma ClampedIs(row: int, height: nat)
    requires height > 0
    ensures 0 <= row < height ==> Clamped(row, height) == row
    ensures row < 0 ==> Clamped(row, height) == 0
    ensures row >= height ==> Clamped(row, height) == height - 1
  {
  }

  /** The range drawn is from the least given to the greatest, or the series' own; an empty one counts as one. */
  lemma RangeIs(v: seq<real>, lo: Option<real>, hi: Option<real>)
    requires v != []
    ensures var r := RangeOf(v, lo, hi);
            && (lo.Some? ==> r.min == lo.value) && (lo.None? ==> r.min in v && forall m :: m in v ==> r.min <= m)
            && (hi.Some? ==> r.span == if hi.value == r.min then 1.0 else hi.value - r.min)
            && (hi.None? ==> exists m :: m in v && (forall x :: x in v ==> x <= m)
                                         && r.span == if m == r.min then 1.0 else m - r.min)
  {
    assert Greatest(v) in v;
  }

  lemma Product(a: real, b: real)
    requires a >= 0.0 && b >= 0.0
    ensures a * b >= 0.0
  {
  }

  lemma BlendIsBetween(a: real, b: real, f: real, min: real, max: real)
    requires 0.0 <= f <= 1.0 && min <= a <= max && min <= b <= max
    ensures min <= Blend(a, b, f) <= max
  {
    Product(a - min, 1.0 - f);
    Product(b - min, f);
    Product(max - a, 1.0 - f);
    Product(max - b, f);
    assert Blend(a, b, f) - min == (a - min) * (1.0 - f) + (b - min) * f;
    assert max - Blend(a, b, f) == (max - a) * (1.0 - f) + (max - b) * f;
  }

  lemma ValueIsWithin(v: seq<real>, x: nat, width: nat)
    requires v != [] && x < width && width > 1
    ensures Least(v) <= ValueAt(v, x, width) <= Greatest(v)
  {
    PositionIsWithin(|v|, x, width);
    var t := Position(|v|, x, width);
    var a := Floor(t);
    var b := if a + 1 < |v| then a + 1 else |v| - 1;
    BlendIsBetween(v[a], v[b], t - a as real, Least(v), Greatest(v));
  }

  /** A series drawn on its own range is never cut at the grid's edges. */
  lemma OwnRangeIsNeverCut(v: seq<real>, x: nat, width: nat, height: nat)
    requires v != [] && x < width && width > 1 && height > 0
    ensures var r := RangeOf(v, None, None);
            0 <= RawRow(ValueAt(v, x, width), r.min, r.span, height) < height
  {
    var r := RangeOf(v, None, None);
    var value := ValueAt(v, x, width);
    ValueIsWithin(v, x, width);
    var part := (value - r.min) / r.span;
    assert 0.0 <= part <= 1.0 by {
      if Greatest(v) - Least(v) == 0.0 {
        assert value - r.min == 0.0;
      } else {
        Quotient(value - r.min, r.span);
      }
    }
    Scaled(1.0 - part, (height - 1) as real);
  }

  lemma Quotient(a: real, b: real)
    requires 0.0 <= a <= b && b > 0.0
    ensures 0.0 <= a / b <= 1.0
  {
    assert a / b * b == a;
  }
}
