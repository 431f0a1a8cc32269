/** The outline page of colorbynumber/numbered_islands.py: a white canvas on
    which every island pixel is painted in the border colour, with the
    island's colour number written at the island's centroid. */
module NumberedIslands {
  import opened Pixels

  /** Coordinate `axis` of a position: 0 is the row, 1 the column. */
  function Coord(p: Pos, axis: nat): int
    requires axis < 2
  {
    if axis == 0 then p.0 else p.1
  }

  /** The sum of one coordinate over a list of positions. */
  function Sum(coords: seq<Pos>, axis: nat): int
    requires axis < 2
  {
    if |coords| == 0 then 0 else Sum(coords[..|coords| - 1], axis) + Coord(coords[|coords| - 1], axis)
  }

  /** The centroid as `_get_centroid` defines it: the floor of the mean row
      and of the mean column (Python `//`; the divisor is positive, where
      Dafny's `/` rounds the same way). */
  function Centroid(coords: seq<Pos>): Pos
    requires |coords| > 0
  {
    (Sum(coords, 0) / |coords|, Sum(coords, 1) / |coords|)
  }

  /** `_get_centroid`: one pass that accumulates the row and column sums, then
      floor-divides each by the number of positions. An empty list divides
      by zero in the program, so callers must pass at least one position. */
  method GetCentroid(coordinates: seq<Pos>) returns (centroid: Pos)
    requires |coordinates| > 0
    ensures centroid == Centroid(coordinates)
  {
    var rowSum, colSum := 0, 0;
    for i := 0 to |coordinates|
      invariant rowSum == Sum(coordinates[..i], 0)
      invariant colSum == Sum(coordinates[..i], 1)
    {
      assert coordinates[..i + 1][..i] == coordinates[..i];
      var (row, col) := coordinates[i];
      rowSum := rowSum + row;
      colSum := colSum + col;
    }
    assert coordinates[..|coordinates|] == coordinates;
    centroid := (rowSum / |coordinates|, colSum / |coordinates|);
  }

  /** If every coordinate lies in `lo..hi`, the sum lies in `n * lo .. n * hi`. */
  lemma {:induction false} SumBetween(coords: seq<Pos>, axis: nat, lo: int, hi: int)
    requires axis < 2
    requires forall i :: 0 <= i < |coords| ==> lo <= Coord(coords[i], axis) <= hi
    ensures |coords| * lo <= Sum(coords, axis) <= |coords| * hi
  {
    if |coords| > 0 {
      var n := |coords| - 1;
      SumBetween(coords[..n], axis, lo, hi);
      assert lo <= Coord(coords[n], axis) <= hi;
      MulSucc(n, lo);
      MulSucc(n, hi);
    }
  }

  lemma MulSucc(n: int, x: int)
    ensures (n + 1) * x == n * x + x
  {
  }

  lemma MulCancel(n: int, a: int, b: int)
    requires n > 0 && n * a < n * b
    ensures a < b
  {
  }

  /** Floor division of a sum that lies in `n * lo .. n * hi` lies in `lo..hi`. */
  lemma DivBetween(s: int, n: int, lo: int, hi: int)
    requires n > 0 && n * lo <= s <= n * hi
    ensures lo <= s / n <= hi
  {
    var q := s / n;
    assert n * q <= s < n * q + n;
    MulSucc(q, n);
    assert n * lo < n * (q + 1);
    MulCancel(n, lo, q + 1);
    assert n * q < n * (hi + 1);
    MulCancel(n, q, hi + 1);
  }

  /** The centroid lies in the bounding box of its positions: each coordinate
      is between the least and the greatest value of that coordinate. */
  lemma CentroidInBox(coords: seq<Pos>, minRow: int, maxRow: int, minCol: int, maxCol: int)
    requires |coords| > 0
    requires forall i :: 0 <= i < |coords| ==> minRow <= coords[i].0 <= maxRow && minCol <= coords[i].1 <= maxCol
    ensures minRow <= Centroid(coords).0 <= maxRow
    ensures minCol <= Centroid(coords).1 <= maxCol
  {
    SumBetween(coords, 0, minRow, maxRow);
    SumBetween(coords, 1, minCol, maxCol);
    DivBetween(Sum(coords, 0), |coords|, minRow, maxRow);
    DivBetween(Sum(coords, 1), |coords|, minCol, maxCol);
  }

  /** The centroid of in-grid positions is in the grid. */
  lemma CentroidInGrid(coords: seq<Pos>, rows: int, cols: int)
    requires |coords| > 0
    requires forall i :: 0 <= i < |coords| ==> InGrid(coords[i], rows, cols)
    ensures InGrid(Centroid(coords), rows, cols)
  {
    CentroidInBox(coords, 0, rows - 1, 0, cols - 1);
  }

  /** Every name among the first `n` islands has a number. */
  ghost predicate AllNamed<L>(islands: seq<Island<L>>, m: map<L, int>, n: int)
    requires n <= |islands|
  {
    forall k :: 0 <= k < n ==> islands[k].name in m
  }

  /** Every number is the 1-based index of an island of that colour among the
      first `n`. */
  ghost predicate NumbersName<L>(islands: seq<Island<L>>, m: map<L, int>, n: int)
    requires n <= |islands|
  {
    forall c :: c in m ==> 1 <= m[c] <= n && islands[m[c] - 1].name == c
  }

  /** No island after the numbered one, among the first `n`, has its colour. */
  ghost predicate NumbersLast<L>(islands: seq<Island<L>>, m: map<L, int>, n: int)
    requires n <= |islands|
  {
    forall c, k :: c in m && 0 <= m[c] <= k < n ==> islands[k].name != c
  }

  /** Numbering island `i` keeps the three facts, one island further. */
  lemma NumberNext<L>(islands: seq<Island<L>>, m: map<L, int>, i: int)
    requires 0 <= i < |islands|
    requires AllNamed(islands, m, i) && NumbersName(islands, m, i) && NumbersLast(islands, m, i)
    ensures var m' := m[islands[i].name := i + 1];
            AllNamed(islands, m', i + 1) && NumbersName(islands, m', i + 1) && NumbersLast(islands, m', i + 1)
  {
    var name := islands[i].name;
    var m' := m[name := i + 1];
    forall c | c in m' && c != name ensures c in m && m'[c] == m[c] {}
    forall k | 0 <= k < i + 1 ensures islands[k].name in m' {
      if k < i {
        assert islands[k].name in m;
      }
    }
    forall c, k | c in m' && 0 <= m'[c] <= k < i + 1 ensures islands[k].name != c {
      if c != name && k < i {
        assert c in m && 0 <= m[c] <= k < i;
      }
    }
  }

  /** The number of each colour: `color_to_number[color] = i + 1` for every
      island in order, so the last island of a colour decides its number. */
  method NumberColors<L>(islands: seq<Island<L>>) returns (colorToNumber: map<L, int>)
    ensures AllNamed(islands, colorToNumber, |islands|)
    ensures NumbersName(islands, colorToNumber, |islands|)
    ensures NumbersLast(islands, colorToNumber, |islands|)
  {
    colorToNumber := map[];
    for i := 0 to |islands|
      invariant AllNamed(islands, colorToNumber, i)
      invariant NumbersName(islands, colorToNumber, i)
      invariant NumbersLast(islands, colorToNumber, i)
    {
      NumberNext(islands, colorToNumber, i);
      colorToNumber := colorToNumber[islands[i].name := i + 1];
    }
  }

  /** One `cv2.putText` call as issued by `_add_text_to_image`: the text, its
      origin as (x, y) = (column, row), the font scale, the colour and the
      stroke thickness. The glyph pixels it draws are not modelled. */
  datatype TextDraw = TextDraw(text: int, origin: (int, int), fontScale: int, color: Rgb, thickness: int)

  /** `_add_text_to_image` with the arguments `create_numbered_islands` gives
      it: font size 1, black, thickness 2, and the (row, column) position
      turned into OpenCV's (x, y) order. */
  function AddTextToImage(text: int, position: Pos): (d: TextDraw)
    ensures d.origin.0 == position.1 && d.origin.1 == position.0
    ensures d.text == text && d.fontScale == 1 && d.color == Rgb(0, 0, 0) && d.thickness == 2
  {
    TextDraw(text, (position.1, position.0), 1, Rgb(0, 0, 0), 2)
  }

  /** Position `p` belongs to one of the first `n` islands. */
  ghost predicate CoveredBy<L>(islands: seq<Island<L>>, n: int, p: Pos)
    requires n <= |islands|
  {
    exists k :: 0 <= k < n && p in islands[k].pixels
  }

  /** Every island is non-empty and inside a `rows` x `cols` grid, as
      `get_islands` produces them. */
  ghost predicate IslandsInGrid<L>(islands: seq<Island<L>>, rows: int, cols: int)
  {
    forall k, i :: 0 <= k < |islands| && 0 <= i < |islands[k].pixels| ==> InGrid(islands[k].pixels[i], rows, cols)
  }

  /** The inner loop of `create_numbered_islands`: writes `borderColor` at
      every position of one island and leaves the other cells alone. */
  method PaintIsland(canvas: array2<Rgb>, island: seq<Pos>, borderColor: Rgb)
    requires forall i :: 0 <= i < |island| ==> InGrid(island[i], canvas.Length0, canvas.Length1)
    modifies canvas
    ensures forall r, c :: 0 <= r < canvas.Length0 && 0 <= c < canvas.Length1 ==>
              canvas[r, c] == if (r, c) in island then borderColor else old(canvas[r, c])
  {
    for j := 0 to |island|
      invariant forall r, c :: 0 <= r < canvas.Length0 && 0 <= c < canvas.Length1 ==>
                  canvas[r, c] == if (r, c) in island[..j] then borderColor else old(canvas[r, c])
    {
      var (row, col) := island[j];
      canvas[row, col] := borderColor;
      assert island[..j + 1] == island[..j] + [island[j]];
    }
    assert island[..|island|] == island;
  }

  /** The first `k + 1` islands cover the first `k` and island `k`. */
  lemma CoveredByNext<L>(islands: seq<Island<L>>, k: int, p: Pos)
    requires 0 <= k < |islands|
    ensures CoveredBy(islands, k + 1, p) <==> CoveredBy(islands, k, p) || p in islands[k].pixels
  {
    if p in islands[k].pixels {
      assert 0 <= k < k + 1 && p in islands[k].pixels;
    }
  }

  /** `create_numbered_islands`: a white `rows` x `cols` canvas; every pixel of
      every island is overwritten with `borderColor`, and for each island the
      number of its colour is written at its centroid. The text drawing is
      returned as the list of `putText` calls in order. */
  method CreateNumberedIslands<L(==)>(islands: seq<Island<L>>, rows: nat, cols: nat, borderColor: Rgb)
    returns (canvas: array2<Rgb>, colorToNumber: map<L, int>, texts: seq<TextDraw>)
    requires forall k :: 0 <= k < |islands| ==> |islands[k].pixels| > 0
    requires IslandsInGrid(islands, rows, cols)
    ensures fresh(canvas)
    ensures canvas.Length0 == rows && canvas.Length1 == cols
    ensures forall r, c :: 0 <= r < rows && 0 <= c < cols ==>
              canvas[r, c] == if CoveredBy(islands, |islands|, (r, c)) then borderColor else White
    ensures forall k :: 0 <= k < |islands| ==> islands[k].name in colorToNumber
    ensures forall c :: c in colorToNumber ==> 1 <= colorToNumber[c] <= |islands|
    // Each colour is numbered 1 + the position of its last island.
    ensures NumbersName(islands, colorToNumber, |islands|)
    ensures NumbersLast(islands, colorToNumber, |islands|)
    ensures |texts| == |islands|
    ensures forall k :: 0 <= k < |islands| ==>
              texts[k] == AddTextToImage(colorToNumber[islands[k].name], Centroid(islands[k].pixels))
  {
    canvas := new Rgb[rows, cols]((r, c) => White);
    colorToNumber := NumberColors(islands);
    texts := DrawIslands(canvas, islands, colorToNumber, borderColor);
    assert Painted(canvas, islands, |islands|, borderColor);
  }

  /** The canvas is white except at the pixels of the first `n` islands,
      which hold `borderColor`. */
  ghost predicate Painted<L>(canvas: array2<Rgb>, islands: seq<Island<L>>, n: int, borderColor: Rgb)
    requires n <= |islands|
    reads canvas
  {
    forall r, c :: 0 <= r < canvas.Length0 && 0 <= c < canvas.Length1 ==>
      canvas[r, c] == if CoveredBy(islands, n, (r, c)) then borderColor else White
  }

  /** Painting island `k` on a canvas painted with the islands before it. */
  method PaintNext<L>(canvas: array2<Rgb>, islands: seq<Island<L>>, k: int, borderColor: Rgb)
    requires 0 <= k < |islands|
    requires IslandsInGrid(islands, canvas.Length0, canvas.Length1)
    requires Painted(canvas, islands, k, borderColor)
    modifies canvas
    ensures Painted(canvas, islands, k + 1, borderColor)
  {
    var island := islands[k].pixels;
    forall i | 0 <= i < |island| ensures InGrid(island[i], canvas.Length0, canvas.Length1) {
      assert InGrid(islands[k].pixels[i], canvas.Length0, canvas.Length1);
    }
    PaintIsland(canvas, island, borderColor);
    forall r, c | 0 <= r < canvas.Length0 && 0 <= c < canvas.Length1
      ensures canvas[r, c] == if CoveredBy(islands, k + 1, (r, c)) then borderColor else White
    {
      CoveredByNext(islands, k, (r, c));
    }
  }

  /** The second loop of `create_numbered_islands`, on a white canvas: each
      island painted in turn and its number written at its centroid. */
  method DrawIslands<L(==)>(canvas: array2<Rgb>, islands: seq<Island<L>>, colorToNumber: map<L, int>, borderColor: Rgb)
    returns (texts: seq<TextDraw>)
    requires forall k :: 0 <= k < |islands| ==> |islands[k].pixels| > 0 && islands[k].name in colorToNumber
    requires IslandsInGrid(islands, canvas.Length0, canvas.Length1)
    requires Painted(canvas, islands, 0, borderColor)
    modifies canvas
    ensures Painted(canvas, islands, |islands|, borderColor)
    ensures TextsAt(islands, colorToNumber, texts, |islands|)
  {
    texts := [];
    for k := 0 to |islands|
      invariant Painted(canvas, islands, k, borderColor)
      invariant TextsAt(islands, colorToNumber, texts, k)
    {
      PaintNext(canvas, islands, k, borderColor);
      var centroid := GetCentroid(islands[k].pixels);
      TextsNext(islands, colorToNumber, texts, k);
      texts := texts + [AddTextToImage(colorToNumber[islands[k].name], centroid)];
    }
  }

  /** `texts` holds, for each of the first `n` islands, the number of its
      colour written at its centroid. */
  ghost predicate TextsAt<L>(islands: seq<Island<L>>, colorToNumber: map<L, int>, texts: seq<TextDraw>, n: int)
    requires 0 <= n <= |islands|
    requires forall k :: 0 <= k < n ==> |islands[k].pixels| > 0 && islands[k].name in colorToNumber
  {
    |texts| == n &&
    forall k :: 0 <= k < n ==>
      texts[k] == AddTextToImage(colorToNumber[islands[k].name], Centroid(islands[k].pixels))
  }

  lemma TextsNext<L>(islands: seq<Island<L>>, colorToNumber: map<L, int>, texts: seq<TextDraw>, n: int)
    requires 0 <= n < |islands|
    requires forall k :: 0 <= k <= n ==> |islands[k].pixels| > 0 && islands[k].name in colorToNumber
    requires TextsAt(islands, colorToNumber, texts, n)
    ensures TextsAt(islands, colorToNumber,
                    texts + [AddTextToImage(colorToNumber[islands[n].name], Centroid(islands[n].pixels))], n + 1)
  {
    var next := texts + [AddTextToImage(colorToNumber[islands[n].name], Centroid(islands[n].pixels))];
    forall k | 0 <= k < n + 1
      ensures next[k] == AddTextToImage(colorToNumber[islands[k].name], Centroid(islands[k].pixels))
    {
      if k < n {
        assert next[k] == texts[k];
      }
    }
  }

  /** The origin of every number written is inside the canvas: the centroid of
      in-grid pixels is in the grid, and the swap puts the column in x and the
      row in y. */
  lemma TextInsideCanvas<L>(islands: seq<Island<L>>, rows: nat, cols: nat, k: int, number: int)
    requires 0 <= k < |islands| && |islands[k].pixels| > 0
    requires IslandsInGrid(islands, rows, cols)
    ensures var d := AddTextToImage(number, Centroid(islands[k].pixels));
            0 <= d.origin.0 < cols && 0 <= d.origin.1 < rows
  {
    var px := islands[k].pixels;
    forall i | 0 <= i < |px| ensures InGrid(px[i], rows, cols) {
      assert InGrid(islands[k].pixels[i], rows, cols);
    }
    CentroidInGrid(px, rows, cols);
  }
}
