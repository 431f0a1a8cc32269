/** Island labelling of colorbynumber/gen_islands.py: a worklist flood fill
    over a rectangular image with 4-connectivity. */
module GenIslands {
  import opened Pixels

  /** `_is_same_color`: compares the three channels one at a time, folding the
      answers into an accumulator. */
  method IsSameColor(color1: Rgb, color2: Rgb) returns (allSame: bool)
    ensures allSame <==> color1 == color2
  {
    allSame := true;
    for i := 0 to 3
      invariant allSame <==> forall j :: 0 <= j < i ==> color1.Channel(j) == color2.Channel(j)
    {
      allSame := allSame && color1.Channel(i) == color2.Channel(i);
    }
    assert color1.Channel(0) == color1.r && color1.Channel(1) == color1.g && color1.Channel(2) == color1.b;
    assert color2.Channel(0) == color2.r && color2.Channel(1) == color2.g && color2.Channel(2) == color2.b;
  }

  /** 4-adjacency: one step along a row or along a column. */
  predicate Adjacent(p: Pos, q: Pos)
  {
    || (p.0 == q.0 && (q.1 == p.1 - 1 || q.1 == p.1 + 1))
    || (p.1 == q.1 && (q.0 == p.0 - 1 || q.0 == p.0 + 1))
  }

  /** `q` is a 4-neighbour of `p` inside a `rows` x `cols` grid. */
  predicate Neighbor(p: Pos, q: Pos, rows: int, cols: int)
  {
    InGrid(q, rows, cols) && Adjacent(p, q)
  }

  /** The 4-neighbours of `p` that lie in a `rows` x `cols` grid. */
  ghost function Neighbors(p: Pos, rows: int, cols: int): set<Pos>
  {
    set q | q in {(p.0 - 1, p.1), (p.0 + 1, p.1), (p.0, p.1 - 1), (p.0, p.1 + 1)} && InGrid(q, rows, cols)
  }

  /** The neighbour set is exactly the in-grid adjacent positions, and
      adjacency inside the grid is symmetric. */
  lemma NeighborsExactly(p: Pos, q: Pos, rows: int, cols: int)
    ensures q in Neighbors(p, rows, cols) <==> Neighbor(p, q, rows, cols)
    ensures Neighbor(p, q, rows, cols) && InGrid(p, rows, cols) ==> Neighbor(q, p, rows, cols)
  {
  }

  /** At most four neighbours, never the pixel itself, all inside the grid. */
  lemma NeighborsBounded(p: Pos, rows: int, cols: int)
    ensures p !in Neighbors(p, rows, cols) && |Neighbors(p, rows, cols)| <= 4
    ensures forall q :: q in Neighbors(p, rows, cols) ==> InGrid(q, rows, cols)
  {
    var candidates := {(p.0 - 1, p.1), (p.0 + 1, p.1), (p.0, p.1 - 1), (p.0, p.1 + 1)};
    assert |candidates| <= 4;
    SubsetCard(Neighbors(p, rows, cols), candidates);
  }

  lemma SubsetCard<T>(a: set<T>, b: set<T>)
    requires a <= b
    ensures |a| <= |b|
  {
    assert b == a + (b - a);
  }

  /** `_get_neighbors`: adds up, down, left and right when each is in range.
      Only the coordinate that moves is range-checked, so the result is the
      in-grid neighbour set when the pixel itself is in the grid. */
  method GetNeighbors(pixel: Pos, rows: int, cols: int) returns (neighbors: set<Pos>)
    ensures InGrid(pixel, rows, cols) ==> neighbors == Neighbors(pixel, rows, cols)
    ensures forall q :: q in neighbors ==> Adjacent(pixel, q)
  {
    var row, col := pixel.0, pixel.1;
    neighbors := {};
    if row > 0 {
      neighbors := neighbors + {(row - 1, col)};
    }
    if row < rows - 1 {
      neighbors := neighbors + {(row + 1, col)};
    }
    if col > 0 {
      neighbors := neighbors + {(row, col - 1)};
    }
    if col < cols - 1 {
      neighbors := neighbors + {(row, col + 1)};
    }
  }

  /** The colour of an in-grid pixel, `simplified_image[pixel]`. */
  function ColorAt(image: Image, p: Pos): Rgb
    requires Rectangular(image) && InGrid(p, |image|, Cols(image))
  {
    image[p.0][p.1]
  }

  /** Every position of a `rows` x `cols` grid. */
  ghost function AllPixels(rows: int, cols: int): set<Pos>
  {
    set r, c | 0 <= r < rows && 0 <= c < cols :: (r, c)
  }

  /** `q` is 4-adjacent to some pixel of `px`. */
  ghost predicate Touches(px: seq<Pos>, q: Pos)
  {
    exists j :: 0 <= j < |px| && Adjacent(px[j], q)
  }

  /** Pixel `i` of `px` is 4-adjacent to an earlier pixel of `px`. */
  ghost predicate LinkedAt(px: seq<Pos>, i: int)
    requires 0 <= i < |px|
  {
    exists j :: 0 <= j < i && Adjacent(px[j], px[i])
  }

  /** One island as `get_islands` builds it: non-empty, inside the image, of
      one colour, each pixel 4-adjacent to an earlier one, and tagged with the
      name of its seed pixel's colour. */
  ghost predicate WellFormedIsland<L>(image: Image, island: Island<L>, colorName: Rgb -> L)
    requires Rectangular(image)
  {
    var px := island.pixels;
    && |px| > 0
    && (forall i :: 0 <= i < |px| ==> InGrid(px[i], |image|, Cols(image)))
    && (forall i :: 0 <= i < |px| ==> ColorAt(image, px[i]) == ColorAt(image, px[0]))
    && (forall i :: 0 < i < |px| ==> LinkedAt(px, i))
    && island.name == colorName(ColorAt(image, px[0]))
  }

  /** Every pixel of every island lies in the image. */
  ghost predicate PixelsInGrid<L>(image: Image, islands: seq<Island<L>>)
  {
    forall k, i :: 0 <= k < |islands| && 0 <= i < |islands[k].pixels| ==>
      InGrid(islands[k].pixels[i], |image|, Cols(image))
  }

  /** No pixel occurs twice, neither within an island nor across two. */
  ghost predicate PairwiseDisjoint<L>(islands: seq<Island<L>>)
  {
    forall k1, k2, i, j ::
      0 <= k1 < |islands| && 0 <= k2 < |islands| &&
      0 <= i < |islands[k1].pixels| && 0 <= j < |islands[k2].pixels| && (k1, i) != (k2, j)
      ==> islands[k1].pixels[i] != islands[k2].pixels[j]
  }

  /** An in-grid neighbour of the same colour belongs to the same island. */
  ghost predicate Maximal<L>(image: Image, islands: seq<Island<L>>)
    requires Rectangular(image)
    requires PixelsInGrid(image, islands)
  {
    forall k, i, q {:trigger Neighbor(islands[k].pixels[i], q, |image|, Cols(image))} ::
      0 <= k < |islands| && 0 <= i < |islands[k].pixels| &&
      Neighbor(islands[k].pixels[i], q, |image|, Cols(image)) &&
      ColorAt(image, q) == ColorAt(image, islands[k].pixels[i])
      ==> q in islands[k].pixels
  }

  /** Every in-grid pixel belongs to some island. */
  ghost predicate Covers<L>(image: Image, islands: seq<Island<L>>)
  {
    forall p :: InGrid(p, |image|, Cols(image)) ==> exists k :: 0 <= k < |islands| && p in islands[k].pixels
  }

  /** The islands are exactly the 4-connected same-colour regions of the image:
      each is well formed, no pixel is in two places, each is maximal, and
      together they cover the image. */
  ghost predicate IsIslandPartition<L>(image: Image, islands: seq<Island<L>>, colorName: Rgb -> L)
    requires Rectangular(image)
  {
    && (forall k :: 0 <= k < |islands| ==> WellFormedIsland(image, islands[k], colorName))
    && PixelsInGrid(image, islands)
    && PairwiseDisjoint(islands)
    && Maximal(image, islands)
    && Covers(image, islands)
  }

  /** Bookkeeping of the flood fill for finished islands: `owner[p]` is the
      island that holds `p` and `slot[p]` its position in that island. */
  ghost predicate Owned<L>(islands: seq<Island<L>>, owner: map<Pos, int>, slot: map<Pos, int>)
  {
    && owner.Keys == slot.Keys
    && (forall p :: p in owner ==>
          0 <= owner[p] < |islands| && 0 <= slot[p] < |islands[owner[p]].pixels| &&
          islands[owner[p]].pixels[slot[p]] == p)
    && (forall k, i :: 0 <= k < |islands| && 0 <= i < |islands[k].pixels| ==>
          islands[k].pixels[i] in owner && owner[islands[k].pixels[i]] == k && slot[islands[k].pixels[i]] == i)
  }

  /** The same bookkeeping while `island` is still growing as island number
      `|islands|`. */
  ghost predicate OwnedGrowing<L>(islands: seq<Island<L>>, island: seq<Pos>, owner: map<Pos, int>, slot: map<Pos, int>)
  {
    && owner.Keys == slot.Keys
    && (forall p :: p in owner ==>
          || (0 <= owner[p] < |islands| && 0 <= slot[p] < |islands[owner[p]].pixels| &&
              islands[owner[p]].pixels[slot[p]] == p)
          || (owner[p] == |islands| && 0 <= slot[p] < |island| && island[slot[p]] == p))
    && (forall k, i :: 0 <= k < |islands| && 0 <= i < |islands[k].pixels| ==>
          islands[k].pixels[i] in owner && owner[islands[k].pixels[i]] == k && slot[islands[k].pixels[i]] == i)
    && (forall i :: 0 <= i < |island| ==>
          island[i] in owner && owner[island[i]] == |islands| && slot[island[i]] == i)
  }

  lemma OwnedAppend<L>(islands: seq<Island<L>>, name: L, island: seq<Pos>, owner: map<Pos, int>, slot: map<Pos, int>)
    requires OwnedGrowing(islands, island, owner, slot)
    ensures Owned(islands + [Island(name, island)], owner, slot)
  {
    var all := islands + [Island(name, island)];
    forall k, i | 0 <= k < |all| && 0 <= i < |all[k].pixels|
      ensures all[k].pixels[i] in owner && owner[all[k].pixels[i]] == k && slot[all[k].pixels[i]] == i
    {
      if k == |islands| {
        assert all[k].pixels == island;
      } else {
        assert all[k] == islands[k];
      }
    }
    forall p | p in owner
      ensures owner[p] < |all| && slot[p] < |all[owner[p]].pixels| && all[owner[p]].pixels[slot[p]] == p
    {
      if owner[p] == |islands| {
        assert all[owner[p]].pixels == island;
      } else {
        assert all[owner[p]] == islands[owner[p]];
      }
    }
  }

  /** A fresh pixel becomes the seed of island number `|islands|`. */
  lemma OwnedStart<L>(islands: seq<Island<L>>, owner: map<Pos, int>, slot: map<Pos, int>, pixel: Pos)
    requires Owned(islands, owner, slot)
    requires pixel !in owner
    ensures OwnedGrowing(islands, [pixel], owner[pixel := |islands|], slot[pixel := 0])
  {
    var owner', slot' := owner[pixel := |islands|], slot[pixel := 0];
    assert owner'.Keys == slot'.Keys;
    forall p | p in owner'
      ensures || (0 <= owner'[p] < |islands| && 0 <= slot'[p] < |islands[owner'[p]].pixels| &&
                  islands[owner'[p]].pixels[slot'[p]] == p)
              || (owner'[p] == |islands| && 0 <= slot'[p] < 1 && [pixel][slot'[p]] == p)
    {
      if p != pixel {
        assert p in owner && owner'[p] == owner[p] && slot'[p] == slot[p];
      }
    }
    forall k, i | 0 <= k < |islands| && 0 <= i < |islands[k].pixels|
      ensures islands[k].pixels[i] in owner' && owner'[islands[k].pixels[i]] == k && slot'[islands[k].pixels[i]] == i
    {
      assert islands[k].pixels[i] in owner;
    }
  }

  /** Ownership rules out a pixel appearing twice. */
  lemma OwnedDisjoint<L>(islands: seq<Island<L>>, owner: map<Pos, int>, slot: map<Pos, int>)
    requires Owned(islands, owner, slot)
    ensures PairwiseDisjoint(islands)
  {
    forall k1, k2, i, j |
      0 <= k1 < |islands| && 0 <= k2 < |islands| &&
      0 <= i < |islands[k1].pixels| && 0 <= j < |islands[k2].pixels| &&
      islands[k1].pixels[i] == islands[k2].pixels[j]
      ensures (k1, i) == (k2, j)
    {
      var p := islands[k1].pixels[i];
      assert owner[p] == k1 && slot[p] == i;
    }
  }

  lemma InAllPixels(p: Pos, rows: int, cols: int)
    requires InGrid(p, rows, cols)
    ensures p in AllPixels(rows, cols)
  {
    assert p == (p.0, p.1);
  }

  /** The pixels of one row. */
  ghost function RowPixels(r: int, cols: int): set<Pos>
  {
    set c | 0 <= c < cols :: (r, c)
  }

  lemma {:induction false} RowPixelsCard(r: int, cols: nat)
    ensures |RowPixels(r, cols)| == cols
  {
    if cols == 0 {
      assert RowPixels(r, cols) == {};
    } else {
      assert RowPixels(r, cols) == RowPixels(r, cols - 1) + {(r, cols - 1)};
      RowPixelsCard(r, cols - 1);
    }
  }

  /** A `rows` x `cols` grid has `rows * cols` pixels. */
  lemma {:induction false} AllPixelsCard(rows: nat, cols: nat)
    ensures |AllPixels(rows, cols)| == rows * cols
  {
    if rows == 0 {
      assert AllPixels(rows, cols) == {};
    } else {
      var top, last := AllPixels(rows - 1, cols), RowPixels(rows - 1, cols);
      LastRowSplit(rows, cols);
      AllPixelsCard(rows - 1, cols);
      RowPixelsCard(rows - 1, cols);
      assert |top + last| == |top| + |last|;
      MulStep(rows, cols);
    }
  }

  lemma MulStep(rows: int, cols: int)
    ensures (rows - 1) * cols + cols == rows * cols
  {
  }

  /** The grid is the grid without its last row plus that row, and the two
      do not overlap. */
  lemma LastRowSplit(rows: nat, cols: nat)
    requires rows > 0
    ensures AllPixels(rows, cols) == AllPixels(rows - 1, cols) + RowPixels(rows - 1, cols)
    ensures AllPixels(rows - 1, cols) * RowPixels(rows - 1, cols) == {}
  {
    var top, last := AllPixels(rows - 1, cols), RowPixels(rows - 1, cols);
    forall p | p in AllPixels(rows, cols) ensures p in top + last {
      if p.0 < rows - 1 { InAllPixels(p, rows - 1, cols); }
      else { assert p == (rows - 1, p.1); }
    }
    forall p | p in top + last ensures p in AllPixels(rows, cols) {
      InAllPixels(p, rows, cols);
    }
    forall p | p in top ensures p !in last {
    }
  }

  /** A set of pixels that holds (0, 0) and every in-grid neighbour of its
      members holds the whole grid: the grid is 4-connected. */
  lemma {:induction false} ClosedSetCoversGrid(visited: set<Pos>, rows: int, cols: int, p: Pos)
    requires (0, 0) in visited
    requires forall a, b :: a in visited && Neighbor(a, b, rows, cols) ==> b in visited
    requires InGrid(p, rows, cols)
    ensures p in visited
    decreases p.0, p.1
  {
    if p.1 > 0 {
      ClosedSetCoversGrid(visited, rows, cols, (p.0, p.1 - 1));
      assert Neighbor((p.0, p.1 - 1), p, rows, cols);
    } else if p.0 > 0 {
      ClosedSetCoversGrid(visited, rows, cols, (p.0 - 1, p.1));
      assert Neighbor((p.0 - 1, p.1), p, rows, cols);
    }
  }

  /** Every position in `s` lies in the image. */
  ghost predicate Inside(image: Image, s: set<Pos>)
  {
    forall p {:trigger p in s} :: p in s ==> InGrid(p, |image|, Cols(image))
  }

  /** Every island of `islands` is well formed. */
  ghost predicate AllWellFormed<L>(image: Image, islands: seq<Island<L>>, colorName: Rgb -> L)
    requires Rectangular(image)
  {
    forall k {:trigger WellFormedIsland(image, islands[k], colorName)} ::
      0 <= k < |islands| ==> WellFormedIsland(image, islands[k], colorName)
  }

  /** Every in-grid neighbour of a pixel owned by one of the first `cur`
      islands is visited or pending. */
  ghost predicate ClosedBelow(image: Image, cur: int, visited: set<Pos>, stack: set<Pos>, owner: map<Pos, int>)
  {
    forall p, q {:trigger Neighbor(p, q, |image|, Cols(image))} ::
      p in owner && owner[p] < cur && Neighbor(p, q, |image|, Cols(image)) ==> q in visited || q in stack
  }

  /** A same-coloured in-grid neighbour of a pixel owned by one of the first
      `cur` islands has the same owner. */
  ghost predicate MaximalBelow(image: Image, cur: int, owner: map<Pos, int>)
    requires Rectangular(image)
  {
    forall p, q {:trigger Neighbor(p, q, |image|, Cols(image))} ::
      p in owner && owner[p] < cur && Neighbor(p, q, |image|, Cols(image)) &&
      InGrid(p, |image|, Cols(image)) && ColorAt(image, q) == ColorAt(image, p)
      ==> q in owner && owner[q] == owner[p]
  }

  /** Every in-grid neighbour of the growing island is visited, on the
      frontier, or pending as a seed of another colour. */
  ghost predicate ClosedAround(image: Image, island: seq<Pos>, currentColor: Rgb,
                               visited: set<Pos>, stack: set<Pos>, frontier: set<Pos>)
    requires Rectangular(image)
  {
    forall i, q {:trigger Neighbor(island[i], q, |image|, Cols(image))} ::
      0 <= i < |island| && Neighbor(island[i], q, |image|, Cols(image)) ==>
        q in visited || q in frontier || (q in stack && ColorAt(image, q) != currentColor)
  }

  /** Every frontier pixel is adjacent to the growing island. */
  ghost predicate FrontierTouches(island: seq<Pos>, frontier: set<Pos>)
  {
    forall q :: q in frontier ==> Touches(island, q)
  }

  /** What holds between two seeds of `get_islands`: every visited pixel is
      owned by a finished, well-formed island; every neighbour of a visited
      pixel is visited or pending; and same-coloured neighbours share an
      island. */
  ghost predicate BetweenSeeds<L>(image: Image, colorName: Rgb -> L, islands: seq<Island<L>>,
                                  visited: set<Pos>, stack: set<Pos>, owner: map<Pos, int>, slot: map<Pos, int>)
    requires Rectangular(image)
  {
    && SeedBooks(image, colorName, islands, visited, stack, owner, slot)
    && ClosedBelow(image, |islands|, visited, stack, owner)
    && MaximalBelow(image, |islands|, owner)
  }

  /** The bookkeeping half of `BetweenSeeds`. */
  ghost predicate SeedBooks<L>(image: Image, colorName: Rgb -> L, islands: seq<Island<L>>,
                               visited: set<Pos>, stack: set<Pos>, owner: map<Pos, int>, slot: map<Pos, int>)
    requires Rectangular(image)
  {
    && visited == owner.Keys
    && Inside(image, visited)
    && Inside(image, stack)
    && ((0, 0) in visited || (0, 0) in stack)
    && |islands| <= |visited|
    && Owned(islands, owner, slot)
    && AllWellFormed(image, islands, colorName)
  }


  /** What holds while `island` grows from its seed `island[0]`: finished
      islands keep their properties; every neighbour of the growing island is
      visited, still on the frontier `frontier` (`neighbor_stack`), or pending
      as a seed of another colour; and the frontier touches the island. */
  ghost predicate Growing<L>(image: Image, colorName: Rgb -> L, islands: seq<Island<L>>, island: seq<Pos>,
                             currentColor: Rgb, visited: set<Pos>, stack: set<Pos>, frontier: set<Pos>,
                             owner: map<Pos, int>, slot: map<Pos, int>)
    requires Rectangular(image)
  {
    && GrowingBooks(image, colorName, islands, island, currentColor, visited, stack, frontier, owner, slot)
    && GrowingClosed(image, |islands|, island, currentColor, visited, stack, frontier, owner)
  }

  /** The bookkeeping half of `Growing`. */
  ghost predicate GrowingBooks<L>(image: Image, colorName: Rgb -> L, islands: seq<Island<L>>, island: seq<Pos>,
                                  currentColor: Rgb, visited: set<Pos>, stack: set<Pos>, frontier: set<Pos>,
                                  owner: map<Pos, int>, slot: map<Pos, int>)
    requires Rectangular(image)
  {
    && SetBooks(image, |islands|, visited, stack, frontier, owner)
    && IslandBooks(image, colorName, islands, island, currentColor, owner, slot)
  }

  /** The worklist sets lie in the image, the visited set is what is owned,
      and the current island has a seed of its own. */
  ghost predicate SetBooks(image: Image, cur: int, visited: set<Pos>, stack: set<Pos>, frontier: set<Pos>,
                           owner: map<Pos, int>)
  {
    && visited == owner.Keys
    && Inside(image, visited)
    && Inside(image, stack)
    && Inside(image, frontier)
    && ((0, 0) in visited || (0, 0) in stack)
    && cur < |visited|
  }

  /** Finished islands and the growing one are well formed and recorded. */
  ghost predicate IslandBooks<L>(image: Image, colorName: Rgb -> L, islands: seq<Island<L>>, island: seq<Pos>,
                                 currentColor: Rgb, owner: map<Pos, int>, slot: map<Pos, int>)
    requires Rectangular(image)
  {
    && AllWellFormed(image, islands, colorName)
    && WellFormedIsland(image, Island(colorName(currentColor), island), colorName)
    && currentColor == ColorAt(image, island[0])
    && OwnedGrowing(islands, island, owner, slot)
  }


  /** The closure half of `Growing`: where the neighbours of owned pixels are. */
  ghost predicate GrowingClosed(image: Image, cur: int, island: seq<Pos>, currentColor: Rgb,
                                visited: set<Pos>, stack: set<Pos>, frontier: set<Pos>, owner: map<Pos, int>)
    requires Rectangular(image)
  {
    && ClosedBelow(image, cur, visited, stack, owner)
    && ClosedAround(image, island, currentColor, visited, stack, frontier)
    && MaximalBelow(image, cur, owner)
    && FrontierTouches(island, frontier)
  }


  /** Popping an unvisited seed starts a new island from it. */
  lemma StartIsland<L>(image: Image, colorName: Rgb -> L, islands: seq<Island<L>>,
                       visited: set<Pos>, stack: set<Pos>, owner: map<Pos, int>, slot: map<Pos, int>, pixel: Pos)
    requires Rectangular(image)
    requires BetweenSeeds(image, colorName, islands, visited, stack, owner, slot)
    requires pixel in stack && pixel !in visited
    ensures InGrid(pixel, |image|, Cols(image))
    ensures Growing(image, colorName, islands, [pixel], ColorAt(image, pixel), visited + {pixel}, stack - {pixel},
                    Neighbors(pixel, |image|, Cols(image)), owner[pixel := |islands|], slot[pixel := 0])
  {
    StartBooks(image, colorName, islands, visited, stack, owner, slot, pixel);
    var cur := |islands|;
    ClosedBelowStart(image, cur, visited, stack, owner, pixel);
    MaximalBelowStart(image, cur, owner, pixel);
    SeedSurrounded(image, pixel, ColorAt(image, pixel), visited + {pixel}, stack - {pixel});
  }

  lemma StartBooks<L>(image: Image, colorName: Rgb -> L, islands: seq<Island<L>>,
                      visited: set<Pos>, stack: set<Pos>, owner: map<Pos, int>, slot: map<Pos, int>, pixel: Pos)
    requires Rectangular(image)
    requires SeedBooks(image, colorName, islands, visited, stack, owner, slot)
    requires pixel in stack && pixel !in visited
    ensures InGrid(pixel, |image|, Cols(image))
    ensures GrowingBooks(image, colorName, islands, [pixel], ColorAt(image, pixel), visited + {pixel}, stack - {pixel},
                         Neighbors(pixel, |image|, Cols(image)), owner[pixel := |islands|], slot[pixel := 0])
  {
    StartSets(image, |islands|, visited, stack, owner, pixel);
    SeedWellFormed(image, colorName, pixel);
    OwnedStart(islands, owner, slot, pixel);
  }

  lemma StartSets(image: Image, cur: int, visited: set<Pos>, stack: set<Pos>, owner: map<Pos, int>, pixel: Pos)
    requires visited == owner.Keys && Inside(image, visited) && Inside(image, stack)
    requires (0, 0) in visited || (0, 0) in stack
    requires cur <= |visited|
    requires pixel in stack && pixel !in visited
    ensures InGrid(pixel, |image|, Cols(image))
    ensures SetBooks(image, cur, visited + {pixel}, stack - {pixel}, Neighbors(pixel, |image|, Cols(image)),
                     owner[pixel := cur])
  {
    NeighborsBounded(pixel, |image|, Cols(image));
    AddFreshCard(visited, pixel);
  }

  lemma RemoveCard<T>(s: set<T>, x: T)
    requires x in s
    ensures |s - {x}| == |s| - 1
  {
  }

  lemma AddFreshCard<T>(s: set<T>, x: T)
    requires x !in s
    ensures |s + {x}| == |s| + 1
  {
  }

  /** A single in-grid pixel is a well-formed island. */
  lemma SeedWellFormed<L>(image: Image, colorName: Rgb -> L, pixel: Pos)
    requires Rectangular(image) && InGrid(pixel, |image|, Cols(image))
    ensures WellFormedIsland(image, Island(colorName(ColorAt(image, pixel)), [pixel]), colorName)
  {
  }

  lemma ClosedBelowStart(image: Image, cur: int, visited: set<Pos>, stack: set<Pos>, owner: map<Pos, int>, pixel: Pos)
    requires ClosedBelow(image, cur, visited, stack, owner)
    requires pixel in stack
    ensures ClosedBelow(image, cur, visited + {pixel}, stack - {pixel}, owner[pixel := cur])
  {
    var owner' := owner[pixel := cur];
    forall p, q | p in owner' && owner'[p] < cur && Neighbor(p, q, |image|, Cols(image))
      ensures q in visited + {pixel} || q in stack - {pixel}
    {
      assert p in owner && owner[p] < cur;
    }
  }

  lemma MaximalBelowStart(image: Image, cur: int, owner: map<Pos, int>, pixel: Pos)
    requires Rectangular(image)
    requires MaximalBelow(image, cur, owner)
    requires pixel !in owner
    ensures MaximalBelow(image, cur, owner[pixel := cur])
  {
    var owner' := owner[pixel := cur];
    forall p, q |
      p in owner' && owner'[p] < cur && Neighbor(p, q, |image|, Cols(image)) &&
      InGrid(p, |image|, Cols(image)) && ColorAt(image, q) == ColorAt(image, p)
      ensures q in owner' && owner'[q] == owner'[p]
    {
      assert p in owner && owner[p] < cur;
    }
  }

  /** A seed's whole neighbourhood is its first frontier. */
  lemma SeedSurrounded(image: Image, pixel: Pos, color: Rgb, visited: set<Pos>, stack: set<Pos>)
    requires Rectangular(image)
    ensures ClosedAround(image, [pixel], color, visited, stack, Neighbors(pixel, |image|, Cols(image)))
    ensures FrontierTouches([pixel], Neighbors(pixel, |image|, Cols(image)))
  {
    var rows, cols := |image|, Cols(image);
    forall i, q | 0 <= i < 1 && Neighbor([pixel][i], q, rows, cols) ensures q in Neighbors(pixel, rows, cols) {
      NeighborsExactly(pixel, q, rows, cols);
    }
    forall q | q in Neighbors(pixel, rows, cols) ensures Touches([pixel], q) {
      NeighborsExactly(pixel, q, rows, cols);
      assert Adjacent([pixel][0], q);
    }
  }

  /** A frontier pixel that is already visited is dropped. */
  lemma SkipVisited<L>(image: Image, colorName: Rgb -> L, islands: seq<Island<L>>, island: seq<Pos>,
                       currentColor: Rgb, visited: set<Pos>, stack: set<Pos>, frontier: set<Pos>,
                       owner: map<Pos, int>, slot: map<Pos, int>, n: Pos)
    requires Rectangular(image)
    requires Growing(image, colorName, islands, island, currentColor, visited, stack, frontier, owner, slot)
    requires n in frontier && n in visited
    ensures Growing(image, colorName, islands, island, currentColor, visited, stack, frontier - {n}, owner, slot)
  {
  }

  /** A frontier pixel of another colour is pushed as a future seed. */
  lemma Defer<L>(image: Image, colorName: Rgb -> L, islands: seq<Island<L>>, island: seq<Pos>,
                 currentColor: Rgb, visited: set<Pos>, stack: set<Pos>, frontier: set<Pos>,
                 owner: map<Pos, int>, slot: map<Pos, int>, n: Pos)
    requires Rectangular(image)
    requires Growing(image, colorName, islands, island, currentColor, visited, stack, frontier, owner, slot)
    requires n in frontier && n !in visited && ColorAt(image, n) != currentColor
    ensures Growing(image, colorName, islands, island, currentColor, visited, stack + {n}, frontier - {n} - visited, owner, slot)
  {
  }

  /** A frontier pixel of the island's colour joins the island, and its
      neighbours join the frontier. */
  lemma Absorb<L>(image: Image, colorName: Rgb -> L, islands: seq<Island<L>>, island: seq<Pos>,
                  currentColor: Rgb, visited: set<Pos>, stack: set<Pos>, frontier: set<Pos>,
                  owner: map<Pos, int>, slot: map<Pos, int>, n: Pos)
    requires Rectangular(image)
    requires Growing(image, colorName, islands, island, currentColor, visited, stack, frontier, owner, slot)
    requires n in frontier && n !in visited && ColorAt(image, n) == currentColor
    ensures Growing(image, colorName, islands, island + [n], currentColor, visited + {n}, stack,
                    (frontier - {n} + Neighbors(n, |image|, Cols(image))) - (visited + {n}),
                    owner[n := |islands|], slot[n := |island|])
  {
    AbsorbBooks(image, colorName, islands, island, currentColor, visited, stack, frontier, owner, slot, n);
    var cur, frontier' := |islands|, (frontier - {n} + Neighbors(n, |image|, Cols(image))) - (visited + {n});
    ClosedBelowGrow(image, cur, visited, stack, owner, n);
    MaximalBelowStart(image, cur, owner, n);
    ClosedAroundGrow(image, island, currentColor, visited, stack, frontier, n);
    FrontierTouchesGrow(image, island, frontier, visited, n);
  }

  lemma AbsorbBooks<L>(image: Image, colorName: Rgb -> L, islands: seq<Island<L>>, island: seq<Pos>,
                       currentColor: Rgb, visited: set<Pos>, stack: set<Pos>, frontier: set<Pos>,
                       owner: map<Pos, int>, slot: map<Pos, int>, n: Pos)
    requires Rectangular(image)
    requires GrowingBooks(image, colorName, islands, island, currentColor, visited, stack, frontier, owner, slot)
    requires FrontierTouches(island, frontier)
    requires n in frontier && n !in visited && ColorAt(image, n) == currentColor
    ensures GrowingBooks(image, colorName, islands, island + [n], currentColor, visited + {n}, stack,
                         (frontier - {n} + Neighbors(n, |image|, Cols(image))) - (visited + {n}),
                         owner[n := |islands|], slot[n := |island|])
  {
    NeighborsBounded(n, |image|, Cols(image));
    IslandGrows(image, colorName, Island(colorName(currentColor), island), n);
    OwnedExtend(islands, island, owner, slot, n);
  }

  /** Appending a same-coloured pixel adjacent to the island keeps it well formed. */
  lemma IslandGrows<L>(image: Image, colorName: Rgb -> L, island: Island<L>, n: Pos)
    requires Rectangular(image) && WellFormedIsland(image, island, colorName)
    requires InGrid(n, |image|, Cols(image)) && ColorAt(image, n) == ColorAt(image, island.pixels[0])
    requires Touches(island.pixels, n)
    ensures WellFormedIsland(image, Island(island.name, island.pixels + [n]), colorName)
  {
    var px, px' := island.pixels, island.pixels + [n];
    forall i | 0 < i < |px'| ensures LinkedAt(px', i) {
      if i < |px| {
        assert LinkedAt(px, i);
        var j :| 0 <= j < i && Adjacent(px[j], px[i]);
        assert px'[j] == px[j] && px'[i] == px[i];
      } else {
        var j :| 0 <= j < |px| && Adjacent(px[j], n);
        assert px'[j] == px[j];
      }
    }
  }

  /** A fresh pixel joins the growing island at its end. */
  lemma OwnedExtend<L>(islands: seq<Island<L>>, island: seq<Pos>, owner: map<Pos, int>, slot: map<Pos, int>, n: Pos)
    requires OwnedGrowing(islands, island, owner, slot)
    requires n !in owner
    ensures OwnedGrowing(islands, island + [n], owner[n := |islands|], slot[n := |island|])
  {
    var island', owner', slot' := island + [n], owner[n := |islands|], slot[n := |island|];
    assert owner'.Keys == slot'.Keys;
    forall p | p in owner'
      ensures || (0 <= owner'[p] < |islands| && 0 <= slot'[p] < |islands[owner'[p]].pixels| &&
                  islands[owner'[p]].pixels[slot'[p]] == p)
              || (owner'[p] == |islands| && 0 <= slot'[p] < |island'| && island'[slot'[p]] == p)
    {
      if p != n {
        assert p in owner && owner'[p] == owner[p] && slot'[p] == slot[p];
      }
    }
    forall k, i | 0 <= k < |islands| && 0 <= i < |islands[k].pixels|
      ensures islands[k].pixels[i] in owner' && owner'[islands[k].pixels[i]] == k && slot'[islands[k].pixels[i]] == i
    {
      assert islands[k].pixels[i] in owner;
    }
    forall i | 0 <= i < |island'|
      ensures island'[i] in owner' && owner'[island'[i]] == |islands| && slot'[island'[i]] == i
    {
      if i < |island| {
        assert island'[i] == island[i] && island[i] in owner;
      }
    }
  }

  lemma ClosedBelowGrow(image: Image, cur: int, visited: set<Pos>, stack: set<Pos>, owner: map<Pos, int>, n: Pos)
    requires ClosedBelow(image, cur, visited, stack, owner)
    ensures ClosedBelow(image, cur, visited + {n}, stack, owner[n := cur])
  {
    var owner' := owner[n := cur];
    forall p, q | p in owner' && owner'[p] < cur && Neighbor(p, q, |image|, Cols(image))
      ensures q in visited + {n} || q in stack
    {
      assert p in owner && owner[p] < cur;
    }
  }

  /** After `n` joins, its neighbours are on the frontier unless visited, and
      `n` itself leaves the frontier for the visited set. */
  lemma ClosedAroundGrow(image: Image, island: seq<Pos>, currentColor: Rgb,
                         visited: set<Pos>, stack: set<Pos>, frontier: set<Pos>, n: Pos)
    requires Rectangular(image)
    requires ClosedAround(image, island, currentColor, visited, stack, frontier)
    ensures ClosedAround(image, island + [n], currentColor, visited + {n}, stack,
                         (frontier - {n} + Neighbors(n, |image|, Cols(image))) - (visited + {n}))
  {
    var rows, cols, island' := |image|, Cols(image), island + [n];
    var frontier' := (frontier - {n} + Neighbors(n, rows, cols)) - (visited + {n});
    forall i, q | 0 <= i < |island'| && Neighbor(island'[i], q, rows, cols)
      ensures q in visited + {n} || q in frontier' || (q in stack && ColorAt(image, q) != currentColor)
    {
      if i < |island| {
        assert island'[i] == island[i];
        assert Neighbor(island[i], q, rows, cols);
      } else {
        NeighborsExactly(n, q, rows, cols);
      }
    }
  }

  lemma FrontierTouchesGrow(image: Image, island: seq<Pos>, frontier: set<Pos>, visited: set<Pos>, n: Pos)
    requires FrontierTouches(island, frontier)
    ensures FrontierTouches(island + [n], (frontier - {n} + Neighbors(n, |image|, Cols(image))) - (visited + {n}))
  {
    var island' := island + [n];
    forall q | q in (frontier - {n} + Neighbors(n, |image|, Cols(image))) - (visited + {n})
      ensures Touches(island', q)
    {
      if q in frontier {
        assert Touches(island, q);
        var j :| 0 <= j < |island| && Adjacent(island[j], q);
        assert island'[j] == island[j];
      } else {
        NeighborsExactly(n, q, |image|, Cols(image));
        assert island'[|island|] == n;
      }
    }
  }

  /** An island whose frontier is empty is finished: it is maximal, and the
      seeds that remain are the pending pixels not yet visited. */
  lemma FinishIsland<L>(image: Image, colorName: Rgb -> L, islands: seq<Island<L>>, island: seq<Pos>,
                        currentColor: Rgb, visited: set<Pos>, stack: set<Pos>,
                        owner: map<Pos, int>, slot: map<Pos, int>)
    requires Rectangular(image)
    requires Growing(image, colorName, islands, island, currentColor, visited, stack, {}, owner, slot)
    ensures BetweenSeeds(image, colorName, islands + [Island(colorName(currentColor), island)],
                         visited, stack - visited, owner, slot)
  {
    var rows, cols, cur := |image|, Cols(image), |islands|;
    forall i, q | 0 <= i < |island| && Neighbor(island[i], q, rows, cols) && ColorAt(image, q) == currentColor
      ensures q in owner && owner[q] == cur
    {
      NeighborsExactly(island[i], q, rows, cols);
    }
    OwnedAppend(islands, colorName(currentColor), island, owner, slot);
  }

  /** With no seed left, the islands partition the image. */
  lemma Finish<L>(image: Image, colorName: Rgb -> L, islands: seq<Island<L>>,
                  visited: set<Pos>, owner: map<Pos, int>, slot: map<Pos, int>)
    requires Rectangular(image)
    requires BetweenSeeds(image, colorName, islands, visited, {}, owner, slot)
    ensures IsIslandPartition(image, islands, colorName)
    ensures |islands| <= |image| * Cols(image)
  {
    var rows, cols := |image|, Cols(image);
    forall p | InGrid(p, rows, cols)
      ensures p in owner && islands[owner[p]].pixels[slot[p]] == p
    {
      ClosedSetCoversGrid(visited, rows, cols, p);
    }
    OwnedDisjoint(islands, owner, slot);
    var all := AllPixels(rows, cols);
    forall p | p in visited ensures p in all {
      InAllPixels(p, rows, cols);
    }
    SubsetCard(visited, all);
    AllPixelsCard(rows, cols);
  }

  /** Adding at least `x` to `v` shrinks what is left of `all`. */
  lemma RemainingShrinks<T>(all: set<T>, v: set<T>, v': set<T>, x: T)
    requires x in all && x !in v && v + {x} <= v'
    ensures |all - v'| < |all - v|
  {
    SubsetCard(all - v', (all - v) - {x});
  }

  /** The inner loop of `get_islands`: pops frontier pixels until the
      frontier is empty, absorbing those of the island's colour (and adding
      their neighbours to the frontier) and pushing the others as future
      seeds. */
  method GrowIsland<L>(image: Image, colorName: Rgb -> L, ghost islands: seq<Island<L>>, island0: seq<Pos>,
                       currentColor: Rgb, visited0: set<Pos>, stack0: set<Pos>, frontier0: set<Pos>,
                       ghost owner0: map<Pos, int>, ghost slot0: map<Pos, int>)
    returns (island: seq<Pos>, visitedPixels: set<Pos>, stackToVisit: set<Pos>,
             ghost owner: map<Pos, int>, ghost slot: map<Pos, int>)
    requires Rectangular(image)
    requires Growing(image, colorName, islands, island0, currentColor, visited0, stack0, frontier0, owner0, slot0)
    ensures Growing(image, colorName, islands, island, currentColor, visitedPixels, stackToVisit, {}, owner, slot)
    ensures visited0 <= visitedPixels
  {
    var rows, cols := |image|, Cols(image);
    ghost var all := AllPixels(rows, cols);
    island, visitedPixels, stackToVisit, owner, slot := island0, visited0, stack0, owner0, slot0;
    var neighborStack := frontier0;
    while |neighborStack| > 0
      invariant Growing(image, colorName, islands, island, currentColor, visitedPixels, stackToVisit,
                        neighborStack, owner, slot)
      invariant visited0 <= visitedPixels
      decreases |all - visitedPixels|, |neighborStack|
    {
      var neighbor :| neighbor in neighborStack;
      if neighbor in visitedPixels {
        SkipVisited(image, colorName, islands, island, currentColor, visitedPixels, stackToVisit,
                    neighborStack, owner, slot, neighbor);
        RemoveCard(neighborStack, neighbor);
        neighborStack := neighborStack - {neighbor};
        continue;
      }
      var same := IsSameColor(image[neighbor.0][neighbor.1], currentColor);
      if same {
        Absorb(image, colorName, islands, island, currentColor, visitedPixels, stackToVisit,
               neighborStack, owner, slot, neighbor);
        InAllPixels(neighbor, rows, cols);
        RemainingShrinks(all, visitedPixels, visitedPixels + {neighbor}, neighbor);
        neighborStack := neighborStack - {neighbor};
        owner, slot := owner[neighbor := |islands|], slot[neighbor := |island|];
        island := island + [neighbor];
        visitedPixels := visitedPixels + {neighbor};
        var more := GetNeighbors(neighbor, rows, cols);
        neighborStack := neighborStack + more;
      } else {
        Defer(image, colorName, islands, island, currentColor, visitedPixels, stackToVisit,
              neighborStack, owner, slot, neighbor);
        SubsetCard(neighborStack - {neighbor} - visitedPixels, neighborStack - {neighbor});
        RemoveCard(neighborStack, neighbor);
        neighborStack := neighborStack - {neighbor};
        stackToVisit := stackToVisit + {neighbor};
      }
      neighborStack := neighborStack - visitedPixels;
    }
  }

  /** `get_islands`: a flood fill that takes an arbitrary pending seed, grows an
      island from it through same-coloured 4-neighbours, and pushes every
      differently coloured neighbour as a future seed. `colorName` is the
      lookup `color_list[...]` applied to the seed's colour. An image without
      pixels fails when pixel (0, 0) is read. */
  method GetIslands<L>(image: Image, colorName: Rgb -> L) returns (r: Result<seq<Island<L>>>)
    requires Rectangular(image)
    ensures r.Failure? <==> |image| == 0 || Cols(image) == 0
    ensures r.Success? ==> IsIslandPartition(image, r.value, colorName)
    ensures r.Success? ==> |r.value| <= |image| * Cols(image)
  {
    var rows, cols := |image|, Cols(image);
    if rows == 0 || cols == 0 {
      return Failure(EmptyImage);
    }
    ghost var all := AllPixels(rows, cols);
    var islands: seq<Island<L>> := [];
    var visitedPixels: set<Pos> := {};
    var stackToVisit: set<Pos> := {(0, 0)};
    ghost var owner: map<Pos, int> := map[];
    ghost var slot: map<Pos, int> := map[];
    while stackToVisit != {}
      invariant BetweenSeeds(image, colorName, islands, visitedPixels, stackToVisit, owner, slot)
      decreases |all - visitedPixels|, |stackToVisit|
    {
      var pixel :| pixel in stackToVisit;
      if pixel in visitedPixels {
        RemoveCard(stackToVisit, pixel);
        stackToVisit := stackToVisit - {pixel};
        continue;
      }
      StartIsland(image, colorName, islands, visitedPixels, stackToVisit, owner, slot, pixel);
      var currentColor := image[pixel.0][pixel.1];
      var neighborStack := GetNeighbors(pixel, rows, cols);
      var island, visited', stack';
      island, visited', stack', owner, slot :=
        GrowIsland(image, colorName, islands, [pixel], currentColor, visitedPixels + {pixel}, stackToVisit - {pixel},
                   neighborStack, owner[pixel := |islands|], slot[pixel := 0]);
      InAllPixels(pixel, rows, cols);
      RemainingShrinks(all, visitedPixels, visited', pixel);
      FinishIsland(image, colorName, islands, island, currentColor, visited', stack', owner, slot);
      islands := islands + [Island(colorName(currentColor), island)];
      visitedPixels := visited';
      stackToVisit := stack' - visitedPixels;
    }
    Finish(image, colorName, islands, visitedPixels, owner, slot);
    return Success(islands);
  }
}
