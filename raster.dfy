/**
  Elevation rasters as the orchestrator sees them through a masked read of
  band 1: each pixel is either masked (nodata) or holds an elevation. Pixels
  are kept in one row-major sequence, so the raster's `size` is its length.
  Elevations are whole metres here; the source reads floating-point values.

  Two readers summarise a raster (`get_dem_stats` answers None for a fully
  masked raster, `display_dem_info` answers all zeros), and the merge step
  composites same-grid tiles by keeping the highest elevation per pixel.
*/
module Raster {

  import opened Wrappers

  datatype Cell = NoData | Elev(height: int)

  /** `data.mask.all()`. */
  predicate AllMasked(cells: seq<Cell>)
  {
    forall k :: 0 <= k < |cells| ==> cells[k].NoData?
  }

  /** `(~data.mask).sum()`: how many pixels hold an elevation. */
  function CountValid(cells: seq<Cell>): (n: nat)
    ensures n <= |cells|
    ensures n == 0 <==> AllMasked(cells)
    ensures |cells| == 1 ==> (n == 1 <==> cells[0].Elev?)
  {
    if cells == [] then 0
    else (if cells[0].Elev? then 1 else 0) + CountValid(cells[1..])
  }

  /** Counting valid pixels adds up over a split of the raster, so with the
      one-pixel case the count is the number of pixels holding an elevation. */
  lemma {:induction false} CountValidAppend(a: seq<Cell>, b: seq<Cell>)
    ensures CountValid(a + b) == CountValid(a) + CountValid(b)
  {
    if a != [] {
      assert (a + b)[1..] == a[1..] + b;
      CountValidAppend(a[1..], b);
    } else {
      assert a + b == b;
    }
  }

  /** `data.min()` over the unmasked pixels. */
  function MinValid(cells: seq<Cell>): (m: int)
    requires !AllMasked(cells)
    ensures exists k :: 0 <= k < |cells| && cells[k] == Elev(m)
    ensures forall k :: 0 <= k < |cells| && cells[k].Elev? ==> m <= cells[k].height
  {
    var rest := cells[1..];
    if cells[0].NoData? then
      assert forall k :: 0 <= k < |rest| ==> rest[k] == cells[k + 1];
      MinValid(rest)
    else if AllMasked(rest) then
      cells[0].height
    else
      var r := MinValid(rest);
      if cells[0].height <= r then cells[0].height else r
  }

  /** `data.max()` over the unmasked pixels. */
  function MaxValid(cells: seq<Cell>): (m: int)
    requires !AllMasked(cells)
    ensures exists k :: 0 <= k < |cells| && cells[k] == Elev(m)
    ensures forall k :: 0 <= k < |cells| && cells[k].Elev? ==> cells[k].height <= m
  {
    var rest := cells[1..];
    if cells[0].NoData? then
      assert forall k :: 0 <= k < |rest| ==> rest[k] == cells[k + 1];
      MaxValid(rest)
    else if AllMasked(rest) then
      cells[0].height
    else
      var r := MaxValid(rest);
      if cells[0].height >= r then cells[0].height else r
  }

  /** The integer part of `get_dem_stats`' dictionary. */
  datatype DemStats = DemStats(minElevation: int, maxElevation: int, validPixels: nat, totalPixels: nat)

  /** `get_dem_stats`: None when the file cannot be read (`raster` is None) or
      when every pixel is masked; otherwise the range of the valid elevations
      and the valid and total pixel counts. */
  function GetDemStats(raster: Option<seq<Cell>>): (r: Option<DemStats>)
    ensures r.None? <==> raster.None? || AllMasked(raster.value)
    ensures r.Some? ==> 0 < r.value.validPixels <= r.value.totalPixels == |raster.value|
    ensures r.Some? ==> r.value.minElevation <= r.value.maxElevation
    ensures r.Some? ==> forall k :: 0 <= k < |raster.value| && raster.value[k].Elev? ==>
              r.value.minElevation <= raster.value[k].height <= r.value.maxElevation
    ensures r.Some? ==> (exists k :: 0 <= k < |raster.value| && raster.value[k] == Elev(r.value.minElevation))
                        && (exists k :: 0 <= k < |raster.value| && raster.value[k] == Elev(r.value.maxElevation))
    ensures r.Some? ==> r.value.validPixels == CountValid(raster.value)
  {
    match raster
    case None => None
    case Some(cells) =>
      if AllMasked(cells) then None
      else Some(DemStats(MinValid(cells), MaxValid(cells), CountValid(cells), |cells|))
  }

  /** The minimum and maximum `display_dem_info` shows: those of the valid
      pixels, or zeros when every pixel is masked. */
  function DisplayRange(cells: seq<Cell>): (range: (int, int))
    ensures AllMasked(cells) ==> range == (0, 0)
    ensures !AllMasked(cells) ==> range.0 <= range.1
    ensures !AllMasked(cells) ==> (exists k :: 0 <= k < |cells| && cells[k] == Elev(range.0))
                                  && (exists k :: 0 <= k < |cells| && cells[k] == Elev(range.1))
    ensures !AllMasked(cells) ==> forall k :: 0 <= k < |cells| && cells[k].Elev? ==>
                                    range.0 <= cells[k].height <= range.1
  {
    if AllMasked(cells) then (0, 0) else (MinValid(cells), MaxValid(cells))
  }

  /** The two summaries differ only on a fully masked raster, where one gives
      None and the other zeros. */
  lemma SummariesAgreeUnlessAllMasked(cells: seq<Cell>)
    ensures AllMasked(cells) <==> GetDemStats(Some(cells)).None?
    ensures AllMasked(cells) ==> DisplayRange(cells) == (0, 0)
    ensures !AllMasked(cells) ==>
              DisplayRange(cells) == (GetDemStats(Some(cells)).value.minElevation,
                                      GetDemStats(Some(cells)).value.maxElevation)
  {
  }

  // ---------------------------------------------------------------------------
  // Maximum compositing of tiles on one grid

  /** One pixel of `merge(..., method='max')`: nodata gives way to an elevation,
      two elevations give the higher. */
  function MaxCell(a: Cell, b: Cell): Cell
  {
    if a.NoData? then b
    else if b.NoData? then a
    else if a.height >= b.height then a else b
  }

  predicate SameGrid(tiles: seq<seq<Cell>>, n: nat)
  {
    forall t :: t in tiles ==> |t| == n
  }

  /** Pixel `c` of the composite of `tiles`. */
  function CompositeAt(tiles: seq<seq<Cell>>, c: nat): (cell: Cell)
    requires forall t :: t in tiles ==> c < |t|
    ensures cell.NoData? <==> forall t: seq<Cell> :: t in tiles ==> t[c].NoData?
    ensures cell.Elev? ==> exists t :: t in tiles && t[c] == cell
    ensures cell.Elev? ==> forall t: seq<Cell> :: t in tiles && t[c].Elev? ==> t[c].height <= cell.height
  {
    if tiles == [] then NoData
    else
      var rest := CompositeAt(tiles[1..], c);
      assert forall t :: t in tiles <==> t == tiles[0] || t in tiles[1..];
      MaxCell(tiles[0][c], rest)
  }

  /** The composite of same-grid tiles, pixel by pixel. */
  function Composite(tiles: seq<seq<Cell>>, n: nat): (out: seq<Cell>)
    requires SameGrid(tiles, n)
    ensures |out| == n
    ensures forall c :: 0 <= c < n ==> out[c] == CompositeAt(tiles, c)
  {
    seq(n, c requires 0 <= c < n => CompositeAt(tiles, c))
  }

  /** The order in which tiles are opened does not change the composite: any
      rearrangement of the same tiles gives the same raster. */
  lemma {:induction false} CompositeOrderIndependent(tiles1: seq<seq<Cell>>, tiles2: seq<seq<Cell>>, n: nat)
    requires SameGrid(tiles1, n) && multiset(tiles1) == multiset(tiles2)
    ensures SameGrid(tiles2, n)
    ensures Composite(tiles1, n) == Composite(tiles2, n)
  {
    assert forall t :: t in tiles1 <==> t in tiles2 by {
      forall t ensures t in tiles1 <==> t in tiles2 {
        assert t in tiles1 <==> t in multiset(tiles1);
        assert t in tiles2 <==> t in multiset(tiles2);
      }
    }
    forall c | 0 <= c < n
      ensures CompositeAt(tiles1, c) == CompositeAt(tiles2, c)
    {
      var a := CompositeAt(tiles1, c);
      var b := CompositeAt(tiles2, c);
      if a.Elev? && b.Elev? {
        var ta :| ta in tiles1 && ta[c] == a;
        var tb :| tb in tiles2 && tb[c] == b;
        assert a.height <= b.height;
        assert b.height <= a.height;
      }
    }
  }

  function Flat(n: nat, h: int): (t: seq<Cell>)
    ensures |t| == n && forall c :: 0 <= c < n ==> t[c] == Elev(h)
  {
    seq(n, _ => Elev(h))
  }

  /** Three same-grid flat tiles at 100, 150 and 200 m composite to a flat 200 m. */
  lemma ThreeFlatTiles(n: nat)
    ensures SameGrid([Flat(n, 100), Flat(n, 150), Flat(n, 200)], n)
    ensures Composite([Flat(n, 100), Flat(n, 150), Flat(n, 200)], n) == Flat(n, 200)
  {
    var tiles := [Flat(n, 100), Flat(n, 150), Flat(n, 200)];
    forall c | 0 <= c < n
      ensures CompositeAt(tiles, c) == Elev(200)
    {
      assert tiles[2] in tiles;
    }
  }

}
