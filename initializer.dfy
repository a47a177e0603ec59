/** Building the working grid: nearest-neighbour block replication of the
    coarse grid and of its nodata mask (`initialize`). */
module Initializer {
  import opened Wrappers
  import opened Grids

  /** Returns the replicated band and, when a mask was given, the mask
      replicated by the same rule. */
  function Initialize(data: Grid, zoom: nat, mask: Option<Mask>): (r: (Grid, Option<Mask>))
    ensures |r.0| == |data| * zoom
    ensures r.1.Some? <==> mask.Some?
  {
    RepeatLength(data, zoom);
    var band := Expand(data, zoom);
    if mask.Some? then (band, Some(Expand(mask.value, zoom))) else (band, None)
  }

  /** The band has shape (rows*zoom, cols*zoom); the mask, when one was
      given, is expanded to the same shape, and without one there is none. */
  lemma InitializeShapes(data: Grid, zoom: nat, mask: Option<Mask>, rows: nat, cols: nat)
    requires IsGrid(data, rows, cols)
    requires mask.Some? ==> IsGrid(mask.value, rows, cols)
    ensures var (band, expanded) := Initialize(data, zoom, mask);
      && IsGrid(band, rows * zoom, cols * zoom)
      && expanded.Some? == mask.Some?
      && (mask.Some? ==> IsGrid(expanded.value, rows * zoom, cols * zoom))
  {
    ExpandShape(data, zoom, rows, cols);
    if mask.Some? {
      ExpandShape(mask.value, zoom, rows, cols);
    }
  }

  /** Every sub-pixel (r, c) of the band holds the value of its parent cell
      (r / zoom, c / zoom), and the expanded mask is expanded by the identical
      rule, so no nodata is invented and none is lost. */
  lemma InitializeReplicates(data: Grid, zoom: nat, mask: Option<Mask>, rows: nat, cols: nat, r: int, c: int)
    requires IsGrid(data, rows, cols)
    requires mask.Some? ==> IsGrid(mask.value, rows, cols)
    requires 0 <= r < rows * zoom && 0 <= c < cols * zoom
    ensures var (band, expanded) := Initialize(data, zoom, mask);
      && IsGrid(band, rows * zoom, cols * zoom)
      && 0 <= r / zoom < rows && 0 <= c / zoom < cols
      && band[r][c] == data[r / zoom][c / zoom]
      && (mask.Some? ==>
            && IsGrid(expanded.value, rows * zoom, cols * zoom)
            && expanded.value[r][c] == mask.value[r / zoom][c / zoom])
  {
    ExpandCell(data, zoom, rows, cols, r, c);
    if mask.Some? {
      ExpandCell(mask.value, zoom, rows, cols, r, c);
    }
  }

  /** A 2x2 grid [[10, 20], [30, 40]] with zoom 2 becomes the 4x4 grid with
      each value filling its 2x2 quadrant. */
  lemma InitializeExample()
    ensures Initialize([[10.0, 20.0], [30.0, 40.0]], 2, None).0
         == [[10.0, 10.0, 20.0, 20.0],
             [10.0, 10.0, 20.0, 20.0],
             [30.0, 30.0, 40.0, 40.0],
             [30.0, 30.0, 40.0, 40.0]]
  {
    var data: Grid := [[10.0, 20.0], [30.0, 40.0]];
    var band := Initialize(data, 2, None).0;
    InitializeShapes(data, 2, None, 2, 2);
    forall r, c | 0 <= r < 4 && 0 <= c < 4
      ensures band[r][c] == data[r / 2][c / 2]
    {
      InitializeReplicates(data, 2, None, 2, 2, r, c);
    }
    forall r | 0 <= r < 4
      ensures band[r] == [data[r / 2][0], data[r / 2][0], data[r / 2][1], data[r / 2][1]]
    {
      assert |band[r]| == 4;
    }
  }
}
