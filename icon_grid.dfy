/**
 * The grid view: it shows the published bit sequence as rows of 32 cells
 * and forwards a click on cell `i` only when `i` is one of the cells the
 * viewer is restricted to.
 */
module IconGrid {
  import opened Wrappers

  /** Cells per row. */
  const ChunkSize := 32

  /** The rows laid end to end. */
  function Flatten(rows: seq<seq<int>>): seq<int>
  {
    if rows == [] then [] else Flatten(rows[..|rows| - 1]) + rows[|rows| - 1]
  }

  lemma FlattenAppend(rows: seq<seq<int>>, row: seq<int>)
    ensures Flatten(rows + [row]) == Flatten(rows) + row
  {
    assert (rows + [row])[..|rows|] == rows;
  }

  /** `xs || []`. */
  function OrEmpty(xs: Option<seq<int>>): (r: seq<int>)
    ensures xs.None? ==> r == []
    ensures xs.Some? ==> r == xs.value
  {
    if xs.Some? then xs.value else []
  }

  function Min(a: int, b: int): int
  {
    if a < b then a else b
  }

  /** `Array.prototype.includes` on numbers: a scan from the front for an equal element. */
  function Includes(xs: seq<int>, x: int): (r: bool)
    ensures r <==> x in xs
  {
    if xs == [] then false else xs[0] == x || Includes(xs[1..], x)
  }

  class IconGridComponent {
    /** The `state` input: the visible cells, or `null` while the grid document is absent. */
    var state: Option<seq<int>>
    /** The `restrictTo` input: the cells this viewer may select, or `null`. */
    var restrictTo: Option<seq<int>>
    /** Every value emitted on the `appSelect` output, in order. */
    var selections: seq<int>

    constructor ()
      ensures state == None && restrictTo == None && selections == []
    {
      state := None;
      restrictTo := None;
      selections := [];
    }

    /** The `ready` getter. */
    function Ready(): (r: bool)
      reads this
      ensures r <==> state.Some?
    {
      state != None
    }

    /** `canSelect(i)`: only a listed cell may be selected; `null` and `[]` admit none. */
    function CanSelect(i: int): (r: bool)
      reads this
      ensures r <==> restrictTo.Some? && i in restrictTo.value
    {
      Includes(OrEmpty(restrictTo), i)
    }

    /**
     * The `grid` getter: the state cut into consecutive rows of 32 cells,
     * the last row holding what remains.
     */
    method Grid() returns (rows: seq<seq<int>>)
      ensures state.None? ==> rows == []
      ensures Flatten(rows) == OrEmpty(state)
      ensures |rows| == (|OrEmpty(state)| + ChunkSize - 1) / ChunkSize
      ensures forall r :: 0 <= r < |rows| - 1 ==> |rows[r]| == ChunkSize
      ensures |rows| > 0 ==> 0 < |rows[|rows| - 1]| <= ChunkSize
      ensures forall r, c :: 0 <= r < |rows| && 0 <= c < |rows[r]| ==>
        ChunkSize * r + c < |OrEmpty(state)| && rows[r][c] == OrEmpty(state)[ChunkSize * r + c]
    {
      var s := OrEmpty(state);
      rows := [];
      var i := 0;
      while i < |s|
        invariant i == ChunkSize * |rows|
        invariant |rows| > 0 ==> ChunkSize * (|rows| - 1) < |s|
        invariant Flatten(rows) == s[..Min(i, |s|)]
        invariant forall r :: 0 <= r < |rows| ==> rows[r] == s[ChunkSize * r .. Min(ChunkSize * r + ChunkSize, |s|)]
        decreases |s| - i
      {
        var row := s[i .. Min(i + ChunkSize, |s|)];
        FlattenAppend(rows, row);
        rows := rows + [row];
        i := i + ChunkSize;
      }
    }

    /** `onSelect(i)`: emits `i` on `appSelect` when `canSelect(i)`, and otherwise does nothing. */
    method OnSelect(i: int)
      modifies this`selections
      ensures selections == old(selections) + (if CanSelect(i) then [i] else [])
    {
      if !CanSelect(i) {
        return;
      }
      selections := selections + [i];
    }
  }

  /** With no restriction list, or an empty one, no cell can be selected. */
  lemma NothingSelectableWithoutList(g: IconGridComponent, i: int)
    requires g.restrictTo == None || g.restrictTo == Some([])
    ensures !g.CanSelect(i)
  {
  }
}
