/**
 * The rules inside EditMapSettingsDialog: the minimap zoom chosen for a board
 * thumbnail, the path rewrite and board-name derivation of the board list,
 * the de-duplicating queue of boards waiting for a thumbnail, and the values
 * the dialog hands back when it is closed with "Done".
 */
module EditMapSettings {
  import opened Wrappers
  import opened Text

  /** The zoom for a board's larger edge, band by band. */
  function BandZoom(largerEdge: int): (z: int)
    ensures 0 <= z <= 4
  {
    if largerEdge < 17 then 4
    else if largerEdge <= 20 then 3
    else if largerEdge <= 30 then 2
    else if largerEdge <= 40 then 1
    else 0
  }

  function Max(a: int, b: int): int {
    if a < b then b else a
  }

  /** The zoom rule: follow the larger edge, then raise a narrow board (width below 25) to at least 3. */
  function ZoomFor(width: int, height: int): (z: int)
    ensures 0 <= z <= 6
    ensures width < 25 ==> 3 <= z && (BandZoom(Max(width, height)) >= 3 ==> z == BandZoom(Max(width, height)))
    ensures width < 25 && BandZoom(Max(width, height)) < 3 ==> z == 3
    ensures width >= 25 ==> z == BandZoom(Max(width, height))
  {
    var band := BandZoom(Max(width, height));
    if width < 25 then Max(band, 3) else band
  }

  /** prepareImage's zoom computation, step by step, with the unit GUI scale and the clamp to [0, 6]. */
  method MinimapZoom(width: int, height: int) returns (zoom: int)
    ensures zoom == ZoomFor(width, height)
    ensures 0 <= zoom <= 6
  {
    var largerEdge := Max(width, height);
    zoom := 3;
    if largerEdge < 17 {
      zoom := 4;
    }
    if largerEdge > 20 {
      zoom := 2;
    }
    if largerEdge > 30 {
      zoom := 1;
    }
    if largerEdge > 40 {
      zoom := 0;
    }
    if width < 25 {
      zoom := Max(zoom, 3);
    }
    if zoom > 6 {
      zoom := 6;
    }
    if zoom < 0 {
      zoom := 0;
    }
  }

  /** The band table read both ways: each zoom value on a wide board comes from exactly its band of edges. */
  lemma WideBoardBands(width: int, height: int)
    requires width >= 25
    ensures var e := Max(width, height);
      && (ZoomFor(width, height) == 2 <==> 21 <= e <= 30)
      && (ZoomFor(width, height) == 1 <==> 31 <= e <= 40)
      && (ZoomFor(width, height) == 0 <==> e > 40)
      && (ZoomFor(width, height) == 3 <==> false)
  {
  }

  /** backToForwardSlash: String.replace of every backslash by a slash. */
  function BackToForwardSlash(path: string): (r: string)
    ensures |r| == |path|
    ensures forall i :: 0 <= i < |path| ==> r[i] == if path[i] == '\\' then '/' else path[i]
    ensures '\\' !in r
    decreases |path|
  {
    if path == [] then []
    else [if path[0] == '\\' then '/' else path[0]] + BackToForwardSlash(path[1..])
  }

  /** The rewrite is the literal replace-all of the one-character pattern. */
  lemma {:induction false} BackToForwardSlashIsReplace(path: string)
    ensures BackToForwardSlash(path) == ReplaceAll(path, "\\", "/")
    decreases |path|
  {
    if path != [] {
      BackToForwardSlashIsReplace(path[1..]);
      assert OccursAt(path, "\\", 0) <==> path[0] == '\\';
    }
  }

  /** Rewriting twice is rewriting once, and a path without backslashes is kept. */
  lemma BackToForwardSlashIdempotent(path: string)
    ensures BackToForwardSlash(BackToForwardSlash(path)) == BackToForwardSlash(path)
    ensures '\\' !in path ==> BackToForwardSlash(path) == path
  {
  }

  /** The board-list entry for a file of the directory scan: only a .board file of the right size. */
  function BoardEntry(basePath: string, separator: string, filename: string, fitsSize: bool): Option<string> {
    if EndsWith(filename, ".board") && fitsSize then
      assert filename[|filename| - 6..][0] == '.';
      Some(basePath + separator + filename[..LastIndexOf(filename, '.')])
    else None
  }

  /** The entry drops exactly the ".board" suffix: the last '.' of such a name is the suffix's own. */
  lemma BoardEntryStem(basePath: string, separator: string, filename: string)
    requires EndsWith(filename, ".board")
    ensures BoardEntry(basePath, separator, filename, true) == Some(basePath + separator + filename[..|filename| - 6])
    ensures BoardEntry(basePath, separator, filename, false) == None
  {
    var n := |filename|;
    assert filename[n - 6..] == ".board";
    assert filename[n - 6] == '.';
    assert forall j :: n - 6 < j < n ==> filename[j] == filename[n - 6..][j - (n - 6)] != '.';
  }

  /** A name not ending in ".board" never enters the list. */
  lemma OtherFilesSkipped(basePath: string, separator: string, filename: string, fitsSize: bool)
    requires !EndsWith(filename, ".board")
    ensures BoardEntry(basePath, separator, filename, fitsSize) == None
  {
  }

  predicate NoDuplicates(q: seq<string>) {
    forall i, j :: 0 <= i < j < |q| ==> q[i] != q[j]
  }

  /** ImageLoader.add on the queue: a name already waiting is not queued again, a new one goes last. */
  function Enqueue(q: seq<string>, name: string): seq<string> {
    if name in q then q else q + [name]
  }

  /** The queue never holds a name twice, holds the added name, and adding it again changes nothing. */
  lemma EnqueueKeepsDistinct(q: seq<string>, name: string)
    requires NoDuplicates(q)
    ensures NoDuplicates(Enqueue(q, name))
    ensures forall x :: x in Enqueue(q, name) <==> x in q || x == name
    ensures Enqueue(Enqueue(q, name), name) == Enqueue(q, name)
  {
  }

  /** The queue of boards waiting for a thumbnail. */
  class ImageLoader {
    var boards: seq<string>

    ghost predicate Valid()
      reads this
    {
      NoDuplicates(boards)
    }

    constructor ()
      ensures boards == [] && Valid()
    {
      boards := [];
    }

    method Add(name: string)
      requires Valid()
      modifies this
      ensures Valid()
      ensures boards == Enqueue(old(boards), name)
    {
      EnqueueKeepsDistinct(boards, name);
      if name !in boards {
        boards := boards + [name];
      }
    }

    /** The worker's poll: the oldest waiting name, or None when the queue is empty. */
    method Poll() returns (name: Option<string>)
      requires Valid()
      modifies this
      ensures Valid()
      ensures old(boards) == [] ==> name.None? && boards == []
      ensures old(boards) != [] ==> name == Some(old(boards)[0]) && boards == old(boards)[1..]
    {
      if boards == [] {
        name := None;
      } else {
        name := Some(boards[0]);
        boards := boards[1..];
      }
    }
  }

  datatype BoardDimensions = BoardDimensions(width: int, height: int)

  /** The size preselected in the fixed-map size box: the given one when both edges are positive, else 16x17. */
  function InitialBoardSize(mapSizeX: int, mapSizeY: int): (r: BoardDimensions)
    ensures r.width > 0 && r.height > 0
    ensures mapSizeX > 0 && mapSizeY > 0 <==> r == BoardDimensions(mapSizeX, mapSizeY)
    ensures !(mapSizeX > 0 && mapSizeY > 0) ==> r == BoardDimensions(16, 17)
  {
    if mapSizeX > 0 && mapSizeY > 0 then BoardDimensions(mapSizeX, mapSizeY) else BoardDimensions(16, 17)
  }

  /** A list widget: its entries and the selected index, if any. */
  datatype ListChoice = ListChoice(entries: seq<string>, selected: Option<nat>)

  predicate WellFormed(l: ListChoice) {
    l.selected.Some? ==> l.selected.value < |l.entries|
  }

  /** JList.getSelectedValue: the selected entry, or null without a selection. */
  function SelectedValue(l: ListChoice): (r: Option<string>)
    requires WellFormed(l)
    ensures r.Some? <==> l.selected.Some?
    ensures r.Some? ==> r.value == l.entries[l.selected.value]
  {
    if l.selected.None? then None else Some(l.entries[l.selected.value])
  }

  /** What done() reads from the dialog's widgets; the spinners' minimum is 0. */
  datatype Widgets = Widgets(
    boardTypeIndex: int,
    fixedChecked: bool,
    fixedMaps: ListChoice,
    comboSize: BoardDimensions,
    generators: ListChoice,
    spinnerX: nat,
    spinnerY: nat)

  predicate WidgetsWellFormed(w: Widgets) {
    WellFormed(w.fixedMaps) && WellFormed(w.generators)
  }

  /** The map done() records: the fixed board, or the generator unless the leading "None" entry is chosen. */
  function ChosenMap(w: Widgets): (r: Option<string>)
    requires WidgetsWellFormed(w)
    ensures w.fixedChecked ==> r == SelectedValue(w.fixedMaps)
    ensures !w.fixedChecked && w.generators.selected == Some(0) ==> r.None?
    ensures !w.fixedChecked && w.generators.selected != Some(0) ==> r == SelectedValue(w.generators)
  {
    if w.fixedChecked then SelectedValue(w.fixedMaps)
    else if w.generators.selected == Some(0) then None
    else SelectedValue(w.generators)
  }

  /** The size done() records: the size box's board in fixed mode, the spinners otherwise. */
  function ChosenSize(w: Widgets): (r: BoardDimensions)
    ensures w.fixedChecked ==> r == w.comboSize
    ensures !w.fixedChecked ==> r.width == w.spinnerX && r.height == w.spinnerY && r.width >= 0 && r.height >= 0
  {
    if w.fixedChecked then w.comboSize else BoardDimensions(w.spinnerX, w.spinnerY)
  }

  /** The dialog's result fields. */
  class EditMapSettingsDialog {
    var boardType: int
    var usingFixedMap: bool
    var mapName: Option<string>
    var mapSizeX: int
    var mapSizeY: int

    /** The dialog starts from the scenario's current settings. */
    constructor (boardType: int, usingFixedMap: bool, mapName: Option<string>, mapSizeX: int, mapSizeY: int)
      ensures this.boardType == boardType && this.usingFixedMap == usingFixedMap && this.mapName == mapName
      ensures this.mapSizeX == mapSizeX && this.mapSizeY == mapSizeY
    {
      this.boardType := boardType;
      this.usingFixedMap := usingFixedMap;
      this.mapName := mapName;
      this.mapSizeX := mapSizeX;
      this.mapSizeY := mapSizeY;
    }

    method Done(w: Widgets)
      requires WidgetsWellFormed(w)
      modifies this
      ensures boardType == w.boardTypeIndex && usingFixedMap == w.fixedChecked
      ensures mapName == ChosenMap(w)
      ensures mapSizeX == ChosenSize(w).width && mapSizeY == ChosenSize(w).height
    {
      boardType := w.boardTypeIndex;
      usingFixedMap := w.fixedChecked;
      if usingFixedMap {
        mapName := SelectedValue(w.fixedMaps);
        var boardSize := w.comboSize;
        mapSizeX := boardSize.width;
        mapSizeY := boardSize.height;
      } else {
        mapName := SelectedValue(w.generators);
        if w.generators.selected == Some(0) {
          mapName := None;
        }
        mapSizeX := w.spinnerX;
        mapSizeY := w.spinnerY;
      }
    }
  }
}
