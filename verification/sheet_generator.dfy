/** `SheetGenerator`: contact sheets of extracted frames.  The sorted
    `.jpg` frames of a directory are cut into sheets of 200; each sheet is a
    10 x 20 grid of 160 x 90 thumbnails laid out in row-major order.  Image
    decoding, resizing and saving are outside the model: whether a frame
    opens is a parameter, and a sheet records which frame was pasted at
    which pixel offset. */
module SheetGenerator {
  import opened Common
  import opened Text
  import opened Paths

  const GridColumns: nat := 10
  const GridRows: nat := 20
  const ThumbWidth: nat := 160
  const ThumbHeight: nat := 90
  const FramesPerSheet: nat := GridColumns * GridRows
  const SheetWidth: nat := ThumbWidth * GridColumns
  const SheetHeight: nat := ThumbHeight * GridRows

  /** The top-left corner of the cell of frame `idx`: column `idx % 10`,
      row `idx // 10`. */
  function Pos(idx: nat): (int, int)
  {
    ((idx % GridColumns) * ThumbWidth, (idx / GridColumns) * ThumbHeight)
  }

  /** The first 200 cells lie inside the 1600 x 1800 sheet. */
  lemma CellInBounds(idx: nat)
    requires idx < FramesPerSheet
    ensures 0 <= Pos(idx).0 && Pos(idx).0 + ThumbWidth <= SheetWidth
    ensures 0 <= Pos(idx).1 && Pos(idx).1 + ThumbHeight <= SheetHeight
  {
  }

  /** Distinct frames get distinct cells, and the cells do not overlap. */
  lemma CellsDisjoint(i: nat, j: nat)
    requires i != j
    ensures Pos(i) != Pos(j)
    ensures Pos(i).0 + ThumbWidth <= Pos(j).0 || Pos(j).0 + ThumbWidth <= Pos(i).0
         || Pos(i).1 + ThumbHeight <= Pos(j).1 || Pos(j).1 + ThumbHeight <= Pos(i).1
  {
    assert i == (i / 10) * 10 + i % 10;
    assert j == (j / 10) * 10 + j % 10;
    if i % 10 == j % 10 {
      assert i / 10 != j / 10;
      if i / 10 < j / 10 {
        assert (i / 10) * 90 + 90 <= (j / 10) * 90;
      } else {
        assert (j / 10) * 90 + 90 <= (i / 10) * 90;
      }
    } else if i % 10 < j % 10 {
      assert (i % 10) * 160 + 160 <= (j % 10) * 160;
    } else {
      assert (j % 10) * 160 + 160 <= (i % 10) * 160;
    }
  }

  /** A contact sheet: a black canvas of fixed size onto which thumbnails
      are pasted.  `cells` maps the pixel offset of each pasted thumbnail to
      the frame it shows. */
  class Sheet {
    const width: nat
    const height: nat
    var cells: map<(int, int), string>

    /** `Image.new('RGB', (width, height), 'black')`. */
    constructor Blank(width: nat, height: nat)
      ensures this.width == width && this.height == height
      ensures cells == map[]
    {
      this.width := width;
      this.height := height;
      cells := map[];
    }

    /** `sheet.paste(thumb, (x, y))`. */
    method Paste(frame: string, x: int, y: int)
      modifies this
      ensures cells == old(cells)[(x, y) := frame]
    {
      cells := cells[(x, y) := frame];
    }
  }

  /** What a sheet shows after the first `n` frames were processed: every
      frame that opened sits in its own cell, the others leave theirs
      black. */
  function Placed(frames: seq<string>, opens: string -> bool, n: nat): map<(int, int), string>
    requires n <= |frames|
  {
    if n == 0 then map[]
    else if opens(frames[n - 1]) then Placed(frames, opens, n - 1)[Pos(n - 1) := frames[n - 1]]
    else Placed(frames, opens, n - 1)
  }

  /** The cell of frame i shows frame i exactly when it opened, whatever
      happened to the other frames; no other cells are painted. */
  lemma {:induction false} PlacedCells(frames: seq<string>, opens: string -> bool, n: nat)
    requires n <= |frames|
    ensures forall i :: 0 <= i < n ==>
              (Pos(i) in Placed(frames, opens, n) <==> opens(frames[i]))
    ensures forall i :: 0 <= i < n && opens(frames[i]) ==> Placed(frames, opens, n)[Pos(i)] == frames[i]
    ensures forall c :: c in Placed(frames, opens, n) ==>
              exists i :: 0 <= i < n && Pos(i) == c && opens(frames[i])
  {
    if n > 0 {
      PlacedCells(frames, opens, n - 1);
      forall i | 0 <= i < n - 1
        ensures Pos(i) != Pos(n - 1)
      {
        CellsDisjoint(i, n - 1);
      }
    }
  }

  /** A frame that fails to open leaves its cell black and moves no other
      frame: two runs that differ only in whether frame j opens agree on
      every other cell. */
  lemma FailureIsolation(frames: seq<string>, opens: string -> bool, opens': string -> bool, j: nat)
    requires j < |frames|
    requires forall i :: 0 <= i < |frames| && i != j ==> opens(frames[i]) == opens'(frames[i])
    requires !opens'(frames[j])
    ensures Pos(j) !in Placed(frames, opens', |frames|)
    ensures forall i :: 0 <= i < |frames| && i != j ==>
              && (Pos(i) in Placed(frames, opens, |frames|) <==> Pos(i) in Placed(frames, opens', |frames|))
              && (Pos(i) in Placed(frames, opens, |frames|) ==>
                    Placed(frames, opens, |frames|)[Pos(i)] == Placed(frames, opens', |frames|)[Pos(i)])
  {
    PlacedCells(frames, opens, |frames|);
    PlacedCells(frames, opens', |frames|);
  }

  /** `_create_sheet`: a blank sheet with every frame that opens pasted
      into its cell.  `None` when the blank canvas cannot be created. */
  method CreateSheet(frames: seq<string>, opens: string -> bool, canvasOk: bool) returns (sheet: Option<Sheet>)
    ensures sheet.None? <==> !canvasOk
    ensures sheet.Some? ==> fresh(sheet.value)
    ensures sheet.Some? ==>
              && sheet.value.width == SheetWidth && sheet.value.height == SheetHeight
              && sheet.value.cells == Placed(frames, opens, |frames|)
  {
    if !canvasOk {
      return None;
    }
    var s := new Sheet.Blank(SheetWidth, SheetHeight);
    var idx := 0;
    while idx < |frames|
      invariant idx <= |frames|
      invariant s.cells == Placed(frames, opens, idx)
    {
      var (x, y) := Pos(idx);
      if opens(frames[idx]) {
        s.Paste(frames[idx], x, y);
      }
      idx := idx + 1;
    }
    return Some(s);
  }

  /** Python's string order: code point by code point, a proper prefix
      first. */
  predicate LexLeq(a: string, b: string)
  {
    a == [] || (b != [] && (a[0] < b[0] || (a[0] == b[0] && LexLeq(a[1..], b[1..]))))
  }

  lemma {:induction false} LexTotal(a: string, b: string)
    ensures LexLeq(a, b) || LexLeq(b, a)
  {
    if a != [] && b != [] && a[0] == b[0] {
      LexTotal(a[1..], b[1..]);
    }
  }

  predicate Sorted(s: seq<string>)
  {
    forall i :: 0 <= i < |s| - 1 ==> LexLeq(s[i], s[i + 1])
  }

  /** `x` placed before the first element it does not exceed. */
  function Insert(x: string, s: seq<string>): (r: seq<string>)
    requires Sorted(s)
    ensures Sorted(r)
    ensures multiset(r) == multiset(s) + multiset{x}
    ensures r != [] && (r[0] == x || (s != [] && r[0] == s[0]))
  {
    if s == [] then [x]
    else if LexLeq(x, s[0]) then [x] + s
    else
      LexTotal(x, s[0]);
      var rest := Insert(x, s[1..]);
      assert s == [s[0]] + s[1..];
      [s[0]] + rest
  }

  /** Python's `sorted` on a list of strings. */
  function SortStrings(s: seq<string>): (r: seq<string>)
    ensures Sorted(r)
    ensures multiset(r) == multiset(s)
  {
    if s == [] then []
    else
      assert s == [s[0]] + s[1..];
      Insert(s[0], SortStrings(s[1..]))
  }

  /** The number of directory entries ending in ".jpg". */
  function JpgCount(listing: seq<string>): (n: nat)
    ensures n <= |listing|
  {
    if listing == [] then 0
    else (if EndsWith(listing[0], ".jpg") then 1 else 0) + JpgCount(listing[1..])
  }

  /** The paths of the directory entries ending in ".jpg", in listing
      order, one per such entry. */
  function JpgPaths(dir: string, listing: seq<string>): (r: seq<string>)
    ensures |r| == JpgCount(listing) <= |listing|
    ensures forall f :: f in listing && EndsWith(f, ".jpg") ==> PathJoin(dir, f) in r
    ensures forall p :: p in r ==> exists f :: f in listing && EndsWith(f, ".jpg") && p == PathJoin(dir, f)
  {
    if listing == [] then []
    else
      var rest := JpgPaths(dir, listing[1..]);
      assert forall f :: f in listing[1..] ==> f in listing;
      assert forall f :: f in listing ==> f == listing[0] || f in listing[1..];
      if EndsWith(listing[0], ".jpg") then [PathJoin(dir, listing[0])] + rest else rest
  }

  /** The frame list of `generate_sheets`: the sorted paths of the `.jpg`
      entries. */
  function FramePaths(dir: string, listing: seq<string>): seq<string>
  {
    SortStrings(JpgPaths(dir, listing))
  }

  /** `(n + 199) // 200`. */
  function NumSheets(n: nat): nat
  {
    CeilDiv(n, FramesPerSheet)
  }

  /** Sheet k starts inside the frame list. */
  lemma SheetStart(n: nat, k: nat)
    requires k < NumSheets(n)
    ensures k * FramesPerSheet < n
  {
    var q := NumSheets(n);
    assert (q - 1) * FramesPerSheet < n;
    assert k * FramesPerSheet <= (q - 1) * FramesPerSheet;
  }

  /** Sheet k receives `frames[k*200 : min(k*200 + 200, n)]`. */
  function SheetSlice(frames: seq<string>, k: nat): seq<string>
    requires k < NumSheets(|frames|)
  {
    frames[k * FramesPerSheet .. Min(k * FramesPerSheet + FramesPerSheet, |frames|)]
  }

  /** The slices are the 200-frame chunks of the list: there are
      `NumSheets` of them, each non-empty and at most 200 long, and in sheet
      order they concatenate back to the frame list. */
  lemma SheetSlicing(frames: seq<string>)
    ensures |Chunks(frames, FramesPerSheet)| == NumSheets(|frames|)
    ensures forall k :: 0 <= k < NumSheets(|frames|) ==> Chunks(frames, FramesPerSheet)[k] == SheetSlice(frames, k)
    ensures forall k :: 0 <= k < NumSheets(|frames|) ==> 0 < |SheetSlice(frames, k)| <= FramesPerSheet
    ensures Flatten(Chunks(frames, FramesPerSheet)) == frames
  {
    ChunksCount(frames, FramesPerSheet);
    ChunksRoundTrip(frames, FramesPerSheet);
    forall k | 0 <= k < NumSheets(|frames|)
      ensures Chunks(frames, FramesPerSheet)[k] == SheetSlice(frames, k)
      ensures 0 < |SheetSlice(frames, k)| <= FramesPerSheet
    {
      ChunkAt(frames, FramesPerSheet, k);
      assert Chunks(frames, FramesPerSheet)[k] in Chunks(frames, FramesPerSheet);
    }
  }

  /** `sheet_{k:02d}.jpg` in the sheets directory. */
  function SheetName(sheetsDir: string, k: nat): string
  {
    PathJoin(sheetsDir, "sheet_" + ZeroPad2(k) + ".jpg")
  }

  /** Different sheet numbers give different file names. */
  lemma SheetNamesDistinct(sheetsDir: string, j: nat, k: nat)
    requires j != k
    ensures SheetName(sheetsDir, j) != SheetName(sheetsDir, k)
  {
    SheetFileName(j);
    SheetFileName(k);
    var a, b := "sheet_" + ZeroPad2(j) + ".jpg", "sheet_" + ZeroPad2(k) + ".jpg";
    JoinBaseName(sheetsDir, a);
    JoinBaseName(sheetsDir, b);
    if a == b {
      ZeroPad2Injective(j, k);
    }
  }

  /** The file name of sheet j holds no '/' and carries j's two digits. */
  lemma SheetFileName(j: nat)
    ensures var a := "sheet_" + ZeroPad2(j) + ".jpg";
            '/' !in a && a[6 .. |a| - 4] == ZeroPad2(j)
  {
    var d := ZeroPad2(j);
    var a := "sheet_" + d + ".jpg";
    assert forall i :: 0 <= i < |d| ==> IsDigit(d[i]);
    assert forall i :: 0 <= i < |a| ==> a[i] == (if i < 6 then "sheet_"[i] else if i < 6 + |d| then d[i - 6] else ".jpg"[i - 6 - |d|]);
    assert a[6 .. |a| - 4] == d;
  }

  /** The sheets saved for the first `k` slices: a file name and the cells
      of each sheet whose canvas could be created, in sheet order. */
  function SavedSheets(sheetsDir: string, frames: seq<string>, opens: string -> bool,
                       canvasOk: nat -> bool, k: nat): seq<(string, map<(int, int), string>)>
    requires k <= NumSheets(|frames|)
  {
    if k == 0 then []
    else
      SavedSheets(sheetsDir, frames, opens, canvasOk, k - 1)
        + (if canvasOk(k - 1) then [SheetFile(sheetsDir, frames, opens, k - 1)] else [])
  }

  /** The file saved for sheet j: its name and the cells of its slice. */
  function SheetFile(sheetsDir: string, frames: seq<string>, opens: string -> bool, j: nat): (string, map<(int, int), string>)
    requires j < NumSheets(|frames|)
  {
    var slice := SheetSlice(frames, j);
    (SheetName(sheetsDir, j), Placed(slice, opens, |slice|))
  }

  /** At most one file per sheet; exactly one when every canvas can be
      created. */
  lemma {:induction false} SavedSheetsCount(sheetsDir: string, frames: seq<string>, opens: string -> bool,
                                            canvasOk: nat -> bool, k: nat)
    requires k <= NumSheets(|frames|)
    ensures |SavedSheets(sheetsDir, frames, opens, canvasOk, k)| <= k
    ensures (forall j :: 0 <= j < k ==> canvasOk(j)) ==> |SavedSheets(sheetsDir, frames, opens, canvasOk, k)| == k
  {
    if k > 0 {
      SavedSheetsCount(sheetsDir, frames, opens, canvasOk, k - 1);
    }
  }

  /** When every canvas can be created, file j is sheet j. */
  lemma SavedSheetsInOrder(sheetsDir: string, frames: seq<string>, opens: string -> bool,
                           canvasOk: nat -> bool, k: nat)
    requires k <= NumSheets(|frames|)
    requires forall j :: 0 <= j < k ==> canvasOk(j)
    ensures |SavedSheets(sheetsDir, frames, opens, canvasOk, k)| == k
    ensures forall j :: 0 <= j < k ==> SavedSheets(sheetsDir, frames, opens, canvasOk, k)[j].0 == SheetName(sheetsDir, j)
  {
    var name := (j: nat) => SheetName(sheetsDir, j);
    SavedSheetNames(sheetsDir, frames, opens, canvasOk, k);
    SavedNamesInOrder(name, canvasOk, k);
  }

  /** The names of the files saved for the first `k` sheets, sheet j being
      called `name(j)`. */
  function SavedNames(name: nat -> string, canvasOk: nat -> bool, k: nat): seq<string>
  {
    if k == 0 then []
    else SavedNames(name, canvasOk, k - 1) + (if canvasOk(k - 1) then [name(k - 1)] else [])
  }

  lemma {:induction false} SavedSheetNames(sheetsDir: string, frames: seq<string>, opens: string -> bool,
                                           canvasOk: nat -> bool, k: nat)
    requires k <= NumSheets(|frames|)
    ensures var names := SavedNames((j: nat) => SheetName(sheetsDir, j), canvasOk, k);
            && |SavedSheets(sheetsDir, frames, opens, canvasOk, k)| == |names|
            && forall j :: 0 <= j < |names| ==> SavedSheets(sheetsDir, frames, opens, canvasOk, k)[j].0 == names[j]
  {
    if k > 0 {
      SavedSheetNames(sheetsDir, frames, opens, canvasOk, k - 1);
    }
  }

  lemma {:induction false} SavedNamesInOrder(name: nat -> string, canvasOk: nat -> bool, k: nat)
    requires forall j :: 0 <= j < k ==> canvasOk(j)
    ensures |SavedNames(name, canvasOk, k)| == k
    ensures forall j :: 0 <= j < k ==> SavedNames(name, canvasOk, k)[j] == name(j)
  {
    if k > 0 {
      SavedNamesInOrder(name, canvasOk, k - 1);
    }
  }

  /** A sheet that cannot be created leaves a gap in the numbering: the
      later sheets keep their own numbers. */
  lemma {:induction false} SavedSheetsNamedBySheet(sheetsDir: string, frames: seq<string>, opens: string -> bool,
                                                   canvasOk: nat -> bool, k: nat)
    requires k <= NumSheets(|frames|)
    ensures forall e :: e in SavedSheets(sheetsDir, frames, opens, canvasOk, k) ==>
              exists j :: 0 <= j < k && canvasOk(j) && e.0 == SheetName(sheetsDir, j)
                          && e.1 == Placed(SheetSlice(frames, j), opens, |SheetSlice(frames, j)|)
  {
    if k > 0 {
      SavedSheetsNamedBySheet(sheetsDir, frames, opens, canvasOk, k - 1);
    }
  }

  /** One more sheet: its file is appended when its canvas can be created. */
  lemma SavedSheetsStep(sheetsDir: string, frames: seq<string>, opens: string -> bool,
                        canvasOk: nat -> bool, k: nat)
    requires k < NumSheets(|frames|)
    ensures var slice := frames[k * FramesPerSheet .. Min(k * FramesPerSheet + FramesPerSheet, |frames|)];
            SavedSheets(sheetsDir, frames, opens, canvasOk, k + 1)
            == SavedSheets(sheetsDir, frames, opens, canvasOk, k)
               + (if canvasOk(k) then [(SheetName(sheetsDir, k), Placed(slice, opens, |slice|))] else [])
  {
    SheetStart(|frames|, k);
  }

  /** The sheet loop of `generate_sheets`: one sheet per slice of 200
      frames, saved under its own number when its canvas can be created. */
  method SaveSheets(sheetsDir: string, framePaths: seq<string>, opens: string -> bool, canvasOk: nat -> bool)
    returns (saved: seq<(string, map<(int, int), string>)>)
    ensures saved == SavedSheets(sheetsDir, framePaths, opens, canvasOk, NumSheets(|framePaths|))
  {
    var numSheets := (|framePaths| + FramesPerSheet - 1) / FramesPerSheet;
    assert numSheets == NumSheets(|framePaths|);
    saved := [];
    var sheetNum := 0;
    while sheetNum < numSheets
      invariant sheetNum <= numSheets == NumSheets(|framePaths|)
      invariant saved == SavedSheets(sheetsDir, framePaths, opens, canvasOk, sheetNum)
    {
      SheetStart(|framePaths|, sheetNum);
      var startIdx := sheetNum * FramesPerSheet;
      var endIdx := Min(startIdx + FramesPerSheet, |framePaths|);
      var sheetFrames := framePaths[startIdx..endIdx];
      var sheet := CreateSheet(sheetFrames, opens, canvasOk(sheetNum));
      SavedSheetsStep(sheetsDir, framePaths, opens, canvasOk, sheetNum);
      if sheet.Some? {
        saved := saved + [(SheetName(sheetsDir, sheetNum), sheet.value.cells)];
      }
      sheetNum := sheetNum + 1;
    }
  }

  /** `generate_sheets`.  `listing` is the outcome of listing the frames
      directory, `opens` says which frames can be opened and `canvasOk`
      which sheets get a canvas.  The result is the sheets directory, or
      `None` when the listing raises or holds no `.jpg` frame; `saved`
      lists the files written and what each shows. */
  method GenerateSheets(framesDir: string, listing: Attempt<seq<string>>, opens: string -> bool, canvasOk: nat -> bool)
    returns (r: Option<string>, saved: seq<(string, map<(int, int), string>)>)
    ensures r.None? <==> listing.Raised? || FramePaths(framesDir, listing.value) == []
    ensures r.None? ==> saved == []
    ensures r.Some? ==>
              var frames := FramePaths(framesDir, listing.value);
              && r.value == PathJoin(DirName(framesDir), "sheets")
              && saved == SavedSheets(r.value, frames, opens, canvasOk, NumSheets(|frames|))
  {
    var sheetsDir := PathJoin(DirName(framesDir), "sheets");
    if listing.Raised? {
      return None, [];
    }
    var framePaths := FramePaths(framesDir, listing.value);
    if framePaths == [] {
      return None, [];
    }
    saved := SaveSheets(sheetsDir, framePaths, opens, canvasOk);
    return Some(sheetsDir), saved;
  }
}
