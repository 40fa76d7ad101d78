/** Model of the non-UI logic of `render_main` (src/ui/main.py): the
    "folder has images" check, the grid placement of the processed images
    and the names they are saved under. Streamlit widgets, messages and the
    filesystem are outside the model. */
module Render {
  import Load
  import Process

  // ---------------------------------------------------------------------
  // The folder check of lines 45-48

  /** Python's `str.lower`, on the ASCII letters A-Z only. */
  function LowerChar(ch: char): char
  {
    if 'A' <= ch <= 'Z' then (ch as int + 32) as char else ch
  }

  function Lower(s: string): (r: string)
    ensures |r| == |s|
  {
    seq(|s|, k requires 0 <= k < |s| => LowerChar(s[k]))
  }

  /** `any(fname.lower().endswith(...) for fname in os.listdir(folder_path))`. */
  predicate FolderHasImages(listing: seq<string>)
  {
    exists k :: 0 <= k < |listing| && Load.HasImageExtension(Lower(listing[k]))
  }

  /** Lower-casing keeps a suffix that has no upper-case letter. */
  lemma LowerKeepsSuffix(s: string, e: string)
    requires Load.EndsWith(s, e)
    requires Load.NoUpperCase(e)
    ensures Load.EndsWith(Lower(s), e)
  {
    var off := |s| - |e|;
    var t := Lower(s);
    forall j | 0 <= j < |e|
      ensures t[off..][j] == e[j]
    {
      assert s[off..][j] == s[off + j];
    }
  }

  /** Lower-casing a name keeps every image suffix it already has, because
      the suffixes contain no upper-case letter. */
  lemma LowerKeepsImageExtension(name: string)
    requires Load.HasImageExtension(name)
    ensures Load.HasImageExtension(Lower(name))
  {
    var e :| e in Load.ImageExtensions && Load.EndsWith(name, e);
    Load.ImageExtensionShape(e);
    LowerKeepsSuffix(name, e);
  }

  /** Any listing from which `load_images` keeps a name passes the check. */
  lemma LoadedNamesPassFolderCheck(listing: seq<string>)
    requires Load.ImageFiles(listing) != []
    ensures FolderHasImages(listing)
  {
    var name := Load.ImageFiles(listing)[0];
    assert name in Load.ImageFiles(listing);
    var k :| 0 <= k < |listing| && listing[k] == name;
    LowerKeepsImageExtension(name);
  }

  /** The converse fails: an upper-case suffix passes the check and is then
      dropped by the case-sensitive loader. */
  lemma FolderCheckPassesButNothingLoads()
    ensures FolderHasImages(["A.PNG"])
    ensures Load.ImageFiles(["A.PNG"]) == []
  {
    var listing := ["A.PNG"];
    assert Lower(listing[0]) == "a.png";
    assert Load.EndsWith("a.png", ".png");
    assert !Load.HasImageExtension("A.PNG");
  }

  // ---------------------------------------------------------------------
  // The grid of lines 76-84

  /** `num_cols = min(3, len(processed_images))`. */
  function NumCols(n: nat): (cols: nat)
    ensures cols <= 3 && cols <= n
    ensures cols == 0 <==> n == 0
    ensures cols == 3 <==> n >= 3
  {
    if n < 3 then n else 3
  }

  /** `math.ceil` on an exact rational. */
  function Ceil(x: real): (c: int)
    ensures c as real - 1.0 < x <= c as real
  {
    -((-x).Floor)
  }

  lemma IntProductAsReal(a: int, b: int)
    ensures (a * b) as real == a as real * b as real
  {
  }

  lemma RealProductMonotone(x: real, y: real, z: real)
    requires x <= y && z > 0.0
    ensures x * z <= y * z
    ensures x < y ==> x * z < y * z
  {
  }

  lemma RatioTimes(n: int, d: int)
    requires d > 0
    ensures (n as real / d as real) * d as real == n as real
  {
  }

  lemma RatioAtMost(n: int, d: int, c: int)
    requires d > 0
    requires n as real / d as real <= c as real
    ensures n <= c * d
  {
    RatioTimes(n, d);
    RealProductMonotone(n as real / d as real, c as real, d as real);
    IntProductAsReal(c, d);
  }

  lemma RatioAbove(n: int, d: int, c: int)
    requires d > 0
    requires c as real < n as real / d as real
    ensures c * d < n
  {
    RatioTimes(n, d);
    RealProductMonotone(c as real, n as real / d as real, d as real);
    IntProductAsReal(c, d);
  }

  /** From `c - 1 < n / cols <= c` to the integer facts about `c`. */
  lemma CeilingBounds(n: nat, cols: nat, c: int)
    requires cols > 0
    requires c as real - 1.0 < n as real / cols as real <= c as real
    ensures c >= 0
    ensures c * cols >= n
    ensures (c - 1) * cols < n
  {
    RatioAtMost(n, cols, c);
    assert (c - 1) as real == c as real - 1.0;
    RatioAbove(n, cols, c - 1);
  }

  /** `num_rows = math.ceil(len(processed_images) / num_cols) if num_cols else 0`:
      enough rows for every image, and no row more than needed. */
  function NumRows(n: nat): (rows: nat)
    ensures n == 0 ==> rows == 0
    ensures rows * NumCols(n) >= n
    ensures n > 0 ==> (rows - 1) * NumCols(n) < n
  {
    var cols := NumCols(n);
    if cols == 0 then 0
    else
      var c := Ceil(n as real / cols as real);
      CeilingBounds(n, cols, c);
      c
  }

  lemma ProductMonotone(a: int, b: int, d: nat)
    requires a <= b
    ensures a * d <= b * d
  {
  }

  /** Euclidean division is determined by any decomposition with a remainder
      in range. */
  lemma DivModUnique(a: nat, q: nat, m: nat, d: nat)
    requires d > 0 && m < d && a == q * d + m
    ensures a / d == q && a % d == m
  {
    var q', m' := a / d, a % d;
    assert a == q' * d + m';
    if q' < q {
      ProductMonotone(q' + 1, q, d);
      assert false;
    } else if q' > q {
      ProductMonotone(q + 1, q', d);
      assert false;
    }
  }

  /** The integer form of the ceiling: the same as `(n + cols - 1) // cols`. */
  lemma NumRowsIsIntegerCeiling(n: nat)
    requires n > 0
    ensures NumRows(n) == (n + NumCols(n) - 1) / NumCols(n)
  {
    var rows, cols := NumRows(n), NumCols(n);
    assert rows >= 1;
    var m := n + cols - 1 - rows * cols;
    assert (rows - 1) * cols == rows * cols - cols;
    DivModUnique(n + cols - 1, rows, m, cols);
  }

  /** `(i // num_cols, i % num_cols)`: the row and column of the i-th image.
      Python's floor division and modulo agree with Dafny's on naturals. */
  function Cell(i: nat, cols: nat): (cell: (nat, nat))
    requires cols > 0
    ensures cell.1 < cols
    ensures cell.0 * cols + cell.1 == i
  {
    (i / cols, i % cols)
  }

  /** Row-major numbering of a cell, the inverse of `Cell`. */
  function CellIndex(r: nat, c: nat, cols: nat): nat
  {
    r * cols + c
  }

  /** Distinct images go to distinct cells. */
  lemma CellInjective(i: nat, j: nat, cols: nat)
    requires cols > 0 && i != j
    ensures Cell(i, cols) != Cell(j, cols)
  {
  }

  /** `Cell` undoes the row-major numbering of any cell. */
  lemma CellOfIndex(r: nat, c: nat, cols: nat)
    requires c < cols
    ensures Cell(CellIndex(r, c, cols), cols) == (r, c)
  {
    DivModUnique(r * cols + c, r, c, cols);
  }

  /** `rows[row_idx][col_idx]` is in range for every image index. */
  lemma CellInBounds(n: nat, i: nat)
    requires i < n
    ensures NumCols(n) > 0
    ensures Cell(i, NumCols(n)).0 < NumRows(n)
    ensures Cell(i, NumCols(n)).1 < NumCols(n)
  {
    var cols, rows := NumCols(n), NumRows(n);
    var (r, c) := Cell(i, cols);
    if r >= rows {
      ProductMonotone(rows, r, cols);
      assert false;
    }
  }

  /** No row of the grid is left without an image: the first cell of every
      row holds one. */
  lemma NoEmptyRow(n: nat, r: nat)
    requires r < NumRows(n)
    ensures r * NumCols(n) < n
  {
    var cols, rows := NumCols(n), NumRows(n);
    ProductMonotone(r, rows - 1, cols);
  }

  /** One `.image(...)` call on a column: the image and the number in its
      caption `f'... {i+1}'`. */
  datatype Tile<T> = Tile(image: T, number: nat)

  /** What the cell at row `r`, column `c` shows once the loop has placed the
      images whose index is below `placed`. */
  function CellTiles<T>(images: seq<T>, cols: nat, placed: nat, r: nat, c: nat): seq<Tile<T>>
    requires placed <= |images|
  {
    var k := CellIndex(r, c, cols);
    if k < placed then [Tile(images[k], k + 1)] else []
  }

  /** The placement loop: `rows` holds `num_rows` rows of `num_cols` columns,
      and each image is shown, once, in the cell of its row-major index. */
  method PlaceImages<T>(images: seq<T>) returns (grid: seq<seq<seq<Tile<T>>>>)
    ensures |grid| == NumRows(|images|)
    ensures forall r :: 0 <= r < |grid| ==> |grid[r]| == NumCols(|images|)
    ensures forall r, c :: 0 <= r < |grid| && 0 <= c < |grid[r]| ==>
              grid[r][c] == CellTiles(images, NumCols(|images|), |images|, r, c)
  {
    var n := |images|;
    var numCols, numRows := NumCols(n), NumRows(n);
    grid := seq(numRows, _ => seq(numCols, _ => []));
    for i := 0 to n
      invariant |grid| == numRows
      invariant forall r :: 0 <= r < numRows ==> |grid[r]| == numCols
      invariant forall r, c :: 0 <= r < numRows && 0 <= c < numCols ==>
                  grid[r][c] == CellTiles(images, numCols, i, r, c)
    {
      CellInBounds(n, i);
      var rowIdx := i / numCols;
      var colIdx := i % numCols;
      forall r, c | 0 <= r < numRows && 0 <= c < numCols && CellIndex(r, c, numCols) == i
        ensures r == rowIdx && c == colIdx
      {
        CellOfIndex(r, c, numCols);
      }
      grid := grid[rowIdx := grid[rowIdx][colIdx := grid[rowIdx][colIdx] + [Tile(images[i], i + 1)]]];
    }
  }

  /** Every image is shown in the cell `Cell` gives it, and that cell shows
      nothing else. */
  lemma EveryImageShownOnce<T>(images: seq<T>, i: nat)
    requires i < |images|
    ensures NumCols(|images|) > 0
    ensures var (r, c) := Cell(i, NumCols(|images|));
            r < NumRows(|images|) && c < NumCols(|images|) &&
            CellTiles(images, NumCols(|images|), |images|, r, c) == [Tile(images[i], i + 1)]
  {
    CellInBounds(|images|, i);
  }

  // ---------------------------------------------------------------------
  // Saving, lines 92-97

  const SavePrefix: string := "transformed_"

  /** `f'transformed_{image_names[i]}'`: the original name can be read back
      after the prefix. */
  function SaveName(name: string): (saved: string)
    ensures |saved| == |SavePrefix| + |name|
    ensures saved[..|SavePrefix|] == SavePrefix
    ensures saved[|SavePrefix|..] == name
  {
    SavePrefix + name
  }

  /** Different images names give different file names. */
  lemma SaveNameInjective(a: string, b: string)
    requires SaveName(a) == SaveName(b)
    ensures a == b
  {
    assert a == SaveName(a)[|SavePrefix|..];
  }

  /** A suffix that starts with `.` ends the saved name exactly when it ends
      the original name, since the prefix holds no `.`. */
  lemma SaveNameEndsWith(name: string, e: string)
    requires |e| >= 1 && e[0] == '.'
    ensures Load.EndsWith(SaveName(name), e) <==> Load.EndsWith(name, e)
  {
    var saved := SaveName(name);
    if |e| <= |name| {
      assert saved[|saved| - |e|..] == name[|name| - |e|..];
    } else if |e| <= |saved| {
      var at := |saved| - |e|;
      assert saved[at] == SavePrefix[at];
      assert '.' !in SavePrefix;
      assert saved[at..][0] != e[0];
    }
  }

  /** An image suffix of the saved name is one of the original name and
      conversely: the prefix ends in `_`, and every suffix starts with `.`. */
  lemma SaveNameKeepsImageExtension(name: string)
    ensures Load.HasImageExtension(SaveName(name)) <==> Load.HasImageExtension(name)
  {
    if Load.HasImageExtension(SaveName(name)) {
      var e :| e in Load.ImageExtensions && Load.EndsWith(SaveName(name), e);
      Load.ImageExtensionShape(e);
      SaveNameEndsWith(name, e);
    }
    if Load.HasImageExtension(name) {
      var e :| e in Load.ImageExtensions && Load.EndsWith(name, e);
      Load.ImageExtensionShape(e);
      SaveNameEndsWith(name, e);
    }
  }

  /** One `img.save(os.path.join(output_path, file_name))` call. */
  datatype SaveCall<T> = SaveCall(directory: string, fileName: string, image: T)

  /** The save loop: the i-th processed image is saved under the prefixed
      i-th name, in order. Indexing `image_names[i]` needs at least as many
      names as images. */
  method SaveImages<T>(outputPath: string, processed: seq<T>, names: seq<string>)
    returns (calls: seq<SaveCall<T>>)
    requires |processed| <= |names|
    ensures |calls| == |processed|
    ensures forall k :: 0 <= k < |calls| ==>
              calls[k] == SaveCall(outputPath, SaveName(names[k]), processed[k])
  {
    calls := [];
    for i := 0 to |processed|
      invariant |calls| == i
      invariant forall k :: 0 <= k < i ==>
                  calls[k] == SaveCall(outputPath, SaveName(names[k]), processed[k])
    {
      calls := calls + [SaveCall(outputPath, SavePrefix + names[i], processed[i])];
    }
  }

  // ---------------------------------------------------------------------
  // The branch of lines 38-60 taken for a new folder path

  /** What `images` and `image_names` hold when line 60 reads them. */
  datatype Binding<I> = Assigned(images: seq<I>, names: seq<string>) | Unassigned

  /** Lines 41-55 as written: the two error branches report and go on
      without assigning `images`, so line 60 raises `UnboundLocalError`. */
  function FreshFolderAsWritten<I>(isDir: bool, listing: seq<string>, open: string -> I): (b: Binding<I>)
    ensures b.Unassigned? <==> !isDir || !FolderHasImages(listing)
    ensures b.Assigned? ==> (b.images, b.names) == Load.LoadImages(listing, open)
  {
    if !isDir then Unassigned
    else if !FolderHasImages(listing) then Unassigned
    else
      var loaded := Load.LoadImages(listing, open);
      Assigned(loaded.0, loaded.1)
  }

  /** A new folder path that is not a directory reaches line 60 with
      `images` unassigned. */
  lemma MissingFolderLeavesImagesUnassigned()
    ensures FreshFolderAsWritten(false, [], (name: string) => 0).Unassigned?
  {
  }

  /** So does a directory whose listing has no image name at all. */
  lemma ImagelessFolderLeavesImagesUnassigned()
    ensures FreshFolderAsWritten(true, ["notes.txt"], (name: string) => 0).Unassigned?
  {
    assert Lower("notes.txt") == "notes.txt";
    forall e | e in Load.ImageExtensions
      ensures !Load.EndsWith("notes.txt", e)
    {
      assert e == ".jpg" || e == ".jpeg" || e == ".png" || e == ".bmp" || e == ".gif";
    }
  }

  /** The cell `Cell` gives image `k` shows exactly `tile`. */
  ghost predicate ShownAt<T>(grid: seq<seq<seq<Tile<T>>>>, cols: nat, k: nat, tile: Tile<T>)
  {
    cols > 0 &&
    var cell := Cell(k, cols);
    cell.0 < |grid| && cell.1 < |grid[cell.0]| && grid[cell.0][cell.1] == [tile]
  }

  /** Lines 60-97 once `images` and `image_names` hold a non-empty load:
      process, place, and save when saving is requested and allowed. */
  method ShowProcessed<D>(
    images: seq<Process.Image<D>>, names: seq<string>,
    p: Process.Params, lib: Process.Library<D>, outputPath: string, save: bool)
    returns (grid: seq<seq<seq<Tile<Process.Image<D>>>>>, saved: seq<SaveCall<Process.Image<D>>>)
    requires |images| == |names|
    ensures |grid| == NumRows(|images|)
    ensures forall r :: 0 <= r < |grid| ==> |grid[r]| == NumCols(|images|)
    ensures forall r, c :: 0 <= r < |grid| && 0 <= c < |grid[r]| ==>
              grid[r][c] == CellTiles(Process.ProcessAll(images, p, lib), NumCols(|images|), |images|, r, c)
    ensures forall k :: 0 <= k < |images| ==>
              ShownAt(grid, NumCols(|images|), k, Tile(Process.ProcessOne(images[k], p, lib, k), k + 1))
    ensures |saved| == if save then |images| else 0
    ensures forall k :: 0 <= k < |saved| ==>
              saved[k] == SaveCall(outputPath, SaveName(names[k]), Process.ProcessOne(images[k], p, lib, k))
  {
    var processed := Process.ProcessImages(images, p, lib);
    assert processed == Process.ProcessAll(images, p, lib);
    grid := PlaceImages(processed);
    forall k | 0 <= k < |processed|
      ensures ShownAt(grid, NumCols(|processed|), k, Tile(processed[k], k + 1))
    {
      EveryImageShownOnce(processed, k);
    }
    saved := [];
    if save {
      saved := SaveImages(outputPath, processed, names);
    }
  }

  /** What `render_main` ends with for a new folder path. */
  datatype Outcome<D> =
    | NotADirectory
    | NoImagesInFolder
    | NothingLoaded
    | Shown(grid: seq<seq<seq<Tile<Process.Image<D>>>>>, saved: seq<SaveCall<Process.Image<D>>>)

  /** Lines 41-97 for a new folder path, with each error branch ending the
      run after its message. `open` stands for opening a listed file,
      `saveRequested` for a non-empty output path whose save button was
      pressed and `writable` for `os.access(output_path, os.W_OK)`. */
  method ShowAndSave<D>(
    isDir: bool, listing: seq<string>, open: string -> Process.Image<D>,
    p: Process.Params, lib: Process.Library<D>,
    outputPath: string, saveRequested: bool, writable: bool)
    returns (outcome: Outcome<D>)
    ensures !isDir ==> outcome == NotADirectory
    ensures isDir && !FolderHasImages(listing) ==> outcome == NoImagesInFolder
    ensures isDir && FolderHasImages(listing) && Load.ImageFiles(listing) == [] ==> outcome == NothingLoaded
    ensures isDir && Load.ImageFiles(listing) != [] ==> outcome.Shown?
    ensures outcome.Shown? ==>
              var files := Load.ImageFiles(listing);
              && |outcome.grid| == NumRows(|files|)
              && (forall r :: 0 <= r < |outcome.grid| ==> |outcome.grid[r]| == NumCols(|files|))
              && (forall r, c :: 0 <= r < |outcome.grid| && 0 <= c < |outcome.grid[r]| ==>
                    outcome.grid[r][c] == CellTiles(Process.ProcessAll(Load.LoadImages(listing, open).0, p, lib),
                                                    NumCols(|files|), |files|, r, c))
              && (forall k :: 0 <= k < |files| ==>
                    ShownAt(outcome.grid, NumCols(|files|), k,
                            Tile(Process.ProcessOne(open(files[k]), p, lib, k), k + 1)))
              && |outcome.saved| == (if saveRequested && writable then |files| else 0)
              && (forall k :: 0 <= k < |outcome.saved| ==>
                    outcome.saved[k] == SaveCall(outputPath, SaveName(files[k]),
                                                 Process.ProcessOne(open(files[k]), p, lib, k)))
              && (forall k :: 0 <= k < |outcome.saved| ==>
                    Load.HasImageExtension(outcome.saved[k].fileName))
  {
    if !isDir {
      return NotADirectory;
    }
    if Load.ImageFiles(listing) != [] {
      LoadedNamesPassFolderCheck(listing);
    }
    if !FolderHasImages(listing) {
      return NoImagesInFolder;
    }
    var loaded := Load.LoadImages(listing, open);
    var images, imageNames := loaded.0, loaded.1;
    if images == [] {
      return NothingLoaded;
    }
    var grid, saved := ShowProcessed(images, imageNames, p, lib, outputPath, saveRequested && writable);
    forall k | 0 <= k < |imageNames|
      ensures Load.HasImageExtension(SaveName(imageNames[k]))
    {
      SaveNameKeepsImageExtension(imageNames[k]);
    }
    outcome := Shown(grid, saved);
  }
}
