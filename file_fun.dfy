/** The file-list helpers of libs/file_fun.py. The Qt list widget is a
    sequence of items, each with the text it shows and the full path it stores
    as data; a dialog or directory listing is an input. */
module FileFun {
  import opened Common
  import opened Strings

  /** A list-widget item: the text shown and the full path stored as data. */
  datatype ListItem = ListItem(text: string, data: string)

  predicate NoDup<T(==)>(s: seq<T>) {
    forall i, j :: 0 <= i < j < |s| ==> s[i] != s[j]
  }

  /** The full paths stored in the items, in list order. */
  function ItemPaths(items: seq<ListItem>): (paths: seq<string>)
    ensures |paths| == |items|
    ensures forall i :: 0 <= i < |items| ==> paths[i] == items[i].data
  {
    seq(|items|, i requires 0 <= i < |items| => items[i].data)
  }

  // ---------------------------------------------------------------------------
  // update_file_list
  // ---------------------------------------------------------------------------

  /** `fname.rsplit('.', 1)[0]`: the name without its last extension. */
  function Stem(name: string): (r: string)
    ensures StartsWith(name, r)
    ensures '.' !in name ==> r == name
  {
    match RSplitOnce(name, '.')
    case None => name
    case Some(parts) => parts.0
  }

  /** The text of an item: the directory shown or hidden before the name. */
  function DisplayText(path: string, name: string, showPath: bool): string {
    if showPath then path + "/" + name else name
  }

  /** The item `update_file_list` makes of one candidate path, or None when it
      skips it: no '/' (the unpacking raises ValueError) or nothing before the
      extension. Shown with its path, an item reads as the full path. */
  function ItemFor(f: string, showPath: bool): (r: Option<ListItem>)
    ensures r.Some? ==> r.value.data == f
  {
    match RSplitOnce(f, '/')
    case None => None
    case Some(parts) =>
      if Stem(parts.1) == "" then None
      else Some(ListItem(DisplayText(parts.0, parts.1, showPath), f))
  }

  lemma ItemForMeaning(f: string, showPath: bool)
    ensures var r := ItemFor(f, showPath);
      && (r.None? <==> '/' !in f || Stem(Basename(f)) == "")
      && (r.Some? && showPath ==> r.value.text == f)
      && (r.Some? && !showPath ==> r.value.text == Basename(f))
  {
    if '/' in f {
      RSplitOnceRejoins(f, '/');
    }
  }

  /** `ItemFor` in terms of the split the loop performs. */
  lemma ItemForParts(f: string, showPath: bool)
    ensures RSplitOnce(f, '/').None? ==> ItemFor(f, showPath).None?
    ensures RSplitOnce(f, '/').Some? ==>
      var parts := RSplitOnce(f, '/').value;
      ItemFor(f, showPath) == if Stem(parts.1) == "" then None else Some(ListItem(DisplayText(parts.0, parts.1, showPath), f))
  {
  }

  /** `[fn for fn in fnames if fn not in existing]`. */
  function Candidates(fnames: seq<string>, existing: seq<string>): (r: seq<string>)
    ensures |r| <= |fnames|
    ensures forall x :: x in r <==> x in fnames && x !in existing
    ensures NoDup(fnames) ==> NoDup(r)
  {
    if |fnames| == 0 then []
    else
      var init, last := fnames[..|fnames| - 1], fnames[|fnames| - 1];
      assert fnames == init + [last];
      Candidates(init, existing) + (if last in existing then [] else [last])
  }

  /** The items added for the candidates, in order. */
  function NewItems(cands: seq<string>, showPath: bool): (r: seq<ListItem>)
    ensures |r| <= |cands|
  {
    if |cands| == 0 then []
    else
      var prev := NewItems(cands[..|cands| - 1], showPath);
      match ItemFor(cands[|cands| - 1], showPath)
      case None => prev
      case Some(item) => prev + [item]
  }

  /** Every inserted item comes from a candidate and is that candidate's item. */
  lemma {:induction false} NewItemsSound(cands: seq<string>, showPath: bool)
    ensures forall i :: 0 <= i < |NewItems(cands, showPath)| ==>
      var r := NewItems(cands, showPath);
      r[i].data in cands && ItemFor(r[i].data, showPath) == Some(r[i])
  {
    if |cands| > 0 {
      var init, last := cands[..|cands| - 1], cands[|cands| - 1];
      assert cands == init + [last];
      NewItemsSound(init, showPath);
      var prev := NewItems(init, showPath);
      var r := NewItems(cands, showPath);
      var o := ItemFor(last, showPath);
      assert r == if o.Some? then prev + [o.value] else prev;
      forall i | 0 <= i < |r| ensures r[i].data in cands && ItemFor(r[i].data, showPath) == Some(r[i]) {
        if i < |prev| {
          assert r[i] == prev[i] && prev[i].data in init;
        }
      }
    }
  }

  /** No path is inserted twice when no candidate repeats. */
  lemma {:induction false} NewItemsDistinct(cands: seq<string>, showPath: bool)
    requires NoDup(cands)
    ensures NoDup(ItemPaths(NewItems(cands, showPath)))
  {
    if |cands| > 0 {
      var init, last := cands[..|cands| - 1], cands[|cands| - 1];
      assert NoDup(init) by {
        forall i, j | 0 <= i < j < |init| ensures init[i] != init[j] {
          assert init[i] == cands[i] && init[j] == cands[j];
        }
      }
      NewItemsDistinct(init, showPath);
      var prev, r := NewItems(init, showPath), NewItems(cands, showPath);
      if ItemFor(last, showPath).Some? {
        var item := ItemFor(last, showPath).value;
        assert r == prev + [item];
        assert last !in init by {
          forall k | 0 <= k < |init| ensures init[k] != last {
            assert init[k] == cands[k];
          }
        }
        assert forall i :: 0 <= i < |prev| ==> prev[i].data != item.data by {
          NewItemsSound(init, showPath);
        }
        NoDupPathsSnoc(prev, item);
      } else {
        assert r == prev;
      }
    }
  }

  /** Appending an item whose path is new keeps the paths distinct. */
  lemma NoDupPathsSnoc(prev: seq<ListItem>, item: ListItem)
    requires NoDup(ItemPaths(prev))
    requires forall i :: 0 <= i < |prev| ==> prev[i].data != item.data
    ensures NoDup(ItemPaths(prev + [item]))
  {
    var ps := ItemPaths(prev + [item]);
    forall i, j | 0 <= i < j < |ps| ensures ps[i] != ps[j] {
      if j < |prev| {
        assert ps[i] == ItemPaths(prev)[i] && ps[j] == ItemPaths(prev)[j];
      } else {
        assert ps[i] == prev[i].data;
      }
    }
  }

  /** One more candidate adds at most its own item. */
  lemma NewItemsPrefix(cands: seq<string>, k: nat, showPath: bool)
    requires k < |cands|
    ensures ItemFor(cands[k], showPath).None? ==> NewItems(cands[..k + 1], showPath) == NewItems(cands[..k], showPath)
    ensures ItemFor(cands[k], showPath).Some? ==>
      NewItems(cands[..k + 1], showPath) == NewItems(cands[..k], showPath) + [ItemFor(cands[k], showPath).value]
  {
    assert cands[..k + 1][..k] == cands[..k];
  }

  /** Every candidate that is neither already listed nor unsplittable is added. */
  lemma {:induction false} NewItemsComplete(cands: seq<string>, showPath: bool, f: string)
    requires f in cands && ItemFor(f, showPath).Some?
    ensures ItemFor(f, showPath).value in NewItems(cands, showPath)
  {
    var init, last := cands[..|cands| - 1], cands[|cands| - 1];
    assert cands == init + [last];
    if f != last {
      NewItemsComplete(init, showPath, f);
    }
  }

  /** After an addition the list holds no path twice, provided the batch itself
      had no repeats (the source adds a path repeated within one batch twice). */
  lemma UpdateKeepsPathsDistinct(existing: seq<ListItem>, fnames: seq<string>, showPath: bool)
    requires NoDup(ItemPaths(existing)) && NoDup(fnames)
    ensures NoDup(ItemPaths(existing + NewItems(Candidates(fnames, ItemPaths(existing)), showPath)))
  {
    var cands := Candidates(fnames, ItemPaths(existing));
    var news := NewItems(cands, showPath);
    NewItemsSound(cands, showPath);
    NewItemsDistinct(cands, showPath);
    var all := ItemPaths(existing + news);
    forall i, j | 0 <= i < j < |all| ensures all[i] != all[j] {
      if j >= |existing| {
        assert all[j] == ItemPaths(news)[j - |existing|];
        if i >= |existing| {
          assert all[i] == ItemPaths(news)[i - |existing|];
        } else {
          assert all[i] in ItemPaths(existing);
          assert news[j - |existing|].data in cands;
        }
      } else {
        assert all[i] == ItemPaths(existing)[i] && all[j] == ItemPaths(existing)[j];
      }
    }
  }

  // ---------------------------------------------------------------------------
  // get_new_file_list
  // ---------------------------------------------------------------------------

  /** Whether a name passes the extension test: any of the extensions occurs in
      it, all names passing when the list is exactly `['']`. */
  predicate MatchesExt(name: string, fext: seq<string>) {
    fext == [""] || exists e :: e in fext && Contains(name, e)
  }

  /** The names with a matching extension whose base name is not among the old
      base names, in their original order. */
  function NewFileList(names: seq<string>, fext: seq<string>, oldBases: seq<string>): (r: seq<string>)
    ensures |r| <= |names|
    ensures forall x :: x in r <==> x in names && MatchesExt(x, fext) && Basename(x) !in oldBases
  {
    if |names| == 0 then []
    else
      var init, last := names[..|names| - 1], names[|names| - 1];
      assert names == init + [last];
      NewFileList(init, fext, oldBases)
        + (if MatchesExt(last, fext) && Basename(last) !in oldBases then [last] else [])
  }

  /** The filter keeps order: splitting the input splits the output. */
  lemma {:induction false} NewFileListConcat(a: seq<string>, b: seq<string>, fext: seq<string>, oldBases: seq<string>)
    ensures NewFileList(a + b, fext, oldBases) == NewFileList(a, fext, oldBases) + NewFileList(b, fext, oldBases)
  {
    if |b| > 0 {
      var init, last := b[..|b| - 1], b[|b| - 1];
      assert (a + b)[..|a + b| - 1] == a + init;
      NewFileListConcat(a, init, fext, oldBases);
    } else {
      assert a + b == a;
    }
  }

  // ---------------------------------------------------------------------------
  // add_files, directory branch
  // ---------------------------------------------------------------------------

  /** One tuple of `os.walk`: a directory and the names of the files in it. */
  datatype WalkStep = WalkStep(dirpath: string, filenames: seq<string>)

  /** One entry of `os.listdir`, with whether `os.path.isfile` holds for it. */
  datatype DirEntry = DirEntry(name: string, isFile: bool)

  /** The path recorded for a file: joined and with every '\' turned into '/'. */
  function RecordedPath(dir: string, name: string): (p: string)
    ensures '\\' !in p
  {
    ReplaceChar(PathJoin(dir, name), '\\', '/')
  }

  /** The files of one directory whose extension is in the filter (exact,
      case-sensitive), as recorded paths. */
  function MatchingFiles(dir: string, names: seq<string>, ftypeFilter: seq<string>): (r: seq<string>)
    ensures |r| <= |names|
    ensures forall x :: x in r ==> '\\' !in x
  {
    if |names| == 0 then []
    else
      var init, last := names[..|names| - 1], names[|names| - 1];
      MatchingFiles(dir, init, ftypeFilter)
        + (if Extension(last) in ftypeFilter then [RecordedPath(dir, last)] else [])
  }

  lemma MatchingFilesSnoc(dir: string, names: seq<string>, name: string, ftypeFilter: seq<string>)
    ensures Extension(name) in ftypeFilter ==>
              MatchingFiles(dir, names + [name], ftypeFilter) == MatchingFiles(dir, names, ftypeFilter) + [RecordedPath(dir, name)]
    ensures Extension(name) !in ftypeFilter ==>
              MatchingFiles(dir, names + [name], ftypeFilter) == MatchingFiles(dir, names, ftypeFilter)
  {
    assert (names + [name])[..|names|] == names;
  }

  /** Exactly the files with an accepted extension are recorded. */
  lemma {:induction false} MatchingFilesMeaning(dir: string, names: seq<string>, ftypeFilter: seq<string>, name: string)
    ensures name in names && Extension(name) in ftypeFilter ==> RecordedPath(dir, name) in MatchingFiles(dir, names, ftypeFilter)
    ensures forall x :: x in MatchingFiles(dir, names, ftypeFilter) ==>
              exists n :: n in names && Extension(n) in ftypeFilter && x == RecordedPath(dir, n)
  {
    if |names| > 0 {
      var init, last := names[..|names| - 1], names[|names| - 1];
      assert names == init + [last];
      MatchingFilesMeaning(dir, init, ftypeFilter, name);
    }
  }

  /** The files found by walking the tree, directory by directory. */
  function TreeFiles(walk: seq<WalkStep>, ftypeFilter: seq<string>): (r: seq<string>)
    ensures forall x :: x in r ==> '\\' !in x
  {
    if |walk| == 0 then []
    else
      var init, last := walk[..|walk| - 1], walk[|walk| - 1];
      TreeFiles(init, ftypeFilter) + MatchingFiles(last.dirpath, last.filenames, ftypeFilter)
  }

  /** The names `os.listdir` gives that are files. */
  function FileNames(listing: seq<DirEntry>): (r: seq<string>)
    ensures forall n :: n in r <==> DirEntry(n, true) in listing
  {
    if |listing| == 0 then []
    else
      var init, last := listing[..|listing| - 1], listing[|listing| - 1];
      assert listing == init + [last];
      FileNames(init) + (if last.isFile then [last.name] else [])
  }

  /** The directory branch of `add_files` (libs/file_fun.py:121-145). With
      subdirectories the walk is followed; otherwise an empty or missing
      directory gives nothing and only the files directly inside are kept. */
  method AddFilesFromDirectory(
    inputDir: string, dirExists: bool, includeSubdir: bool,
    walk: seq<WalkStep>, listing: seq<DirEntry>, ftypeFilter: seq<string>)
    returns (fnames: seq<string>)
    ensures includeSubdir ==> fnames == TreeFiles(walk, ftypeFilter)
    ensures !includeSubdir && (inputDir == "" || !dirExists) ==> fnames == []
    ensures !includeSubdir && inputDir != "" && dirExists ==>
              fnames == MatchingFiles(inputDir, FileNames(listing), ftypeFilter)
    ensures forall x :: x in fnames ==> '\\' !in x
  {
    fnames := [];
    if includeSubdir {
      fnames := WalkFiles(walk, ftypeFilter);
    } else if inputDir != "" && dirExists {
      fnames := ListedFiles(inputDir, listing, ftypeFilter);
    }
  }

  /** The loops over `os.walk` (libs/file_fun.py:127-133). */
  method WalkFiles(walk: seq<WalkStep>, ftypeFilter: seq<string>) returns (fnames: seq<string>)
    ensures fnames == TreeFiles(walk, ftypeFilter)
  {
    fnames := [];
    for w := 0 to |walk|
      invariant fnames == TreeFiles(walk[..w], ftypeFilter)
    {
      assert walk[..w + 1][..w] == walk[..w];
      var step := walk[w];
      var found := DirectoryFiles(step.dirpath, step.filenames, ftypeFilter);
      fnames := fnames + found;
    }
    assert walk[..|walk|] == walk;
  }

  /** The inner loop over the files of one directory. */
  method DirectoryFiles(dir: string, names: seq<string>, ftypeFilter: seq<string>) returns (fnames: seq<string>)
    ensures fnames == MatchingFiles(dir, names, ftypeFilter)
  {
    fnames := [];
    for k := 0 to |names|
      invariant fnames == MatchingFiles(dir, names[..k], ftypeFilter)
    {
      MatchingFilesPrefix(dir, names, k, ftypeFilter);
      if Extension(names[k]) in ftypeFilter {
        fnames := fnames + [RecordedPath(dir, names[k])];
      }
    }
    assert names[..|names|] == names;
  }

  lemma MatchingFilesPrefix(dir: string, names: seq<string>, k: nat, ftypeFilter: seq<string>)
    requires k < |names|
    ensures Extension(names[k]) in ftypeFilter ==>
              MatchingFiles(dir, names[..k + 1], ftypeFilter) == MatchingFiles(dir, names[..k], ftypeFilter) + [RecordedPath(dir, names[k])]
    ensures Extension(names[k]) !in ftypeFilter ==>
              MatchingFiles(dir, names[..k + 1], ftypeFilter) == MatchingFiles(dir, names[..k], ftypeFilter)
  {
    assert names[..k + 1][..k] == names[..k];
  }

  lemma FileNamesSnoc(listing: seq<DirEntry>, k: nat)
    requires k < |listing|
    ensures listing[k].isFile ==> FileNames(listing[..k + 1]) == FileNames(listing[..k]) + [listing[k].name]
    ensures !listing[k].isFile ==> FileNames(listing[..k + 1]) == FileNames(listing[..k])
  {
    assert listing[..k + 1][..k] == listing[..k];
  }

  /** The loop over `os.listdir` (libs/file_fun.py:136-142). */
  method ListedFiles(inputDir: string, listing: seq<DirEntry>, ftypeFilter: seq<string>) returns (fnames: seq<string>)
    ensures fnames == MatchingFiles(inputDir, FileNames(listing), ftypeFilter)
  {
    fnames := [];
    for k := 0 to |listing|
      invariant fnames == MatchingFiles(inputDir, FileNames(listing[..k]), ftypeFilter)
    {
      FileNamesSnoc(listing, k);
      var entry := listing[k];
      if entry.isFile {
        MatchingFilesSnoc(inputDir, FileNames(listing[..k]), entry.name, ftypeFilter);
        if Extension(entry.name) in ftypeFilter {
          fnames := fnames + [RecordedPath(inputDir, entry.name)];
        }
      }
    }
    assert listing[..|listing|] == listing;
  }

  // ---------------------------------------------------------------------------
  // remove_files and show_file_paths
  // ---------------------------------------------------------------------------

  /** What `remove_files` returns: the path list when clearing everything, the
      removed items otherwise. */
  datatype Removed = RemovedPaths(paths: seq<string>) | RemovedItems(items: seq<ListItem>)

  /** The selected items, in selection order. */
  function Picked(items: seq<ListItem>, selected: seq<nat>): (r: seq<ListItem>)
    requires forall i :: 0 <= i < |selected| ==> selected[i] < |items|
    ensures |r| == |selected|
    ensures forall i :: 0 <= i < |selected| ==> r[i] == items[selected[i]]
  {
    seq(|selected|, i requires 0 <= i < |selected| => items[selected[i]])
  }

  /** The items whose positions are not selected, in order. */
  function Unselected(items: seq<ListItem>, selected: seq<nat>): (r: seq<ListItem>)
    ensures |r| <= |items|
    ensures forall x :: x in r ==> x in items
    ensures forall i :: 0 <= i < |items| && i !in selected ==> items[i] in r
  {
    if |items| == 0 then []
    else
      var init, last := items[..|items| - 1], items[|items| - 1];
      assert items == init + [last];
      var prev := Unselected(init, selected);
      assert forall i :: 0 <= i < |init| ==> items[i] == init[i];
      prev + (if |items| - 1 in selected then [] else [last])
  }

  /** The positions below `n` that are not selected, in increasing order. */
  function KeptPositions(n: nat, selected: seq<nat>): (ks: seq<nat>)
    ensures forall j :: 0 <= j < |ks| ==> ks[j] < n
  {
    if n == 0 then []
    else KeptPositions(n - 1, selected) + (if n - 1 in selected then [] else [n - 1])
  }

  /** The kept positions are exactly the unselected ones, in increasing order. */
  lemma {:induction false} KeptPositionsMeaning(n: nat, selected: seq<nat>)
    ensures forall i :: 0 <= i < n ==> (i in KeptPositions(n, selected) <==> i !in selected)
    ensures forall j, j' :: 0 <= j < j' < |KeptPositions(n, selected)| ==>
              KeptPositions(n, selected)[j] < KeptPositions(n, selected)[j']
  {
    if n > 0 {
      KeptPositionsMeaning(n - 1, selected);
    }
  }

  /** `remove_files` leaves exactly the items at the unselected positions, in
      their original order: every selected position is gone, whatever the
      items' values. */
  lemma {:induction false} UnselectedAtKept(items: seq<ListItem>, selected: seq<nat>)
    ensures |Unselected(items, selected)| == |KeptPositions(|items|, selected)|
    ensures forall j :: 0 <= j < |KeptPositions(|items|, selected)| ==>
              Unselected(items, selected)[j] == items[KeptPositions(|items|, selected)[j]]
    decreases |items|
  {
    if |items| > 0 {
      var n := |items|;
      var init := items[..n - 1];
      UnselectedAtKept(init, selected);
      var prev, ks0 := Unselected(init, selected), KeptPositions(n - 1, selected);
      var r, ks := Unselected(items, selected), KeptPositions(n, selected);
      if n - 1 in selected {
        assert r == prev && ks == ks0;
      } else {
        assert r == prev + [items[n - 1]] && ks == ks0 + [n - 1];
      }
      AlignedSnoc(items, prev, ks0, r, ks, n - 1 !in selected);
    }
  }

  /** One step of `UnselectedAtKept`: items aligned with positions below the
      last stay aligned when the last item and its position are appended
      together, or when neither is. */
  lemma AlignedSnoc(items: seq<ListItem>, prev: seq<ListItem>, ks0: seq<nat>, r: seq<ListItem>, ks: seq<nat>, add: bool)
    requires |items| > 0 && |prev| == |ks0|
    requires forall j :: 0 <= j < |ks0| ==> ks0[j] < |items| - 1 && prev[j] == items[..|items| - 1][ks0[j]]
    requires add ==> r == prev + [items[|items| - 1]] && ks == ks0 + [|items| - 1]
    requires !add ==> r == prev && ks == ks0
    ensures |r| == |ks|
    ensures forall j :: 0 <= j < |ks| ==> r[j] == items[ks[j]]
  {
  }

  /** The selected positions below `n`, each counted once. */
  function SelectedBelow(n: nat, selected: seq<nat>): set<nat> {
    set i: nat | i < n && i in selected
  }

  /** As many items go as there are distinct selected positions. */
  lemma {:induction false} KeptPositionsCount(n: nat, selected: seq<nat>)
    ensures |KeptPositions(n, selected)| + |SelectedBelow(n, selected)| == n
  {
    if n > 0 {
      KeptPositionsCount(n - 1, selected);
      SelectedBelowStep(n, selected);
      var ks0, below0 := KeptPositions(n - 1, selected), SelectedBelow(n - 1, selected);
      if n - 1 in selected {
        assert KeptPositions(n, selected) == ks0;
        assert n - 1 !in below0;
      } else {
        assert SelectedBelow(n, selected) == below0;
      }
    }
  }

  lemma SelectedBelowStep(n: nat, selected: seq<nat>)
    requires n > 0
    ensures SelectedBelow(n, selected)
            == SelectedBelow(n - 1, selected) + (if n - 1 in selected then {n - 1} else {})
  {
  }

  /** The item text `show_file_paths` sets for a stored path, or None where
      splitting it raises. */
  function PathText(f: string, showPath: bool): (r: Option<string>)
    ensures r.None? <==> '/' !in f
    ensures r.Some? && showPath ==> r.value == f
    ensures r.Some? && !showPath ==> r.value == Basename(f)
  {
    match RSplitOnce(f, '/')
    case None => None
    case Some(parts) =>
      RSplitOnceRejoins(f, '/');
      Some(DisplayText(parts.0, parts.1, showPath))
  }

  /** How far `show_file_paths` gets: the position of the first item whose path
      has no '/', or the length of the list. */
  function FirstUnsplittable(items: seq<ListItem>): (r: nat)
    ensures r <= |items|
    ensures forall i :: 0 <= i < r ==> '/' in items[i].data
    ensures r < |items| ==> '/' !in items[r].data
  {
    if |items| == 0 || '/' !in items[0].data then 0
    else 1 + FirstUnsplittable(items[1..])
  }

  /** The list widget of a main window together with its path list. */
  class SourceFileList {
    var items: seq<ListItem>
    var filenames: seq<string>
    /** The show-path check box: None when the window has none. */
    var showPathChk: Option<bool>

    constructor (showPathChk: Option<bool>)
      ensures items == [] && filenames == [] && this.showPathChk == showPathChk
    {
      items := [];
      filenames := [];
      this.showPathChk := showPathChk;
    }

    /** `get_current_file_list`: the paths are read back from the items. */
    method GetCurrentFileList()
      modifies this
      ensures filenames == ItemPaths(items)
      ensures items == old(items) && showPathChk == old(showPathChk)
    {
      var paths: seq<string> := [];
      for f := 0 to |items|
        invariant |paths| == f
        invariant forall i :: 0 <= i < f ==> paths[i] == items[i].data
      {
        paths := paths + [items[f].data];
      }
      filenames := paths;
    }

    /** `update_file_list`: add the paths not yet listed, skipping those that
        cannot be split or have an empty stem. `added` is the counter `i`. */
    method UpdateFileList(fnames: seq<string>) returns (added: nat)
      modifies this
      ensures showPathChk == old(showPathChk)
      ensures |fnames| == 0 ==> items == old(items) && filenames == old(filenames) && added == 0
      ensures |fnames| > 0 ==>
        var news := NewItems(Candidates(fnames, ItemPaths(old(items))), old(showPathChk).GetOr(false));
        && items == old(items) + news
        && filenames == ItemPaths(items)
        && added == |news|
    {
      added := 0;
      if |fnames| == 0 {
        return;
      }
      GetCurrentFileList();
      var fnamesNew := Candidates(fnames, filenames);
      added := AddCandidates(fnamesNew);
      GetCurrentFileList();
    }

    /** The body of the loop in `update_file_list` for one path: split at
        the last '/', and add an item only when the name has a stem. */
    method AddCandidate(f: string) returns (ok: bool)
      modifies this`items
      ensures ok == ItemFor(f, showPathChk.GetOr(false)).Some?
      ensures ok ==> items == old(items) + [ItemFor(f, showPathChk.GetOr(false)).value]
      ensures !ok ==> items == old(items)
    {
      ItemForParts(f, showPathChk.GetOr(false));
      var split := RSplitOnce(f, '/');
      if split.None? {
        return false;
      }
      var path, fname := split.value.0, split.value.1;
      if Stem(fname) == "" {
        return false;
      }
      var showPath := false;
      if showPathChk.Some? {
        showPath := showPathChk.value;
      }
      items := items + [ListItem(DisplayText(path, fname, showPath), f)];
      return true;
    }

    /** The loop of `update_file_list` over the new paths; `added` counts the
        items inserted. */
    method AddCandidates(fnamesNew: seq<string>) returns (added: nat)
      modifies this`items
      ensures items == old(items) + NewItems(fnamesNew, showPathChk.GetOr(false))
      ensures added == |NewItems(fnamesNew, showPathChk.GetOr(false))|
    {
      added := 0;
      ghost var show := showPathChk.GetOr(false);
      for f := 0 to |fnamesNew|
        invariant items == old(items) + NewItems(fnamesNew[..f], show)
        invariant added == |items| - |old(items)|
      {
        NewItemsPrefix(fnamesNew, f, show);
        ghost var prev := NewItems(fnamesNew[..f], show);
        var ok := AddCandidate(fnamesNew[f]);
        if ok {
          assert items == old(items) + (prev + [ItemFor(fnamesNew[f], show).value]);
          added := added + 1;
        } else {
          assert items == old(items) + prev;
        }
      }
      assert fnamesNew[..|fnamesNew|] == fnamesNew;
    }

    /** `get_new_file_list`: refresh the paths, then keep those with a matching
        extension whose base name is not in the old list. */
    method GetNewFileList(fext: seq<string>, flistOld: seq<string>) returns (fnamesNew: seq<string>)
      modifies this
      ensures items == old(items) && showPathChk == old(showPathChk)
      ensures filenames == ItemPaths(items)
      ensures fnamesNew == NewFileList(ItemPaths(items), fext, Basenames(flistOld))
    {
      GetCurrentFileList();
      fnamesNew := NewFileList(filenames, fext, Basenames(flistOld));
    }

    /** `remove_files`: clear everything, or take out the selected items. With
        items present and nothing selected, nothing is removed. After a
        selective removal the path list is not refreshed. */
    method RemoveFiles(clearAll: bool, selected: seq<nat>) returns (removed: Removed)
      requires forall i :: 0 <= i < |selected| ==> selected[i] < |items|
      modifies this
      ensures showPathChk == old(showPathChk)
      ensures clearAll ==> removed == RemovedPaths(ItemPaths(old(items))) && items == [] && filenames == []
      ensures !clearAll && |old(items)| > 0 && |selected| == 0 ==>
                removed == RemovedItems([]) && items == old(items) && filenames == ItemPaths(old(items))
      ensures !clearAll && !(|old(items)| > 0 && |selected| == 0) ==>
                && removed == RemovedItems(Picked(old(items), selected))
                && items == Unselected(old(items), selected)
                && filenames == ItemPaths(old(items))
      ensures !clearAll && !(|old(items)| > 0 && |selected| == 0) ==>
                && |items| + |SelectedBelow(|old(items)|, selected)| == |old(items)|
                && |items| == |KeptPositions(|old(items)|, selected)|
                && forall j :: 0 <= j < |items| ==> items[j] == old(items)[KeptPositions(|old(items)|, selected)[j]]
    {
      GetCurrentFileList();
      if clearAll {
        removed := RemovedPaths(filenames);
        items := [];
        filenames := [];
      } else if |filenames| > 0 && |selected| == 0 {
        removed := RemovedItems([]);
      } else {
        var taken: seq<ListItem> := [];
        for k := 0 to |selected|
          invariant |taken| == k
          invariant forall i :: 0 <= i < k ==> taken[i] == items[selected[i]]
        {
          taken := taken + [items[selected[k]]];
        }
        UnselectedAtKept(items, selected);
        KeptPositionsCount(|items|, selected);
        items := Unselected(items, selected);
        removed := RemovedItems(taken);
      }
    }

    /** `show_file_paths`: reset every item's text from its stored path. An item
        whose path has no '/' raises; the items before it are already updated
        and `ok` is false. */
    method ShowFilePaths() returns (ok: bool)
      modifies this
      ensures filenames == old(filenames) && showPathChk == old(showPathChk)
      ensures ok <==> forall i :: 0 <= i < |old(items)| ==> '/' in old(items)[i].data
      ensures |items| == |old(items)|
      ensures forall i :: 0 <= i < |items| ==> items[i].data == old(items)[i].data
      ensures forall i :: 0 <= i < |items| ==>
                items[i].text == if i < FirstUnsplittable(old(items))
                                 then PathText(old(items)[i].data, old(showPathChk).GetOr(false)).value
                                 else old(items)[i].text
    {
      var showPath := if showPathChk.Some? then showPathChk.value else false;
      ghost var stop := FirstUnsplittable(items);
      ghost var items0 := items;
      for i := 0 to |items|
        invariant filenames == old(filenames) && showPathChk == old(showPathChk)
        invariant |items| == |items0| && i <= stop
        invariant forall j :: 0 <= j < |items| ==> items[j].data == items0[j].data
        invariant forall j :: 0 <= j < |items| ==>
                    items[j].text == if j < i then PathText(items0[j].data, showPath).value else items0[j].text
      {
        var split := RSplitOnce(items[i].data, '/');
        if split.None? {
          assert '/' !in items0[i].data;
          assert i == stop;
          return false;
        }
        items := items[i := ListItem(DisplayText(split.value.0, split.value.1, showPath), items[i].data)];
      }
      ok := true;
    }
  }

  // ---------------------------------------------------------------------------
  // update_system_info: ship and model names
  // ---------------------------------------------------------------------------

  /** The ship name read from a file name: remove `strReplace`, drop everything
      from the first '.', join the '_'-separated fields from the fourth on with
      spaces, cut at the first "EM" and strip white space. */
  function ShipNameFrom(fname: string, strReplace: string): (r: string)
    ensures '.' !in r && '_' !in r
    ensures !Contains(r, "EM")
    ensures |r| > 0 ==> !IsSpace(r[0]) && !IsSpace(r[|r| - 1])
  {
    var stem := BeforeFirst(RemoveAll(fname, strReplace), ".");
    var fields := Split(stem, '_');
    var joined := Join(FromFourth(fields), " ");
    var cut := BeforeFirst(joined, "EM");
    var r := Strip(cut);
    StripIsSlice(cut);
    var a := StripStart(cut);
    NameCharsAbsent(stem, fields, joined, cut, r, a, a + |r|);
    InfixAvoids(cut, a, a + |r|, "EM");
    r
  }

  /** `fields[3:]`: empty when there are fewer than four fields. */
  function FromFourth(fields: seq<string>): (r: seq<string>)
    ensures forall f :: f in r ==> f in fields
  {
    if |fields| >= 3 then fields[3..] else []
  }

  lemma NameCharsAbsent(stem: string, fields: seq<string>, joined: string, cut: string, r: string, a: nat, b: nat)
    requires !Contains(stem, ".")
    requires fields == Split(stem, '_') && joined == Join(FromFourth(fields), " ")
    requires StartsWith(joined, cut)
    requires a <= b <= |cut| && r == cut[a..b]
    ensures '.' !in r && '_' !in r
  {
    CharNotContained(stem, '.');
    SplitFieldsAvoid(stem, '_', '.');
    JoinChars(FromFourth(fields), " ", '.');
    JoinChars(FromFourth(fields), " ", '_');
    assert r == joined[a..b];
  }

  const ShipNameUnavailable: string := "Ship Name N/A"
  const ModelNameUnavailable: string := "Model N/A"

  /** The ship name from the detections' first file name; "Ship Name N/A" where
      the source's expression raises (no 'fname' list, an empty one, or a first
      entry that is not a string). */
  function ShipName(detFnames: Option<seq<Value>>, strReplace: string): (r: string)
    ensures detFnames.None? || |detFnames.value| == 0 ==> r == ShipNameUnavailable
    ensures detFnames.Some? && |detFnames.value| > 0 && detFnames.value[0].Text? ==>
              r == ShipNameFrom(detFnames.value[0].s, strReplace)
    ensures detFnames.Some? && |detFnames.value| > 0 && !detFnames.value[0].Text? ==> r == ShipNameUnavailable
  {
    if detFnames.Some? && |detFnames.value| > 0 && detFnames.value[0].Text?
    then ShipNameFrom(detFnames.value[0].s, strReplace)
    else ShipNameUnavailable
  }

  /** A file named by the convention `<line>_<date>_<time>_<ship>_EM<model>.<ext>`
      gives back the ship name, when the ship name has no '_', '.' or "EM" in
      it and no surrounding white space. */
  lemma ShipNameOfConventionalName(line: string, date: string, time: string, ship: string, model: string, ext: string)
    requires '_' !in line && '_' !in date && '_' !in time && '_' !in ship && '_' !in model
    requires '.' !in line && '.' !in date && '.' !in time && '.' !in ship && '.' !in model
    requires |ship| > 0 && !IsSpace(ship[0]) && !IsSpace(ship[|ship| - 1]) && !Contains(ship, "EM")
    ensures ShipNameFrom(line + "_" + date + "_" + time + "_" + ship + "_EM" + model + "." + ext, "") == ship
  {
    var name := line + "_" + date + "_" + time + "_" + ship + "_EM" + model + "." + ext;
    var stem := line + "_" + (date + "_" + (time + "_" + (ship + "_" + ("EM" + model))));
    assert name == stem + "." + ext;
    ConventionalStem(stem, ext);
    ConventionalFields(line, date, time, ship, "EM" + model);
    var joined := ship + " " + ("EM" + model);
    assert Join(FromFourth([line, date, time, ship, "EM" + model]), " ") == joined;
    ConventionalCut(ship, model);
    StripAfterName(ship);
  }

  lemma ConventionalStem(stem: string, ext: string)
    requires '.' !in stem
    ensures BeforeFirst(stem + "." + ext, ".") == stem
  {
    var name := stem + "." + ext;
    forall i | 0 <= i < |stem| ensures !OccursAt(name, ".", i) {
      assert name[i] == stem[i];
    }
    BeforeFirstAt(name, ".", |stem|);
    assert name[..|stem|] == stem;
  }

  lemma ConventionalFields(line: string, date: string, time: string, ship: string, em: string)
    requires '_' !in line && '_' !in date && '_' !in time && '_' !in ship && '_' !in em
    ensures Split(line + "_" + (date + "_" + (time + "_" + (ship + "_" + em))), '_') == [line, date, time, ship, em]
  {
    var r1 := date + "_" + (time + "_" + (ship + "_" + em));
    SplitFour(date, time, ship, em);
    SplitCons(line, r1, [date, time, ship, em]);
  }

  lemma SplitFour(date: string, time: string, ship: string, em: string)
    requires '_' !in date && '_' !in time && '_' !in ship && '_' !in em
    ensures Split(date + "_" + (time + "_" + (ship + "_" + em)), '_') == [date, time, ship, em]
  {
    var r2 := time + "_" + (ship + "_" + em);
    SplitThree(time, ship, em);
    SplitCons(date, r2, [time, ship, em]);
  }

  lemma SplitThree(time: string, ship: string, em: string)
    requires '_' !in time && '_' !in ship && '_' !in em
    ensures Split(time + "_" + (ship + "_" + em), '_') == [time, ship, em]
  {
    var r3 := ship + "_" + em;
    SplitTwo(ship, em);
    SplitCons(time, r3, [ship, em]);
  }

  lemma SplitTwo(ship: string, em: string)
    requires '_' !in ship && '_' !in em
    ensures Split(ship + "_" + em, '_') == [ship, em]
  {
    assert FirstIndexOf(em, '_').None?;
    SplitCons(ship, em, [em]);
  }

  lemma SplitCons(first: string, rest: string, tail: seq<string>)
    requires '_' !in first && Split(rest, '_') == tail
    ensures Split(first + "_" + rest, '_') == [first] + tail
  {
    SplitField(first + "_" + rest, first, rest);
  }

  lemma ConventionalCut(ship: string, model: string)
    requires |ship| > 0 && !Contains(ship, "EM")
    ensures BeforeFirst(ship + " " + ("EM" + model), "EM") == ship + " "
  {
    var joined := ship + " " + ("EM" + model);
    forall i | 0 <= i < |ship| + 1 ensures !OccursAt(joined, "EM", i) {
      if i + 2 <= |ship| {
        assert joined[i] == ship[i] && joined[i + 1] == ship[i + 1];
        assert !OccursAt(ship, "EM", i);
      } else if i + 1 == |ship| {
        assert joined[i + 1] == ' ';
      } else {
        assert joined[i] == ' ';
      }
    }
    BeforeFirstAt(joined, "EM", |ship| + 1);
    assert joined[..|ship| + 1] == ship + " ";
  }

  /** Stripping a name followed by a space gives the name. */
  lemma StripAfterName(ship: string)
    requires |ship| > 0 && !IsSpace(ship[0]) && !IsSpace(ship[|ship| - 1])
    ensures Strip(ship + " ") == ship
  {
    var t := ship + " ";
    assert StripLeft(t) == t;
    assert t[..|t| - 1] == ship;
    assert StripRight(t) == StripRight(ship) == ship;
  }

  /** Splitting at the first separator. */
  lemma SplitField(s: string, first: string, rest: string)
    requires s == first + "_" + rest && '_' !in first
    ensures Split(s, '_') == [first] + Split(rest, '_')
  {
    assert s[..|first|] == first;
    FirstIndexAt(s, '_', |first|);
    assert s[|first| + 1..] == rest;
  }

  lemma {:induction false} FirstIndexAt(s: string, c: char, k: nat)
    requires k < |s| && s[k] == c && c !in s[..k]
    ensures FirstIndexOf(s, c) == Some(k)
    decreases k
  {
    if k > 0 {
      assert s[0] == s[..k][0];
      assert s[1..][..k - 1] == s[..k][1..];
      FirstIndexAt(s[1..], c, k - 1);
    }
  }

  /** The model name: "EM " followed by the first model number; "Model N/A"
      where there is none. */
  function ModelName(detModels: Option<seq<Value>>): (r: string)
    ensures detModels.None? || |detModels.value| == 0 <==> r == ModelNameUnavailable
    ensures r != ModelNameUnavailable ==> StartsWith(r, "EM ") && r[3..] == ValueToString(detModels.value[0])
  {
    if detModels.Some? && |detModels.value| > 0 then
      var r := "EM " + ValueToString(detModels.value[0]);
      assert r[0] == 'E' && r[3..] == ValueToString(detModels.value[0]);
      r
    else ModelNameUnavailable
  }

  /** A numeric model reads back from its name. */
  lemma ModelNameReadsBack(detModels: seq<Value>, n: nat)
    requires |detModels| > 0 && detModels[0] == Num(n)
    ensures ParseDigits(ModelName(Some(detModels))[3..]) == n
  {
    var r := ModelName(Some(detModels));
    assert r[3..] == NatToString(n);
    NatToStringRoundTrip(n);
  }
}
