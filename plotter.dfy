/** The data-management state of the swath coverage plotter window
    (swath_coverage_plotter.py): the decimation-cache state machine, loading
    swath PKL files into `data_new` and merging their detections into `det`,
    adding PKL files from a directory, and the predicate that enables the
    source-file buttons. Widgets are their texts; file reads and the analysis
    routines of the unseen library are parameters. */
module Plotter {
  import opened Common
  import opened Strings
  import opened OrderedDict
  import FileFun

  /** One loaded swath PKL file: a dictionary whose values the plotter only
      moves around, except for its `fname` entry. */
  type Entry = map<string, Value>

  /** The detection dictionary: one list per key. */
  type Det = map<string, seq<Value>>

  // ---------------------------------------------------------------------------
  // Decimation cache
  // ---------------------------------------------------------------------------

  /** The decimation settings record. `Unrecorded` is the empty dictionary the
      window starts with; a text box that does not exist leaves its key out. */
  datatype DecimationSettings =
    | Unrecorded
    | Disabled
    | Enabled(maxPoints: Option<string>, decFactor: Option<string>)

  /** The settings read from the widgets: with decimation off only the flag is
      recorded, so the two text boxes do not take part. */
  function CurrentSettings(enabled: bool, maxPointsText: Option<string>, decFactorText: Option<string>): (r: DecimationSettings)
    ensures r != Unrecorded
    ensures !enabled <==> r == Disabled
    ensures enabled ==> r.maxPoints == maxPointsText && r.decFactor == decFactorText
  {
    if enabled then Enabled(maxPointsText, decFactorText) else Disabled
  }

  /** The three fields of the cache state machine. */
  datatype CacheState = CacheState(cache: map<string, Entry>, valid: bool, last: DecimationSettings)

  /** `_invalidate_decimation_cache`. */
  function Invalidated(s: CacheState): (r: CacheState)
    ensures r.cache == map[] && !r.valid && r.last == s.last
  {
    CacheState(map[], false, s.last)
  }

  /** `_check_decimation_settings_changed`: reports a change and records the
      current settings as the last ones. */
  function SettingsCheck(s: CacheState, current: DecimationSettings): (r: (bool, CacheState))
    ensures r.0 <==> current != s.last
    ensures r.1.cache == s.cache && r.1.valid == s.valid && r.1.last == current
  {
    (current != s.last, s.(last := current))
  }

  /** `_should_use_decimation_cache`. */
  function CacheDecision(s: CacheState, current: DecimationSettings): (r: (bool, CacheState))
    ensures !s.valid ==> r == (false, s)
    ensures r.0 <==> s.valid && s.last == current
    ensures r.0 ==> r.1 == s
    ensures s.valid && s.last != current ==> r.1 == CacheState(map[], false, current)
  {
    if !s.valid then (false, s)
    else
      var (changed, s1) := SettingsCheck(s, current);
      if changed then (false, Invalidated(s1)) else (true, s1)
  }

  /** A second check with the same settings reports no change. */
  lemma SettingsCheckIdempotent(s: CacheState, current: DecimationSettings)
    ensures !SettingsCheck(SettingsCheck(s, current).1, current).0
    ensures SettingsCheck(SettingsCheck(s, current).1, current).1 == SettingsCheck(s, current).1
  {
  }

  /** After a decision the cache is valid exactly when it was used, and asking
      again with the same settings gives the same answer and the same state. */
  lemma CacheDecisionStable(s: CacheState, current: DecimationSettings)
    ensures CacheDecision(s, current).1.valid == CacheDecision(s, current).0
    ensures CacheDecision(CacheDecision(s, current).1, current) == CacheDecision(s, current)
  {
  }

  /** The settings the window starts with always differ from the current ones,
      so the first check after start-up reports a change. */
  lemma FirstCheckReportsChange(enabled: bool, maxPointsText: Option<string>, decFactorText: Option<string>)
    ensures SettingsCheck(CacheState(map[], false, Unrecorded), CurrentSettings(enabled, maxPointsText, decFactorText)).0
  {
  }

  // ---------------------------------------------------------------------------
  // update_file_buttons
  // ---------------------------------------------------------------------------

  predicate IsSourceFileName(text: string) {
    EndsWith(text, ".all") || EndsWith(text, ".kmall")
  }

  /** The scan in `update_file_buttons`: some item's text ends with ".all" or
      ".kmall", matched case-sensitively. */
  method HasSourceFiles(texts: seq<string>) returns (has: bool)
    ensures has <==> exists i :: 0 <= i < |texts| && IsSourceFileName(texts[i])
  {
    has := false;
    var i := 0;
    while i < |texts|
      invariant 0 <= i <= |texts|
      invariant forall j :: 0 <= j < i ==> !IsSourceFileName(texts[j])
    {
      if IsSourceFileName(texts[i]) {
        has := true;
        break;
      }
      i := i + 1;
    }
  }

  // ---------------------------------------------------------------------------
  // add_pkl_files_from_directory
  // ---------------------------------------------------------------------------

  predicate IsPklName(name: string) {
    EndsWith(Lower(name), ".pkl")
  }

  /** The PKL files of one directory, joined to it, in listing order. */
  function PklFilesIn(dir: string, names: seq<string>): (r: seq<string>)
    ensures |r| <= |names|
  {
    if |names| == 0 then []
    else
      var init, last := names[..|names| - 1], names[|names| - 1];
      PklFilesIn(dir, init) + (if IsPklName(last) then [PathJoin(dir, last)] else [])
  }

  /** Exactly the names ending in ".pkl", in any case, are collected. */
  lemma {:induction false} PklFilesInMeaning(dir: string, names: seq<string>, x: string)
    ensures x in PklFilesIn(dir, names) <==> exists n :: n in names && IsPklName(n) && x == PathJoin(dir, n)
  {
    if |names| > 0 {
      var init, last := names[..|names| - 1], names[|names| - 1];
      assert names == init + [last];
      PklFilesInMeaning(dir, init, x);
    }
  }

  /** The files found: along the walk with subfolders, else directly inside. */
  function PklFiles(selectedDir: string, includeSubdir: bool, walk: seq<FileFun.WalkStep>, listing: seq<string>): seq<string> {
    if includeSubdir then PklFilesInTree(walk) else PklFilesIn(selectedDir, listing)
  }

  function PklFilesInTree(walk: seq<FileFun.WalkStep>): seq<string> {
    if |walk| == 0 then []
    else
      var init, last := walk[..|walk| - 1], walk[|walk| - 1];
      PklFilesInTree(init) + PklFilesIn(last.dirpath, last.filenames)
  }

  /** The files the dedup loop appends: each one not yet in the list, with
      the list growing as it goes. */
  function Appended(list: seq<string>, files: seq<string>): (r: seq<string>)
    ensures FileFun.NoDup(r)
    ensures forall x :: x in r ==> x !in list && x in files
  {
    if |files| == 0 then []
    else
      var init, last := files[..|files| - 1], files[|files| - 1];
      var prev := Appended(list, init);
      if last in list + prev then prev else prev + [last]
  }

  /** `original_swath_pkl_paths` after appending `added` to a list of
      length `base`: each path is recorded under its index in the list. */
  function Recorded(paths: map<int, string>, base: nat, added: seq<string>): (r: map<int, string>)
    ensures paths.Keys <= r.Keys
    ensures |added| > 0 ==> base + |added| - 1 in r && r[base + |added| - 1] == added[|added| - 1]
  {
    if |added| == 0 then paths
    else Recorded(paths, base, added[..|added| - 1])[base + |added| - 1 := added[|added| - 1]]
  }

  /** The new indices read the appended paths; other recorded indices keep
      their paths; nothing else is recorded. */
  lemma {:induction false} RecordedMeaning(paths: map<int, string>, base: nat, added: seq<string>)
    ensures forall i :: base <= i < base + |added| ==>
              i in Recorded(paths, base, added) && Recorded(paths, base, added)[i] == added[i - base]
    ensures forall i :: i in paths && !(base <= i < base + |added|) ==>
              i in Recorded(paths, base, added) && Recorded(paths, base, added)[i] == paths[i]
    ensures forall i :: i in Recorded(paths, base, added) ==> i in paths || base <= i < base + |added|
  {
    if |added| > 0 {
      var init := added[..|added| - 1];
      RecordedMeaning(paths, base, init);
    }
  }

  lemma RecordedSnoc(paths: map<int, string>, base: nat, added: seq<string>, x: string)
    ensures Recorded(paths, base, added + [x]) == Recorded(paths, base, added)[base + |added| := x]
  {
    assert (added + [x])[..|added|] == added;
  }

  /** One more file found is appended when it is in neither list. */
  lemma AppendedPrefix(list: seq<string>, files: seq<string>, j: nat)
    requires j < |files|
    ensures files[j] in list + Appended(list, files[..j]) ==>
              Appended(list, files[..j + 1]) == Appended(list, files[..j])
    ensures files[j] !in list + Appended(list, files[..j]) ==>
              Appended(list, files[..j + 1]) == Appended(list, files[..j]) + [files[j]]
  {
    assert files[..j + 1][..j] == files[..j];
  }

  /** Nothing found is lost: each file is in the old list or was appended. */
  lemma {:induction false} AppendedComplete(list: seq<string>, files: seq<string>, f: string)
    requires f in files
    ensures f in list || f in Appended(list, files)
  {
    var init, last := files[..|files| - 1], files[|files| - 1];
    assert files == init + [last];
    if f != last {
      AppendedComplete(list, init, f);
    }
  }

  // ---------------------------------------------------------------------------
  // Loading a batch of PKL files
  // ---------------------------------------------------------------------------

  /** What `load_pickle_file` gives for one path: a status and the data. */
  datatype Loaded = Loaded(status: bool, data: Entry)

  /** What `interpretMode` gives back: a list of entries or a dictionary. */
  datatype Interpreted = AsList(entries: seq<Entry>) | AsDict(d: seq<(Value, Entry)>)

  /** A file counts as loaded when its status is true and its data non-empty. */
  predicate Accepted(l: Loaded) {
    l.status && |l.data| > 0
  }

  /** The loop over the batch: each accepted file's data (after decimation
      when that is switched on) is assigned to its base name, replacing what
      an earlier file of the same name put there, and its path is recorded. */
  function LoadBatch(
    dataNew: seq<(Value, Entry)>, filenames: seq<string>, pklFiles: seq<string>,
    load: string -> Loaded, decimationOn: bool, decimate: Entry -> Entry): (r: (seq<(Value, Entry)>, seq<string>))
    ensures |r.1| <= |filenames| + |pklFiles|
  {
    if |pklFiles| == 0 then (dataNew, filenames)
    else
      var init, last := pklFiles[..|pklFiles| - 1], pklFiles[|pklFiles| - 1];
      var (d, f) := LoadBatch(dataNew, filenames, init, load, decimationOn, decimate);
      var l := load(last);
      if Accepted(l) then
        (Put(d, Text(Basename(last)), Stored(l, decimationOn, decimate)), f + [last])
      else (d, f)
  }

  /** The base name of every accepted file is a key, and earlier keys stay
      (`LoadBatchLookup` says which file's data the key holds). */
  lemma {:induction false} LoadBatchKeys(
    dataNew: seq<(Value, Entry)>, filenames: seq<string>, pklFiles: seq<string>,
    load: string -> Loaded, decimationOn: bool, decimate: Entry -> Entry, k: Value)
    ensures var r := LoadBatch(dataNew, filenames, pklFiles, load, decimationOn, decimate);
            && (k in Keys(dataNew) ==> k in Keys(r.0))
            && (forall p :: p in pklFiles && Accepted(load(p)) && k == Text(Basename(p)) ==> k in Keys(r.0))
  {
    if |pklFiles| > 0 {
      var init, last := pklFiles[..|pklFiles| - 1], pklFiles[|pklFiles| - 1];
      assert pklFiles == init + [last];
      LoadBatchKeys(dataNew, filenames, init, load, decimationOn, decimate, k);
      var prev := LoadBatch(dataNew, filenames, init, load, decimationOn, decimate);
      if Accepted(load(last)) {
        PutKeys(prev.0, Text(Basename(last)), Stored(load(last), decimationOn, decimate));
      }
    }
  }

  /** The files of a batch that load, in batch order. */
  function AcceptedPaths(pklFiles: seq<string>, load: string -> Loaded): (r: seq<string>)
    ensures |r| <= |pklFiles|
    ensures forall x :: x in r <==> x in pklFiles && Accepted(load(x))
  {
    if |pklFiles| == 0 then []
    else
      var init, last := pklFiles[..|pklFiles| - 1], pklFiles[|pklFiles| - 1];
      assert pklFiles == init + [last];
      AcceptedPaths(init, load) + (if Accepted(load(last)) then [last] else [])
  }

  /** The paths of exactly the accepted files are appended to `filenames`, in
      batch order. */
  lemma {:induction false} LoadBatchPaths(
    dataNew: seq<(Value, Entry)>, filenames: seq<string>, pklFiles: seq<string>,
    load: string -> Loaded, decimationOn: bool, decimate: Entry -> Entry)
    ensures LoadBatch(dataNew, filenames, pklFiles, load, decimationOn, decimate).1
            == filenames + AcceptedPaths(pklFiles, load)
  {
    if |pklFiles| > 0 {
      var init := pklFiles[..|pklFiles| - 1];
      LoadBatchPaths(dataNew, filenames, init, load, decimationOn, decimate);
    }
  }

  /** What a file stores: its data, decimated when decimation is on. */
  function Stored(l: Loaded, decimationOn: bool, decimate: Entry -> Entry): Entry {
    if decimationOn then decimate(l.data) else l.data
  }

  /** An accepted file that no later accepted file of the batch shares a base
      name with has its data under its base name: a later file with the same
      base name would overwrite it. */
  lemma {:induction false} LoadBatchLookup(
    dataNew: seq<(Value, Entry)>, filenames: seq<string>, pklFiles: seq<string>,
    load: string -> Loaded, decimationOn: bool, decimate: Entry -> Entry, i: nat)
    requires i < |pklFiles| && Accepted(load(pklFiles[i]))
    requires forall j :: i < j < |pklFiles| && Accepted(load(pklFiles[j])) ==>
               Basename(pklFiles[j]) != Basename(pklFiles[i])
    ensures Lookup(LoadBatch(dataNew, filenames, pklFiles, load, decimationOn, decimate).0, Text(Basename(pklFiles[i])))
            == Some(Stored(load(pklFiles[i]), decimationOn, decimate))
  {
    var n := |pklFiles|;
    var init, last := pklFiles[..n - 1], pklFiles[n - 1];
    var prev := LoadBatch(dataNew, filenames, init, load, decimationOn, decimate);
    var key := Text(Basename(pklFiles[i]));
    if Accepted(load(last)) {
      PutLookup(prev.0, Text(Basename(last)), Stored(load(last), decimationOn, decimate), key);
    }
    if i < n - 1 {
      assert init[i] == pklFiles[i];
      assert forall j :: i < j < |init| ==> init[j] == pklFiles[j];
      LoadBatchLookup(dataNew, filenames, init, load, decimationOn, decimate, i);
    }
  }

  /** A key that is no accepted file's base name keeps what it held before. */
  lemma {:induction false} LoadBatchKeepsOthers(
    dataNew: seq<(Value, Entry)>, filenames: seq<string>, pklFiles: seq<string>,
    load: string -> Loaded, decimationOn: bool, decimate: Entry -> Entry, k: Value)
    requires forall p :: p in pklFiles && Accepted(load(p)) ==> Text(Basename(p)) != k
    ensures Lookup(LoadBatch(dataNew, filenames, pklFiles, load, decimationOn, decimate).0, k) == Lookup(dataNew, k)
  {
    if |pklFiles| > 0 {
      var n := |pklFiles|;
      var init, last := pklFiles[..n - 1], pklFiles[n - 1];
      assert forall p :: p in init ==> p in pklFiles;
      LoadBatchKeepsOthers(dataNew, filenames, init, load, decimationOn, decimate, k);
      var prev := LoadBatch(dataNew, filenames, init, load, decimationOn, decimate);
      if Accepted(load(last)) {
        PutLookup(prev.0, Text(Basename(last)), Stored(load(last), decimationOn, decimate), k);
      }
    }
  }

  /** An entry without `fname` gets its dictionary key as `fname`. */
  function WithFname(key: Value, data: Entry): (r: Entry)
    ensures "fname" in r
    ensures "fname" in data ==> r == data
    ensures "fname" !in data ==> r["fname"] == key && r - {"fname"} == data
  {
    if "fname" in data then data else data["fname" := key]
  }

  /** The key an interpreted entry is filed under: its `fname`, or `file_<i>`. */
  function EntryKey(data: Entry, i: nat): (k: Value)
    ensures "fname" in data ==> k == data["fname"]
    ensures "fname" !in data ==> k.Text? && StartsWith(k.s, "file_") && |k.s| > 5
  {
    if "fname" in data then data["fname"] else Text("file_" + IntToString(i))
  }

  /** Rebuilding `data_new` from the interpreted list, entry by entry; a later
      entry with the same key replaces an earlier one. */
  function Rekeyed(entries: seq<Entry>): (r: seq<(Value, Entry)>)
    ensures DistinctKeys(r)
    ensures |r| <= |entries|
  {
    if |entries| == 0 then []
    else
      var init, last := entries[..|entries| - 1], entries[|entries| - 1];
      var prev := Rekeyed(init);
      PutKeepsDistinct(prev, EntryKey(last, |init|), last);
      PutKeys(prev, EntryKey(last, |init|), last);
      Put(prev, EntryKey(last, |init|), last)
  }

  /** Each key reads the last entry filed under it. */
  lemma {:induction false} RekeyedLookup(entries: seq<Entry>, k: Value, j: nat)
    requires j < |entries| && EntryKey(entries[j], j) == k
    requires forall i :: j < i < |entries| ==> EntryKey(entries[i], i) != k
    ensures Lookup(Rekeyed(entries), k) == Some(entries[j])
  {
    var init, last := entries[..|entries| - 1], entries[|entries| - 1];
    var prev := Rekeyed(init);
    var key := EntryKey(last, |init|);
    assert Rekeyed(entries) == Put(prev, key, last);
    PutLookup(prev, key, last, k);
    if j == |init| {
      assert key == k;
    } else {
      assert key != k;
      assert init[j] == entries[j] && EntryKey(init[j], j) == k;
      RekeyedLookup(init, k, j);
      assert Lookup(prev, k) == Some(entries[j]);
    }
  }

  /** When every entry carries a distinct `fname`, the rebuilt dictionary is
      the list keyed by `fname`, in the same order, and no `file_<i>` key
      appears. */
  lemma {:induction false} RekeyedByFname(entries: seq<Entry>)
    requires forall i :: 0 <= i < |entries| ==> "fname" in entries[i]
    requires forall i, j :: 0 <= i < j < |entries| ==> entries[i]["fname"] != entries[j]["fname"]
    ensures |Rekeyed(entries)| == |entries|
    ensures forall i :: 0 <= i < |entries| ==> Rekeyed(entries)[i] == (entries[i]["fname"], entries[i])
  {
    if |entries| > 0 {
      var init, last := entries[..|entries| - 1], entries[|entries| - 1];
      RekeyedByFname(init);
      var prev := Rekeyed(init);
      assert EntryKey(last, |init|) == last["fname"];
      assert last["fname"] !in Keys(prev) by {
        forall i | 0 <= i < |init| ensures Keys(prev)[i] != last["fname"] {
          assert Keys(prev)[i] == init[i]["fname"] == entries[i]["fname"];
        }
      }
      PutNewKey(prev, last["fname"], last);
    }
  }

  /** The entries handed to `interpretMode`: every value of `data_new`, with
      its key filled in as `fname` where missing. */
  function Tagged(dataNew: seq<(Value, Entry)>): (r: seq<Entry>)
    ensures |r| == |dataNew|
    ensures forall i :: 0 <= i < |dataNew| ==> r[i] == WithFname(dataNew[i].0, dataNew[i].1)
  {
    seq(|dataNew|, i requires 0 <= i < |dataNew| => WithFname(dataNew[i].0, dataNew[i].1))
  }

  /** `data_new` after interpretation: rebuilt by `fname` from a list, or the
      dictionary as returned. */
  function Reinterpreted(dataNew: seq<(Value, Entry)>, interpret: seq<Entry> -> Interpreted): (r: seq<(Value, Entry)>)
    ensures interpret(Tagged(dataNew)).AsList? ==> DistinctKeys(r) && |r| <= |interpret(Tagged(dataNew)).entries|
  {
    match interpret(Tagged(dataNew))
    case AsList(entries) => Rekeyed(entries)
    case AsDict(d) => d
  }

  /** The merge of `det_new` into `det`: a key in both gets the old list
      followed by the new one; a key in one of them keeps its list. */
  function Merged(det: Det, detNew: Det): (r: Det)
    ensures r.Keys == det.Keys + detNew.Keys
    ensures forall k :: k in det && k !in detNew ==> r[k] == det[k]
    ensures forall k :: k !in det && k in detNew ==> r[k] == detNew[k]
    ensures forall k :: k in det && k in detNew ==> r[k] == det[k] + detNew[k]
  {
    map k | k in det.Keys + detNew.Keys :: Get(det, k, []) + Get(detNew, k, [])
  }

  /** A dictionary with the merged keys and the merged lists is the merge. */
  lemma MergedPointwise(det: Det, det0: Det, detNew: Det)
    requires det.Keys == det0.Keys + detNew.Keys
    requires forall k :: k in det ==> det[k] == Get(det0, k, []) + (if k in detNew then detNew[k] else [])
    ensures det == Merged(det0, detNew)
  {
    var merged := Merged(det0, detNew);
    forall k | k in det ensures det[k] == merged[k] {
      if k in det0 && k in detNew {
        assert merged[k] == det0[k] + detNew[k];
      } else if k in det0 {
        assert det[k] == det0[k] + [];
      }
    }
  }

  /** Part way through the merge loop: the keys of `det_new` not in
      `remaining` have been merged into `det0`. */
  predicate MergeProgress(det: Det, det0: Det, detNew: Det, remaining: set<string>) {
    && remaining <= detNew.Keys
    && det.Keys == det0.Keys + (detNew.Keys - remaining)
    && forall k :: k in det ==>
         det[k] == Get(det0, k, []) + (if k in detNew && k !in remaining then detNew[k] else [])
  }

  /** Merging one more key keeps the loop's account. */
  lemma MergeProgressStep(det: Det, det0: Det, detNew: Det, remaining: set<string>, key: string)
    requires MergeProgress(det, det0, detNew, remaining) && key in remaining
    ensures MergeProgress(det[key := if key in det then det[key] + detNew[key] else detNew[key]],
                          det0, detNew, remaining - {key})
  {
    var det' := det[key := if key in det then det[key] + detNew[key] else detNew[key]];
    var remaining' := remaining - {key};
    forall k | k in det'
      ensures det'[k] == Get(det0, k, []) + (if k in detNew && k !in remaining' then detNew[k] else [])
    {
      if k == key && key !in det {
        assert key !in det0;
        assert det'[k] == [] + detNew[k];
      }
    }
  }

  /** Some entry is filed under `k`. */
  predicate FiledUnder(entries: seq<Entry>, k: Value) {
    exists i :: 0 <= i < |entries| && EntryKey(entries[i], i) == k
  }

  lemma FiledUnderSnoc(entries: seq<Entry>, k: Value)
    requires |entries| > 0
    ensures FiledUnder(entries, k) <==>
              FiledUnder(entries[..|entries| - 1], k) || EntryKey(entries[|entries| - 1], |entries| - 1) == k
  {
    var init := entries[..|entries| - 1];
    if FiledUnder(entries, k) {
      var i :| 0 <= i < |entries| && EntryKey(entries[i], i) == k;
      if i < |init| {
        assert init[i] == entries[i];
      }
    }
    if FiledUnder(init, k) {
      var i :| 0 <= i < |init| && EntryKey(init[i], i) == k;
      assert entries[i] == init[i];
    }
  }

  /** The keys of the rebuilt dictionary are exactly the keys its entries are
      filed under. */
  lemma {:induction false} RekeyedKeys(entries: seq<Entry>, k: Value)
    ensures k in Keys(Rekeyed(entries)) <==> FiledUnder(entries, k)
  {
    if |entries| > 0 {
      var init, last := entries[..|entries| - 1], entries[|entries| - 1];
      RekeyedKeys(init, k);
      FiledUnderSnoc(entries, k);
      var prev := Rekeyed(init);
      var key := EntryKey(last, |init|);
      assert Rekeyed(entries) == Put(prev, key, last);
      PutKeys(prev, key, last);
    }
  }

  /** Replacing an empty `det` by `det_new` is the same as merging into it. */
  lemma MergeIntoEmpty(detNew: Det)
    ensures Merged(map[], detNew) == detNew
  {
    var r := Merged(map[], detNew);
    assert forall k :: k in r ==> r[k] == detNew[k];
  }

  /** Columns of equal length stay of equal length when both dictionaries
      have the same keys. */
  lemma MergeKeepsColumnsAligned(det: Det, detNew: Det, n: nat, m: nat)
    requires det.Keys == detNew.Keys
    requires forall k :: k in det ==> |det[k]| == n
    requires forall k :: k in detNew ==> |detNew[k]| == m
    ensures forall k :: k in Merged(det, detNew) ==> |Merged(det, detNew)[k]| == n + m
  {
  }

  // ---------------------------------------------------------------------------
  // The window's data state
  // ---------------------------------------------------------------------------

  class PlotterData {
    var det: Det
    var dataNew: seq<(Value, Entry)>
    var filenames: seq<string>
    var decimationCache: map<string, Entry>
    var decimationCacheValid: bool
    var lastDecimationSettings: DecimationSettings
    var swathPklFileList: seq<string>
    var originalSwathPklPaths: map<int, string>

    function Cache(): CacheState
      reads this
    {
      CacheState(decimationCache, decimationCacheValid, lastDecimationSettings)
    }

    /** The state the window starts with (swath_coverage_plotter.py:150-173): the
        file list holds one empty name. */
    constructor ()
      ensures det == map[] && dataNew == [] && filenames == [""]
      ensures Cache() == CacheState(map[], false, Unrecorded)
      ensures swathPklFileList == [] && originalSwathPklPaths == map[]
    {
      det := map[];
      dataNew := [];
      filenames := [""];
      decimationCache := map[];
      decimationCacheValid := false;
      lastDecimationSettings := Unrecorded;
      swathPklFileList := [];
      originalSwathPklPaths := map[];
    }

    method CheckDecimationSettingsChanged(current: DecimationSettings) returns (changed: bool)
      modifies this`lastDecimationSettings
      ensures (changed, Cache()) == SettingsCheck(old(Cache()), current)
    {
      changed := current != lastDecimationSettings;
      if changed {
        lastDecimationSettings := current;
      }
    }

    method InvalidateDecimationCache()
      modifies this`decimationCache, this`decimationCacheValid
      ensures Cache() == Invalidated(old(Cache()))
    {
      decimationCache := map[];
      decimationCacheValid := false;
    }

    method ShouldUseDecimationCache(current: DecimationSettings) returns (use: bool)
      modifies this`decimationCache, this`decimationCacheValid, this`lastDecimationSettings
      ensures (use, Cache()) == CacheDecision(old(Cache()), current)
    {
      if !decimationCacheValid {
        return false;
      }
      var changed := CheckDecimationSettingsChanged(current);
      if changed {
        InvalidateDecimationCache();
        return false;
      }
      return true;
    }

    /** The merge step of `_process_pkl_files_directly`. */
    method MergeDetections(detNew: Det)
      modifies this`det
      ensures det == Merged(old(det), detNew)
    {
      if |det| == 0 {
        MergeIntoEmpty(detNew);
        det := detNew;
        return;
      }
      ghost var det0 := det;
      var remaining := detNew.Keys;
      while remaining != {}
        invariant MergeProgress(det, det0, detNew, remaining)
        decreases |remaining|
      {
        var key :| key in remaining;
        MergeProgressStep(det, det0, detNew, remaining, key);
        if key in det {
          det := det[key := det[key] + detNew[key]];
        } else {
          det := det[key := detNew[key]];
        }
        remaining := remaining - {key};
      }
      MergedPointwise(det, det0, detNew);
    }

    /** `_process_pkl_files_directly`: a non-empty batch first invalidates the
        cache; the accepted files go into `data_new`; when `data_new` holds
        anything it is interpreted, rebuilt, sorted into detections, merged
        into `det`, and the cache is marked valid. */
    method ProcessPklFilesDirectly(
      pklFiles: seq<string>, load: string -> Loaded, decimationOn: bool, decimate: Entry -> Entry,
      interpret: seq<Entry> -> Interpreted, sortDetections: seq<Entry> -> Det)
      modifies this`det, this`dataNew, this`filenames, this`decimationCache, this`decimationCacheValid
      ensures filenames == LoadBatch(old(dataNew), old(filenames), pklFiles, load, decimationOn, decimate).1
      ensures var loaded := LoadBatch(old(dataNew), old(filenames), pklFiles, load, decimationOn, decimate).0;
              |loaded| == 0 ==> dataNew == loaded && det == old(det)
      ensures var loaded := LoadBatch(old(dataNew), old(filenames), pklFiles, load, decimationOn, decimate).0;
              |loaded| > 0 ==> dataNew == Reinterpreted(loaded, interpret)
                               && det == Merged(old(det), sortDetections(Values(dataNew)))
      ensures var loaded := LoadBatch(old(dataNew), old(filenames), pklFiles, load, decimationOn, decimate).0;
              decimationCacheValid == (|loaded| > 0 || (|pklFiles| == 0 && old(decimationCacheValid)))
      ensures decimationCache == if |pklFiles| > 0 then map[] else old(decimationCache)
    {
      if |pklFiles| > 0 {
        InvalidateDecimationCache();
      }
      LoadFiles(pklFiles, load, decimationOn, decimate);
      if |dataNew| > 0 {
        InterpretAndMerge(interpret, sortDetections);
      }
    }

    /** The tail of `_process_pkl_files_directly` once `data_new` holds
        anything: interpretation, rebuilding, sorting into detections, the
        merge into `det`, and the cache marked valid. */
    method InterpretAndMerge(interpret: seq<Entry> -> Interpreted, sortDetections: seq<Entry> -> Det)
      modifies this`det, this`dataNew, this`decimationCacheValid
      ensures dataNew == Reinterpreted(old(dataNew), interpret)
      ensures det == Merged(old(det), sortDetections(Values(dataNew)))
      ensures decimationCacheValid
    {
      var dataList := TagEntries(dataNew);
      match interpret(dataList) {
        case AsList(entries) =>
          dataNew := Rekey(entries);
        case AsDict(d) =>
          dataNew := d;
      }
      var detNew := sortDetections(Values(dataNew));
      MergeDetections(detNew);
      decimationCacheValid := true;
    }

    /** The per-file loop of `_process_pkl_files_directly`. */
    method LoadFiles(pklFiles: seq<string>, load: string -> Loaded, decimationOn: bool, decimate: Entry -> Entry)
      modifies this`dataNew, this`filenames
      ensures (dataNew, filenames) == LoadBatch(old(dataNew), old(filenames), pklFiles, load, decimationOn, decimate)
    {
      for i := 0 to |pklFiles|
        invariant (dataNew, filenames) == LoadBatch(old(dataNew), old(filenames), pklFiles[..i], load, decimationOn, decimate)
      {
        assert pklFiles[..i + 1][..i] == pklFiles[..i];
        var pickleFile := pklFiles[i];
        var l := load(pickleFile);
        if l.status && |l.data| > 0 {
          var data := l.data;
          if decimationOn {
            data := decimate(data);
          }
          dataNew := Put(dataNew, Text(Basename(pickleFile)), data);
          filenames := filenames + [pickleFile];
        }
      }
      assert pklFiles[..|pklFiles|] == pklFiles;
    }

    /** `add_pkl_files_from_directory` up to the automatic load: every PKL
        file found whose path is not yet in the list is appended and its path
        recorded at its new index. */
    method AddPklFilesFromDirectory(selectedDir: string, includeSubdir: bool, walk: seq<FileFun.WalkStep>, listing: seq<string>)
      returns (addedCount: nat, newlyAdded: seq<string>)
      modifies this`swathPklFileList, this`originalSwathPklPaths
      ensures selectedDir == "" ==> newlyAdded == []
      ensures selectedDir != "" ==> newlyAdded == Appended(old(swathPklFileList), PklFiles(selectedDir, includeSubdir, walk, listing))
      ensures addedCount == |newlyAdded|
      ensures swathPklFileList == old(swathPklFileList) + newlyAdded
      ensures originalSwathPklPaths == Recorded(old(originalSwathPklPaths), |old(swathPklFileList)|, newlyAdded)
    {
      addedCount, newlyAdded := 0, [];
      if selectedDir == "" {
        return;
      }
      var pklFiles := CollectPklFiles(selectedDir, includeSubdir, walk, listing);
      addedCount, newlyAdded := AppendAbsent(pklFiles);
    }

    /** The dedup loop: each path not yet in the list is appended and
        recorded; `addedCount` counts them. */
    method AppendAbsent(pklFiles: seq<string>) returns (addedCount: nat, newlyAdded: seq<string>)
      modifies this`swathPklFileList, this`originalSwathPklPaths
      ensures newlyAdded == Appended(old(swathPklFileList), pklFiles)
      ensures addedCount == |newlyAdded|
      ensures swathPklFileList == old(swathPklFileList) + newlyAdded
      ensures originalSwathPklPaths == Recorded(old(originalSwathPklPaths), |old(swathPklFileList)|, newlyAdded)
    {
      addedCount, newlyAdded := 0, [];
      ghost var list0, paths0 := swathPklFileList, originalSwathPklPaths;
      for j := 0 to |pklFiles|
        invariant newlyAdded == Appended(list0, pklFiles[..j])
        invariant addedCount == |newlyAdded|
        invariant swathPklFileList == list0 + newlyAdded
        invariant originalSwathPklPaths == Recorded(paths0, |list0|, newlyAdded)
      {
        AppendedPrefix(list0, pklFiles, j);
        var added := AddIfAbsent(pklFiles[j]);
        if added {
          RecordedSnoc(paths0, |list0|, newlyAdded, pklFiles[j]);
          newlyAdded := newlyAdded + [pklFiles[j]];
          addedCount := addedCount + 1;
        }
      }
      assert pklFiles[..|pklFiles|] == pklFiles;
    }

    /** The body of the dedup loop: append the path unless the list has it,
        and record it under its new index. */
    method AddIfAbsent(pklFile: string) returns (added: bool)
      modifies this`swathPklFileList, this`originalSwathPklPaths
      ensures added == (pklFile !in old(swathPklFileList))
      ensures !added ==> swathPklFileList == old(swathPklFileList) && originalSwathPklPaths == old(originalSwathPklPaths)
      ensures added ==> swathPklFileList == old(swathPklFileList) + [pklFile]
      ensures added ==> originalSwathPklPaths == old(originalSwathPklPaths)[|old(swathPklFileList)| := pklFile]
    {
      var alreadyExists := ListContains(swathPklFileList, pklFile);
      added := !alreadyExists;
      if added {
        swathPklFileList := swathPklFileList + [pklFile];
        var itemIndex := |swathPklFileList| - 1;
        originalSwathPklPaths := originalSwathPklPaths[itemIndex := pklFile];
      }
    }
  }

  /** The loop over `data_new.items()` that fills in missing `fname`s. */
  method TagEntries(dataNew: seq<(Value, Entry)>) returns (dataList: seq<Entry>)
    ensures dataList == Tagged(dataNew)
  {
    dataList := [];
    for i := 0 to |dataNew|
      invariant |dataList| == i
      invariant forall j :: 0 <= j < i ==> dataList[j] == WithFname(dataNew[j].0, dataNew[j].1)
    {
      var (key, data) := dataNew[i];
      if "fname" !in data {
        data := data["fname" := key];
      }
      dataList := dataList + [data];
    }
  }

  /** One more entry is one more assignment. */
  lemma RekeyedPrefix(entries: seq<Entry>, i: nat)
    requires i < |entries|
    ensures Rekeyed(entries[..i + 1]) == Put(Rekeyed(entries[..i]), EntryKey(entries[i], i), entries[i])
  {
    assert entries[..i + 1][..i] == entries[..i];
  }

  /** The loop that rebuilds `data_new` from an interpreted list. */
  method Rekey(entries: seq<Entry>) returns (d: seq<(Value, Entry)>)
    ensures d == Rekeyed(entries)
  {
    d := [];
    for i := 0 to |entries|
      invariant d == Rekeyed(entries[..i])
    {
      RekeyedPrefix(entries, i);
      var data := entries[i];
      var key;
      if "fname" in data {
        key := data["fname"];
      } else {
        key := Text("file_" + IntToString(i));
      }
      assert key == EntryKey(entries[i], i);
      d := Put(d, key, data);
    }
    assert entries[..|entries|] == entries;
  }

  /** The inner loop of the dedup: whether some item's text equals the path. */
  method ListContains(texts: seq<string>, path: string) returns (found: bool)
    ensures found <==> path in texts
  {
    found := false;
    var i := 0;
    while i < |texts|
      invariant 0 <= i <= |texts|
      invariant path !in texts[..i]
    {
      if texts[i] == path {
        found := true;
        break;
      }
      assert texts[..i + 1] == texts[..i] + [texts[i]];
      i := i + 1;
    }
    if !found {
      assert texts[..i] == texts;
    }
  }

  /** The collection loops of `add_pkl_files_from_directory`. */
  method CollectPklFiles(selectedDir: string, includeSubdir: bool, walk: seq<FileFun.WalkStep>, listing: seq<string>)
    returns (pklFiles: seq<string>)
    ensures pklFiles == PklFiles(selectedDir, includeSubdir, walk, listing)
  {
    pklFiles := [];
    if includeSubdir {
      for w := 0 to |walk|
        invariant pklFiles == PklFilesInTree(walk[..w])
      {
        assert walk[..w + 1][..w] == walk[..w];
        var step := walk[w];
        ghost var before := pklFiles;
        for k := 0 to |step.filenames|
          invariant pklFiles == before + PklFilesIn(step.dirpath, step.filenames[..k])
        {
          assert step.filenames[..k + 1][..k] == step.filenames[..k];
          var filename := step.filenames[k];
          if IsPklName(filename) {
            pklFiles := pklFiles + [PathJoin(step.dirpath, filename)];
          }
        }
        assert step.filenames[..|step.filenames|] == step.filenames;
      }
      assert walk[..|walk|] == walk;
    } else {
      for k := 0 to |listing|
        invariant pklFiles == PklFilesIn(selectedDir, listing[..k])
      {
        assert listing[..k + 1][..k] == listing[..k];
        var filename := listing[k];
        if IsPklName(filename) {
          pklFiles := pklFiles + [PathJoin(selectedDir, filename)];
        }
      }
      assert listing[..|listing|] == listing;
    }
  }
}
