/**
 * The scan of the SD card for FLAC files (files.c:6-54): a recursive walk
 * that collects the paths of archived `.flac` files into a list of fixed
 * capacity.
 *
 * The card is a map from a directory path to what reading that directory
 * yields. A path that is not in the map cannot be opened; a directory whose
 * `readFails` is set delivers its entries and then fails on the next read,
 * otherwise the read after the last entry reports the end of the directory.
 */
module Files {
  import opened Common

  /** `MAX_NUMBER_OF_FILES`: the capacity of a `FileList`. */
  const MaxNumberOfFiles: nat := 25

  /** One directory entry: its name and its directory and archive attribute bits. */
  datatype Entry = Entry(name: string, isDir: bool, archive: bool)

  /** What reading an open directory yields. */
  datatype Directory = Directory(entries: seq<Entry>, readFails: bool)

  type FileSystem = map<string, Directory>

  /** The index of the last `c` in `s`, as `strrchr` finds it. */
  function LastIndexOf(s: string, c: char): (r: Option<nat>)
    ensures r.Some? ==> r.value < |s| && s[r.value] == c && forall k :: r.value < k < |s| ==> s[k] != c
    ensures r.None? ==> forall k :: 0 <= k < |s| ==> s[k] != c
  {
    if s == [] then None
    else if s[|s| - 1] == c then Some(|s| - 1)
    else LastIndexOf(s[..|s| - 1], c)
  }

  /**
   * The extension test of files.c:34-37: the name has a `.` and the part
   * from its last `.` on is exactly `.flac`. It accepts exactly the names
   * that end in `.flac`, case and all.
   */
  predicate HasFlacExtension(name: string): (b: bool)
    ensures b <==> |name| >= 5 && name[|name| - 5..] == ".flac"
  {
    assert |name| >= 5 && name[|name| - 5..] == ".flac" ==> name[|name| - 5] == '.';
    match LastIndexOf(name, '.')
    case None => false
    case Some(i) => name[i..] == ".flac"
  }

  /** Names the test rejects and accepts. */
  lemma FlacExtensionExamples()
    ensures !HasFlacExtension("track")
    ensures !HasFlacExtension("TRACK.FLAC")
    ensures !HasFlacExtension("track.flac.bak")
    ensures HasFlacExtension("track.flac")
  {
  }

  /** The path stored for a file `name` found in `dir` (files.c:40-42). */
  function JoinPath(dir: string, name: string): (p: string)
    ensures |p| == |dir| + 1 + |name|
    ensures p[..|dir|] == dir && p[|dir|] == '/' && p[|dir| + 1..] == name
  {
    dir + "/" + name
  }

  /** An entry the scan stores: a file, not a directory, with the archive bit and a `.flac` name. */
  predicate Collected(e: Entry): (b: bool)
    ensures b <==> !e.isDir && e.archive && |e.name| >= 5 && e.name[|e.name| - 5..] == ".flac"
  {
    !e.isDir && e.archive && HasFlacExtension(e.name)
  }

  /**
   * `rank` orders the directories so that each subdirectory the scan can
   * open ranks below the directory naming it. The scan recurses on bare
   * entry names; on a card where a directory can reach itself that way the
   * source never returns, and the model covers only cards with a ranking.
   */
  ghost predicate Ranked(fs: FileSystem, rank: map<string, nat>)
  {
    forall d :: d in fs ==>
      && d in rank
      && forall j :: 0 <= j < |fs[d].entries| && fs[d].entries[j].isDir && fs[d].entries[j].name in fs ==>
           fs[d].entries[j].name in rank && rank[fs[d].entries[j].name] < rank[d]
  }

  ghost function Rank(fs: FileSystem, rank: map<string, nat>, path: string): nat
    requires Ranked(fs, rank)
  {
    if path in fs then rank[path] + 1 else 0
  }

  /** The return code and the list's slots and count after a scan. */
  datatype ScanResult = ScanResult(code: int, slots: seq<string>, count: nat)

  /**
   * The scan of `path` starting from the slots `slots` (files.c:6-54): the
   * count is reset to 0, a directory that cannot be opened gives 1, and
   * otherwise its entries are scanned.
   */
  ghost function Scan(fs: FileSystem, rank: map<string, nat>, path: string, slots: seq<string>): (r: ScanResult)
    requires Ranked(fs, rank) && |slots| == MaxNumberOfFiles
    ensures |r.slots| == MaxNumberOfFiles && r.count <= MaxNumberOfFiles
    ensures r.code == 0 || r.code == 1
    ensures path !in fs ==> r == ScanResult(1, slots, 0)
    decreases Rank(fs, rank, path), 1
  {
    if path !in fs then ScanResult(1, slots, 0)
    else ScanFrom(fs, rank, path, 0, slots, 0)
  }

  /**
   * The loop of files.c:16-46 from the `i`-th entry of `path` on, with the
   * list holding `slots` and `count`. It stops when the list is full, at the
   * end of the directory or at an entry with an empty name (code 0), or
   * when a read or a subdirectory's scan fails (code 1). A subdirectory is
   * scanned under its bare name and continues from whatever list that scan
   * leaves; an accepted file is stored at index `count`.
   */
  ghost function ScanFrom(fs: FileSystem, rank: map<string, nat>, path: string, i: nat, slots: seq<string>, count: nat): (r: ScanResult)
    requires Ranked(fs, rank) && path in fs && i <= |fs[path].entries|
    requires |slots| == MaxNumberOfFiles && count <= MaxNumberOfFiles
    ensures |r.slots| == MaxNumberOfFiles && r.count <= MaxNumberOfFiles
    ensures r.code == 0 || r.code == 1
    decreases Rank(fs, rank, path), 0, |fs[path].entries| - i
  {
    if count >= MaxNumberOfFiles then ScanResult(0, slots, count)
    else if i == |fs[path].entries| then ScanResult(if fs[path].readFails then 1 else 0, slots, count)
    else
      var e := fs[path].entries[i];
      if e.name == "" then ScanResult(0, slots, count)
      else if e.isDir then
        var sub := Scan(fs, rank, e.name, slots);
        if sub.code == 1 then sub
        else ScanFrom(fs, rank, path, i + 1, sub.slots, sub.count)
      else if e.archive && HasFlacExtension(e.name) then
        ScanFrom(fs, rank, path, i + 1, slots[count := JoinPath(path, e.name)], count + 1)
      else ScanFrom(fs, rank, path, i + 1, slots, count)
  }

  /** A path the scan may store: `d/n` for a collected entry `n` of some directory `d` of the card. */
  ghost predicate IsFoundPath(fs: FileSystem, p: string)
  {
    exists d, j :: d in fs && 0 <= j < |fs[d].entries| && Collected(fs[d].entries[j]) && p == JoinPath(d, fs[d].entries[j].name)
  }

  /** The first `count` slots all hold paths the scan may store. */
  ghost predicate AllFound(fs: FileSystem, slots: seq<string>, count: nat)
    requires count <= |slots|
  {
    forall k :: 0 <= k < count ==> IsFoundPath(fs, slots[k])
  }

  /** Every path a scan leaves in the list is a collected `.flac` file of the card. */
  lemma {:induction false} ScanStoresOnlyFlacFiles(fs: FileSystem, rank: map<string, nat>, path: string, slots: seq<string>)
    requires Ranked(fs, rank) && |slots| == MaxNumberOfFiles
    ensures var r := Scan(fs, rank, path, slots);
            AllFound(fs, r.slots, r.count)
    decreases Rank(fs, rank, path), 1
  {
    if path in fs {
      ScanFromStoresOnlyFlacFiles(fs, rank, path, 0, slots, 0);
      assert Scan(fs, rank, path, slots) == ScanFrom(fs, rank, path, 0, slots, 0);
    }
  }

  lemma {:induction false} ScanFromStoresOnlyFlacFiles(fs: FileSystem, rank: map<string, nat>, path: string, i: nat, slots: seq<string>, count: nat)
    requires Ranked(fs, rank) && path in fs && i <= |fs[path].entries|
    requires |slots| == MaxNumberOfFiles && count <= MaxNumberOfFiles
    requires AllFound(fs, slots, count)
    ensures var r := ScanFrom(fs, rank, path, i, slots, count);
            AllFound(fs, r.slots, r.count)
    decreases Rank(fs, rank, path), 0, |fs[path].entries| - i
  {
    if count < MaxNumberOfFiles && i < |fs[path].entries| {
      var e := fs[path].entries[i];
      if e.name == "" {
      } else if e.isDir {
        ScanStoresOnlyFlacFiles(fs, rank, e.name, slots);
        var sub := Scan(fs, rank, e.name, slots);
        if sub.code != 1 {
          ScanFromStoresOnlyFlacFiles(fs, rank, path, i + 1, sub.slots, sub.count);
        }
      } else if e.archive && HasFlacExtension(e.name) {
        StoreFound(fs, path, i, slots, count);
        ScanFromStoresOnlyFlacFiles(fs, rank, path, i + 1, slots[count := JoinPath(path, e.name)], count + 1);
      } else {
        ScanFromStoresOnlyFlacFiles(fs, rank, path, i + 1, slots, count);
      }
    }
  }

  /** Storing the path of a collected entry keeps every stored path a found one. */
  lemma StoreFound(fs: FileSystem, path: string, i: nat, slots: seq<string>, count: nat)
    requires path in fs && i < |fs[path].entries| && Collected(fs[path].entries[i])
    requires count < |slots| && AllFound(fs, slots, count)
    ensures AllFound(fs, slots[count := JoinPath(path, fs[path].entries[i].name)], count + 1)
  {
    var slots' := slots[count := JoinPath(path, fs[path].entries[i].name)];
    assert IsFoundPath(fs, slots'[count]);
    forall k | 0 <= k < count + 1
      ensures IsFoundPath(fs, slots'[k])
    {
      if k < count {
        assert slots'[k] == slots[k];
      }
    }
  }

  /** The paths of the collected entries of `entries`, in directory order. */
  function CollectedPaths(dir: string, entries: seq<Entry>): (ps: seq<string>)
    ensures |ps| <= |entries|
  {
    if entries == [] then []
    else (if Collected(entries[0]) then [JoinPath(dir, entries[0].name)] else []) + CollectedPaths(dir, entries[1..])
  }

  /** A directory with no subdirectories and no empty names among its entries. */
  predicate IsFlat(d: Directory)
  {
    forall j :: 0 <= j < |d.entries| ==> !d.entries[j].isDir && d.entries[j].name != ""
  }

  /**
   * Scanning a flat directory stores its `.flac` files as `path/name`, in
   * directory order, from slot 0 on, up to the capacity; the other slots
   * keep what they held. It fails exactly when the directory's read fails
   * before the list is full.
   */
  lemma FlatScan(fs: FileSystem, rank: map<string, nat>, path: string, slots: seq<string>)
    requires Ranked(fs, rank) && |slots| == MaxNumberOfFiles
    requires path in fs && IsFlat(fs[path])
    ensures var r := Scan(fs, rank, path, slots);
            var found := CollectedPaths(path, fs[path].entries);
            && r.count == Min(|found|, MaxNumberOfFiles)
            && r.slots[..r.count] == found[..r.count]
            && r.slots[r.count..] == slots[r.count..]
            && (r.code == 1 <==> fs[path].readFails && |found| < MaxNumberOfFiles)
  {
    FlatScanFrom(fs, rank, path, 0, slots, 0);
    assert fs[path].entries[0..] == fs[path].entries;
  }

  /** What scanning a flat directory from its `i`-th entry on leaves, with the list holding `slots` and `count`. */
  ghost predicate FlatScanned(fs: FileSystem, rank: map<string, nat>, path: string, i: nat, slots: seq<string>, count: nat)
    requires Ranked(fs, rank) && path in fs && i <= |fs[path].entries|
    requires |slots| == MaxNumberOfFiles && count <= MaxNumberOfFiles
  {
    var r := ScanFrom(fs, rank, path, i, slots, count);
    var found := CollectedPaths(path, fs[path].entries[i..]);
    && r.count == Min(count + |found|, MaxNumberOfFiles)
    && r.slots[..count] == slots[..count]
    && r.slots[count..r.count] == found[..r.count - count]
    && r.slots[r.count..] == slots[r.count..]
    && (r.code == 1 <==> fs[path].readFails && count + |found| < MaxNumberOfFiles)
  }

  lemma {:induction false} FlatScanFrom(fs: FileSystem, rank: map<string, nat>, path: string, i: nat, slots: seq<string>, count: nat)
    requires Ranked(fs, rank) && path in fs && IsFlat(fs[path]) && i <= |fs[path].entries|
    requires |slots| == MaxNumberOfFiles && count <= MaxNumberOfFiles
    ensures FlatScanned(fs, rank, path, i, slots, count)
    decreases |fs[path].entries| - i
  {
    var entries := fs[path].entries;
    if count < MaxNumberOfFiles && i < |entries| {
      if Collected(entries[i]) {
        FlatScanFrom(fs, rank, path, i + 1, slots[count := JoinPath(path, entries[i].name)], count + 1);
        FlatStepCollected(fs, rank, path, i, slots, count);
      } else {
        FlatScanFrom(fs, rank, path, i + 1, slots, count);
        FlatStepSkipped(fs, rank, path, i, slots, count);
      }
    } else if count < MaxNumberOfFiles {
      assert entries[i..] == [];
    }
  }

  /** A collected entry fills slot `count` and the rest of the scan continues after it. */
  lemma FlatStepCollected(fs: FileSystem, rank: map<string, nat>, path: string, i: nat, slots: seq<string>, count: nat)
    requires Ranked(fs, rank) && path in fs && IsFlat(fs[path]) && i < |fs[path].entries|
    requires |slots| == MaxNumberOfFiles && count < MaxNumberOfFiles
    requires Collected(fs[path].entries[i])
    requires FlatScanned(fs, rank, path, i + 1, slots[count := JoinPath(path, fs[path].entries[i].name)], count + 1)
    ensures FlatScanned(fs, rank, path, i, slots, count)
  {
    var entries := fs[path].entries;
    assert entries[i..][1..] == entries[i + 1..];
    var slots' := slots[count := JoinPath(path, entries[i].name)];
    var r := ScanFrom(fs, rank, path, i + 1, slots', count + 1);
    assert ScanFrom(fs, rank, path, i, slots, count) == r;
    var found := CollectedPaths(path, entries[i + 1..]);
    assert CollectedPaths(path, entries[i..]) == [JoinPath(path, entries[i].name)] + found;
    assert r.slots[..count] == slots'[..count + 1][..count];
    assert r.slots[count] == slots'[..count + 1][count];
    assert r.slots[count..r.count] == [r.slots[count]] + r.slots[count + 1..r.count];
  }

  /** An entry that is not collected leaves the list as it is. */
  lemma FlatStepSkipped(fs: FileSystem, rank: map<string, nat>, path: string, i: nat, slots: seq<string>, count: nat)
    requires Ranked(fs, rank) && path in fs && IsFlat(fs[path]) && i < |fs[path].entries|
    requires |slots| == MaxNumberOfFiles && count < MaxNumberOfFiles
    requires !Collected(fs[path].entries[i])
    requires FlatScanned(fs, rank, path, i + 1, slots, count)
    ensures FlatScanned(fs, rank, path, i, slots, count)
  {
    var entries := fs[path].entries;
    assert entries[i..][1..] == entries[i + 1..];
    assert ScanFrom(fs, rank, path, i, slots, count) == ScanFrom(fs, rank, path, i + 1, slots, count);
    assert CollectedPaths(path, entries[i..]) == CollectedPaths(path, entries[i + 1..]);
  }

  /**
   * Each scan of a subdirectory starts the list again from 0, so files the
   * parent directory stored before reaching the subdirectory are
   * overwritten: a card with `a.flac` followed by directory `d` holding
   * `b.flac` yields the single path `d/b.flac`.
   */
  lemma SubdirectoryRestartsList(slots: seq<string>)
    requires |slots| == MaxNumberOfFiles
    ensures var fs := map["" := Directory([Entry("a.flac", false, true), Entry("d", true, false)], false),
                          "d" := Directory([Entry("b.flac", false, true)], false)];
            var r := Scan(fs, map["" := 1, "d" := 0], "", slots);
            r.code == 0 && r.count == 1 && r.slots[0] == "d/b.flac"
  {
    var fs := map["" := Directory([Entry("a.flac", false, true), Entry("d", true, false)], false),
                  "d" := Directory([Entry("b.flac", false, true)], false)];
    assert HasFlacExtension("a.flac") && HasFlacExtension("b.flac");
    assert fs["d"].entries[0] == Entry("b.flac", false, true);
  }

  /** The list the scan fills: a fixed array of paths and the number in use (files.h:7-14). */
  class FileList {
    const files: array<string>
    var count: nat

    /** A zeroed static list. */
    constructor ()
      ensures files.Length == MaxNumberOfFiles && count == 0
      ensures forall k :: 0 <= k < files.Length ==> files[k] == ""
    {
      files := new string[MaxNumberOfFiles](_ => "");
      count := 0;
    }
  }

  /**
   * `find_FLAC_files` (files.c:6-54) over the card `fs`: returns the scan's
   * code and leaves the list as the scan describes.
   */
  method FindFlacFiles(fs: FileSystem, ghost rank: map<string, nat>, dirPath: string, list: FileList) returns (code: int)
    requires Ranked(fs, rank) && list.files.Length == MaxNumberOfFiles
    modifies list, list.files
    ensures var r := Scan(fs, rank, dirPath, old(list.files[..]));
            code == r.code && list.files[..] == r.slots && list.count == r.count
    decreases Rank(fs, rank, dirPath)
  {
    list.count := 0;
    if dirPath !in fs {
      return 1;
    }
    var dir := fs[dirPath];
    var i := 0;
    while list.count < MaxNumberOfFiles
      invariant i <= |dir.entries| && list.count <= MaxNumberOfFiles
      invariant ScanFrom(fs, rank, dirPath, i, list.files[..], list.count) == Scan(fs, rank, dirPath, old(list.files[..]))
      decreases |dir.entries| - i
    {
      if i == |dir.entries| {
        if dir.readFails {
          return 1;
        }
        break;
      }
      var info := dir.entries[i];
      i := i + 1;
      if info.name == "" {
        break;
      }
      if info.isDir {
        var sub := FindFlacFiles(fs, rank, info.name, list);
        if sub == 1 {
          return 1;
        }
      } else if info.archive && HasFlacExtension(info.name) {
        list.files[list.count] := JoinPath(dirPath, info.name);
        list.count := list.count + 1;
      }
    }
    return 0;
  }
}
