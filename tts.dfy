/**
 * The speech output side (`tts.py`): `speak` saves a synthesised clip
 * under a time-stamped name in the static folder and queues it for
 * playback, and `manage_files` keeps only the three newest clips there.
 *
 * The folder is a sequence of entries (name and creation time) in listing
 * order; the synthesiser's success, the clock and the names whose removal
 * fails are inputs.
 */
module Tts {
  import opened Strings
  import opened Sorting

  /** One file of the static folder: its name and its creation time. */
  datatype DirEntry = DirEntry(name: string, ctime: real)

  /** No two entries of a folder share a name. */
  ghost predicate DistinctNames(folder: seq<DirEntry>) {
    forall i, j :: 0 <= i < j < |folder| ==> folder[i].name != folder[j].name
  }

  /** `f.startswith('audio_') and f.endswith('.mp3')`. */
  predicate IsAudioName(name: string) {
    StartsWith(name, "audio_") && EndsWith(name, ".mp3")
  }

  /** The clips of the folder, in listing order. */
  function AudioFiles(folder: seq<DirEntry>): (r: seq<DirEntry>)
    ensures forall e :: e in r <==> e in folder && IsAudioName(e.name)
    ensures multiset(r) <= multiset(folder)
  {
    if folder == [] then []
    else
      var rest := AudioFiles(folder[1..]);
      assert folder == [folder[0]] + folder[1..];
      if IsAudioName(folder[0].name) then [folder[0]] + rest else rest
  }

  /** How many clips `manage_files` keeps. */
  const Keep: nat := 3

  /** Oldest first. */
  function Ctime(e: DirEntry): real {
    e.ctime
  }

  /** `files[:-3]` of the clips sorted oldest first, when there are more than three. */
  function ToDelete(folder: seq<DirEntry>): seq<DirEntry> {
    var files := AudioFiles(folder);
    if |files| > Keep then SortBy(files, Ctime)[..|files| - Keep] else []
  }

  /** The clips `manage_files` keeps: the three newest, or all of them when there are no more. */
  function Kept(folder: seq<DirEntry>): seq<DirEntry> {
    var files := AudioFiles(folder);
    if |files| > Keep then SortBy(files, Ctime)[|files| - Keep..] else files
  }

  /** The names of some entries. */
  function Names(entries: seq<DirEntry>): set<string> {
    set e | e in entries :: e.name
  }

  /** The folder once the files named in `doomed` are removed. */
  function Without(folder: seq<DirEntry>, doomed: set<string>): (r: seq<DirEntry>)
    ensures forall e :: e in r <==> e in folder && e.name !in doomed
    ensures multiset(r) <= multiset(folder)
  {
    if folder == [] then []
    else
      var rest := Without(folder[1..], doomed);
      assert folder == [folder[0]] + folder[1..];
      if folder[0].name in doomed then rest else [folder[0]] + rest
  }

  /** `manage_files`: each file to delete is removed unless its removal fails (`failing`). */
  function AfterManage(folder: seq<DirEntry>, failing: set<string>): seq<DirEntry> {
    Without(folder, Names(ToDelete(folder)) - failing)
  }

  /** Removing two batches one after the other removes their union. */
  lemma {:induction false} WithoutTwice(folder: seq<DirEntry>, a: set<string>, b: set<string>)
    ensures Without(Without(folder, a), b) == Without(folder, a + b)
    decreases |folder|
  {
    if folder != [] {
      WithoutTwice(folder[1..], a, b);
      var rest := Without(folder[1..], a);
      if folder[0].name !in a {
        assert Without(folder, a) == [folder[0]] + rest;
        assert ([folder[0]] + rest)[1..] == rest;
      }
    }
  }

  /** The name of the clip saved at time `now` (seconds): `audio_<milliseconds>.mp3`. */
  function AudioName(now: real): string {
    "audio_" + IntToString((now * 1000.0).Floor) + ".mp3"
  }

  /** The folder after `tts.save` wrote the clip `name` at time `now`: any old file of that name is replaced. */
  function Saved(folder: seq<DirEntry>, name: string, now: real): seq<DirEntry> {
    Without(folder, {name}) + [DirEntry(name, now)]
  }

  /** The text-to-speech front end: the static folder, its files and the playback queue. */
  class Speaker {
    const staticFolder: string
    var folder: seq<DirEntry>
    var playQueue: seq<string>

    ghost predicate Valid()
      reads this
    {
      DistinctNames(folder)
    }

    constructor(staticFolder: string, folder: seq<DirEntry>)
      requires DistinctNames(folder)
      ensures this.staticFolder == staticFolder && this.folder == folder && playQueue == [] && Valid()
    {
      this.staticFolder := staticFolder;
      this.folder := folder;
      playQueue := [];
    }

    /** `manage_files`, the names in `failing` being those whose `os.remove` raises. */
    method ManageFiles(failing: set<string>)
      requires Valid()
      modifies this
      ensures folder == AfterManage(old(folder), failing)
      ensures playQueue == old(playQueue) && Valid()
    {
      ghost var doomed := Names(ToDelete(folder)) - failing;
      WithoutKeepsDistinct(folder, doomed);
      var files := AudioFiles(folder);
      if |files| > Keep {
        var sorted := SortBy(files, Ctime);
        var toDelete := sorted[..|sorted| - Keep];
        assert ToDelete(folder) == toDelete;
        RemoveFiles(toDelete, failing);
        assert folder == Without(old(folder), doomed);
      } else {
        assert doomed == {};
        WithoutNothing(folder);
      }
    }

    /** The deletion loop of `manage_files`: a failed removal does not stop the others. */
    method RemoveFiles(toDelete: seq<DirEntry>, failing: set<string>)
      modifies this
      ensures folder == Without(old(folder), Names(toDelete) - failing)
      ensures playQueue == old(playQueue)
    {
      ghost var removed: set<string> := {};
      WithoutNothing(folder);
      for i := 0 to |toDelete|
        invariant removed == Names(toDelete[..i]) - failing
        invariant folder == Without(old(folder), removed)
        invariant playQueue == old(playQueue)
      {
        var file := toDelete[i].name;
        NamesSnoc(toDelete, i);
        if file !in failing {
          WithoutTwice(old(folder), removed, {file});
          folder := Without(folder, {file});
          removed := removed + {file};
        }
      }
      assert toDelete[..|toDelete|] == toDelete;
    }

    /**
     * `speak`: when synthesis succeeds, saves the clip named after the
     * clock, queues its path once, trims the folder and returns the path;
     * when it fails, returns "" and changes nothing.
     */
    method Speak(now: real, synthesised: bool, failing: set<string>) returns (path: string)
      requires Valid()
      modifies this
      ensures !synthesised ==> path == "" && folder == old(folder) && playQueue == old(playQueue)
      ensures synthesised ==> path == PathJoin(staticFolder, AudioName(now)) &&
                              playQueue == old(playQueue) + [path] &&
                              folder == AfterManage(Saved(old(folder), AudioName(now), now), failing)
      ensures Valid()
    {
      var filename := "audio_" + IntToString((now * 1000.0).Floor) + ".mp3";
      var filepath := PathJoin(staticFolder, filename);
      if !synthesised {
        return "";
      }
      SavedKeepsDistinct(folder, filename, now);
      folder := Saved(folder, filename, now);
      if filepath != "" {
        playQueue := playQueue + [filepath];
      }
      ManageFiles(failing);
      return filepath;
    }
  }

  lemma NamesSnoc(entries: seq<DirEntry>, i: nat)
    requires i < |entries|
    ensures Names(entries[..i + 1]) == Names(entries[..i]) + {entries[i].name}
  {
    assert entries[..i + 1] == entries[..i] + [entries[i]];
  }

  /** Removing nothing changes nothing. */
  lemma {:induction false} WithoutNothing(folder: seq<DirEntry>)
    ensures Without(folder, {}) == folder
    decreases |folder|
  {
    if folder != [] {
      WithoutNothing(folder[1..]);
      assert [folder[0]] + folder[1..] == folder;
    }
  }

  /** Removing files keeps the names distinct. */
  lemma {:induction false} WithoutKeepsDistinct(folder: seq<DirEntry>, doomed: set<string>)
    requires DistinctNames(folder)
    ensures DistinctNames(Without(folder, doomed))
    decreases |folder|
  {
    if folder != [] {
      assert DistinctNames(folder[1..]) by {
        forall i, j | 0 <= i < j < |folder[1..]|
          ensures folder[1..][i].name != folder[1..][j].name
        {
          assert folder[1..][i] == folder[i + 1] && folder[1..][j] == folder[j + 1];
        }
      }
      WithoutKeepsDistinct(folder[1..], doomed);
      var rest := Without(folder[1..], doomed);
      if folder[0].name !in doomed {
        HeadNameUnique(folder);
        ConsDistinct(folder[0], rest);
      }
    }
  }

  /** The first entry's name is not the name of any later entry. */
  lemma HeadNameUnique(folder: seq<DirEntry>)
    requires folder != [] && DistinctNames(folder)
    ensures forall e :: e in folder[1..] ==> e.name != folder[0].name
  {
    forall e | e in folder[1..]
      ensures e.name != folder[0].name
    {
      var k :| 0 <= k < |folder[1..]| && folder[1..][k] == e;
      assert folder[k + 1] == e;
    }
  }

  /** Putting an entry with a new name in front keeps the names distinct. */
  lemma ConsDistinct(x: DirEntry, rest: seq<DirEntry>)
    requires DistinctNames(rest)
    requires forall e :: e in rest ==> e.name != x.name
    ensures DistinctNames([x] + rest)
  {
    var r := [x] + rest;
    forall i, j | 0 <= i < j < |r|
      ensures r[i].name != r[j].name
    {
      if i == 0 {
        assert r[j] in rest;
      } else {
        assert r[i] == rest[i - 1] && r[j] == rest[j - 1];
      }
    }
  }

  /** Saving a clip keeps the names distinct. */
  lemma SavedKeepsDistinct(folder: seq<DirEntry>, name: string, now: real)
    requires DistinctNames(folder)
    ensures DistinctNames(Saved(folder, name, now))
  {
    WithoutKeepsDistinct(folder, {name});
    var w := Without(folder, {name});
    var r := w + [DirEntry(name, now)];
    forall i, j | 0 <= i < j < |r|
      ensures r[i].name != r[j].name
    {
      if j == |w| {
        assert r[i] in w;
      } else {
        assert r[i] == w[i] && r[j] == w[j];
      }
    }
  }

  /** Only clips are ever deleted: every other file of the folder survives `manage_files`. */
  lemma ManageSparesOthers(folder: seq<DirEntry>, failing: set<string>, e: DirEntry)
    requires e in folder && !IsAudioName(e.name)
    ensures e in AfterManage(folder, failing)
  {
    ToDeleteAreClips(folder);
    assert e.name !in Names(ToDelete(folder));
  }

  /** Every file to delete is one of the folder's clips. */
  lemma ToDeleteAreClips(folder: seq<DirEntry>)
    ensures forall d :: d in ToDelete(folder) ==> d in AudioFiles(folder)
  {
    var files := AudioFiles(folder);
    if |files| > Keep {
      var sorted := SortBy(files, Ctime);
      forall d | d in ToDelete(folder)
        ensures d in files
      {
        assert d in multiset(sorted);
      }
    }
  }

  /** With three clips or fewer, nothing is deleted. */
  lemma ManageFew(folder: seq<DirEntry>, failing: set<string>)
    requires |AudioFiles(folder)| <= Keep
    ensures AfterManage(folder, failing) == folder
  {
    assert Names(ToDelete(folder)) - failing == {};
    WithoutNothing(folder);
  }

  /**
   * With more than three clips, the clips deleted are the oldest ones but
   * three: together with the three kept they are the folder's clips, and
   * each is at least as old as each clip kept.
   */
  lemma ManageOldest(folder: seq<DirEntry>)
    requires |AudioFiles(folder)| > Keep
    ensures |ToDelete(folder)| == |AudioFiles(folder)| - Keep && |Kept(folder)| == Keep
    ensures multiset(ToDelete(folder)) + multiset(Kept(folder)) == multiset(AudioFiles(folder))
    ensures forall i, j :: 0 <= i < |ToDelete(folder)| && 0 <= j < |Kept(folder)| ==>
              ToDelete(folder)[i].ctime <= Kept(folder)[j].ctime
  {
    var files := AudioFiles(folder);
    var sorted := SortBy(files, Ctime);
    var n := |files| - Keep;
    assert ToDelete(folder) == sorted[..n];
    assert Kept(folder) == sorted[n..];
    assert sorted == sorted[..n] + sorted[n..];
    OlderFirst(sorted, n);
  }

  lemma OlderFirst(sorted: seq<DirEntry>, n: nat)
    requires n <= |sorted| && SortedBy(sorted, Ctime)
    ensures forall i, j :: 0 <= i < n && 0 <= j < |sorted| - n ==> sorted[..n][i].ctime <= sorted[n..][j].ctime
  {
    forall i, j | 0 <= i < n && 0 <= j < |sorted| - n
      ensures sorted[..n][i].ctime <= sorted[n..][j].ctime
    {
      assert sorted[..n][i] == sorted[i] && sorted[n..][j] == sorted[n + j];
      assert Ctime(sorted[i]) <= Ctime(sorted[n + j]);
    }
  }

  /** A file to delete whose removal fails stays; every other file to delete is gone. */
  lemma ManageFailures(folder: seq<DirEntry>, failing: set<string>, d: DirEntry)
    requires d in ToDelete(folder)
    ensures d.name in failing ==> d in AfterManage(folder, failing)
    ensures d.name !in failing ==> forall e :: e in AfterManage(folder, failing) ==> e.name != d.name
  {
    var files := AudioFiles(folder);
    var sorted := SortBy(files, Ctime);
    assert d in sorted[..|files| - Keep];
    assert d in multiset(sorted);
    assert d in files;
  }

  /** The saved clip's path names the clip, and the clip is one `manage_files` counts. */
  lemma AudioPathNamesClip(staticFolder: string, now: real)
    ensures Basename(PathJoin(staticFolder, AudioName(now))) == AudioName(now)
    ensures IsAudioName(AudioName(now))
  {
    var ms := (now * 1000.0).Floor;
    var digits := NatToString(if ms < 0 then -ms else ms);
    var name := AudioName(now);
    assert name == "audio_" + IntToString(ms) + ".mp3";
    assert '/' !in IntToString(ms) by {
      assert IntToString(ms) == (if ms < 0 then "-" else "") + digits;
    }
    assert '/' !in name;
    BasenameOfJoin(staticFolder, name);
    assert name[..6] == "audio_";
    assert name[|name| - 4..] == ".mp3";
  }
}
