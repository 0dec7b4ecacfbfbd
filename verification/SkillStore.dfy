/**
  Materializing one skill archive into its directory: unpack into a temporary
  directory, seal it with a checksum marker, then swap directories by renames. The
  digest function is a parameter; nothing below depends on which one it is.
*/
module SkillStore {
  import opened Wrappers
  import opened SkillFingerprint

  /** A zip entry after path normalization; unsafe paths normalize to nothing. */
  datatype ZipEntry = ZipEntry(isDir: bool, path: Option<string>, data: string)

  datatype Blob = Zip(entries: seq<ZipEntry>, salt: int) | NotZip(salt: int)

  type Files = map<string, string>

  const MARKER: string := ".skill-checksum"

  /** An entry of the skills root; a link may show a marker through its target. */
  datatype Node = Dir(files: Files) | Link(seen: Option<string>) | PlainFile

  /** Skill directories and the hidden, uniquely named backups beside them. */
  datatype Name = Key(key: string) | Backup(key: string, nonce: nat)

  datatype Stamp = Stamp(version: int, text: string, skills: seq<Skill>)

  datatype Disk = Disk(skills: map<Name, Node>, temps: map<nat, Files>, stamp: Option<Stamp>)

  /** What the outside world contributes to one materialization. */
  datatype Env = Env(
    fetched: Option<Blob>,      // None: fetch failed or over the size limit
    maxFiles: nat,
    temp: Option<nat>,          // None: no unique temporary directory
    backup: Option<nat>,        // None: no unique backup name
    renameFails: bool,
    restoreFails: bool,
    lossy: set<string>,         // what an interrupted removal of the backup has left
    backupStays: bool)

  datatype Outcome = Outcome(trail: seq<Disk>, ok: bool)

  function Lower(s: string): string {
    seq(|s|, i requires 0 <= i < |s| => if 'A' <= s[i] <= 'Z' then (s[i] as int + 32) as char else s[i])
  }

  predicate EqIgnoreCase(a: string, b: string) { Lower(a) == Lower(b) }

  predicate ValidKey(key: string) {
    key != "" && '/' !in key && '\\' !in key && '\0' !in key && key != "." && key != ".."
  }

  function MarkerOf(node: Node): Option<string> {
    match node
    case Dir(files) => if MARKER in files then Some(files[MARKER]) else None
    case Link(seen) => seen
    case PlainFile => None
  }

  predicate MarkerMatches(d: Disk, s: Skill) {
    Key(s.key) in d.skills && MarkerOf(d.skills[Key(s.key)]) == Some(s.checksum)
  }

  /** The files of an archive prefix, later entries replacing earlier ones. */
  function FilesOf(entries: seq<ZipEntry>): Files {
    if entries == [] then map[]
    else
      var e := entries[|entries| - 1];
      var before := FilesOf(entries[..|entries| - 1]);
      if e.isDir || e.path.None? then before else before[e.path.value := e.data]
  }

  /** How many leading entries can be written before an unsafe path stops the loop. */
  function Writable(entries: seq<ZipEntry>): (n: nat)
    ensures n <= |entries|
  {
    if entries == [] then 0
    else
      var n := Writable(entries[..|entries| - 1]);
      var e := entries[|entries| - 1];
      if n == |entries| - 1 && (e.isDir || e.path.Some?) then n + 1 else n
  }

  /** The archive unpacks: it is a zip of acceptable size with safe paths and some file. */
  predicate Unpacks(b: Blob, maxFiles: nat) {
    b.Zip? && |b.entries| <= maxFiles && Writable(b.entries) == |b.entries| && FilesOf(b.entries) != map[]
  }

  function Sealed(b: Blob, checksum: string): Files
    requires b.Zip?
  {
    FilesOf(b.entries)[MARKER := checksum]
  }

  function WithTemp(d: Disk, t: nat, files: Files): Disk { d.(temps := d.temps[t := files]) }

  function Dropped(d: Disk, t: nat): Disk { d.(temps := d.temps - {t}) }

  /** Unpacking into the fresh directory `t`, one state per entry, up to the first unsafe path. */
  function UnpackTrail(d: Disk, t: nat, entries: seq<ZipEntry>): seq<Disk> {
    if entries == [] then [WithTemp(d, t, map[])]
    else
      var before := UnpackTrail(d, t, entries[..|entries| - 1]);
      if Writable(entries) == |entries| then before + [WithTemp(d, t, FilesOf(entries))] else before
  }

  /** Creating the temporary directory and unpacking into it. */
  function BuildTrail(d: Disk, t: nat, b: Blob, maxFiles: nat): seq<Disk> {
    UnpackTrail(d, t, if b.Zip? && |b.entries| <= maxFiles then b.entries else [])
  }

  function Backed(d: Disk, key: string, n: nat): Disk {
    if Key(key) in d.skills
    then d.(skills := (d.skills - {Key(key)})[Backup(key, n) := d.skills[Key(key)]])
    else d
  }

  function Restored(d: Disk, key: string, n: nat): Disk {
    if Backup(key, n) in d.skills
    then d.(skills := (d.skills - {Backup(key, n)})[Key(key) := d.skills[Backup(key, n)]])
    else d
  }

  function Only(files: Files, left: set<string>): Files { map p | p in files && p in left :: files[p] }

  /** What an interrupted recursive removal leaves of an entry. */
  function Half(node: Node, left: set<string>): Node {
    if node.Dir? then Dir(Only(node.files, left)) else node
  }

  /** The swap, from a sealed temporary directory `t`. */
  function ReplaceTrail(d: Disk, key: string, t: nat, files: Files, e: Env): Outcome {
    if e.backup.None? || Backup(key, e.backup.value) in d.skills then Outcome([Dropped(d, t)], false)
    else
      var n := e.backup.value;
      var had := Key(key) in d.skills;
      var backed := Backed(d, key, n);
      var first := if had then [backed] else [];
      if e.renameFails then
        var undone := if had && !e.restoreFails then Restored(backed, key, n) else backed;
        Outcome(first + [undone, Dropped(undone, t)], false)
      else
        var installed := Dropped(backed, t).(skills := backed.skills[Key(key) := Dir(files)]);
        if !had then Outcome(first + [installed], true)
        else
          var left := Half(installed.skills[Backup(key, n)], e.lossy);
          var half := installed.(skills := installed.skills[Backup(key, n) := left]);
          var gone := installed.(skills := installed.skills - {Backup(key, n)});
          Outcome(first + [installed, half] + (if e.backupStays then [] else [gone]), true)
  }

  function Materialize(sha: Blob -> string, d: Disk, s: Skill, e: Env): Outcome {
    if !ValidKey(s.key) || (Key(s.key) in d.skills && !d.skills[Key(s.key)].Dir?) then Outcome([], false)
    else if MarkerMatches(d, s) then Outcome([], true)
    else if e.fetched.None? || !EqIgnoreCase(sha(e.fetched.value), s.checksum)
            || e.temp.None? || e.temp.value in d.temps then Outcome([], false)
    else
      var b, t := e.fetched.value, e.temp.value;
      var built := BuildTrail(d, t, b, e.maxFiles);
      if !Unpacks(b, e.maxFiles) then Outcome(built + [Dropped(d, t)], false)
      else
        var sealed := WithTemp(d, t, Sealed(b, s.checksum));
        var swap := ReplaceTrail(sealed, s.key, t, Sealed(b, s.checksum), e);
        Outcome(built + [sealed] + swap.trail, swap.ok)
  }

  function LastOf(d: Disk, trail: seq<Disk>): Disk { if trail == [] then d else trail[|trail| - 1] }

  lemma LastOfConcat(d: Disk, a: seq<Disk>, b: seq<Disk>)
    ensures LastOf(d, a + b) == LastOf(LastOf(d, a), b)
  {
  }

  // ---------------------------------------------------------------------------
  // All or nothing
  // ---------------------------------------------------------------------------

  function Get(d: Disk, key: string): Option<Node> {
    if Key(key) in d.skills then Some(d.skills[Key(key)]) else None
  }

  /** The directory of a skill whose archive matches `checksum`, completely unpacked and marked. */
  ghost predicate Genuine(sha: Blob -> string, files: Files, checksum: string) {
    exists b: Blob, maxFiles: nat ::
      EqIgnoreCase(sha(b), checksum) && Unpacks(b, maxFiles) && files == Sealed(b, checksum)
  }

  /** `x` differs from `d` at most in temporaries, backups and the skill `key`. */
  ghost predicate OnlyTouches(d: Disk, x: Disk, key: string) {
    x.stamp == d.stamp && forall k: string :: k != key ==> Get(x, k) == Get(d, k)
  }

  /** The complete old directory, nothing, or the complete new one. */
  ghost predicate OldGoneOrNew(sha: Blob -> string, d: Disk, x: Disk, s: Skill) {
    || Get(x, s.key) == Get(d, s.key)
    || Get(x, s.key) == None
    || (Get(x, s.key).Some? && Get(x, s.key).value.Dir? && Genuine(sha, Get(x, s.key).value.files, s.checksum))
  }

  lemma ReplaceSafe(sha: Blob -> string, d: Disk, s: Skill, t: nat, files: Files, e: Env, i: nat)
    requires Genuine(sha, files, s.checksum) && i < |ReplaceTrail(d, s.key, t, files, e).trail|
    ensures var x := ReplaceTrail(d, s.key, t, files, e).trail[i];
            OnlyTouches(d, x, s.key) && OldGoneOrNew(sha, d, x, s)
  {
  }

  lemma {:induction false} UnpackOnlyTemps(d: Disk, t: nat, entries: seq<ZipEntry>, i: nat)
    requires i < |UnpackTrail(d, t, entries)|
    ensures var x := UnpackTrail(d, t, entries)[i];
            x.skills == d.skills && x.stamp == d.stamp
    decreases |entries|
  {
    if entries != [] {
      var before := UnpackTrail(d, t, entries[..|entries| - 1]);
      if i < |before| { UnpackOnlyTemps(d, t, entries[..|entries| - 1], i); }
    }
  }

  /** Materialization got far enough to unpack `b` into `t`. */
  predicate Unpacking(sha: Blob -> string, d: Disk, s: Skill, e: Env) {
    && ValidKey(s.key) && (Key(s.key) in d.skills ==> d.skills[Key(s.key)].Dir?) && !MarkerMatches(d, s)
    && e.fetched.Some? && EqIgnoreCase(sha(e.fetched.value), s.checksum) && e.temp.Some? && e.temp.value !in d.temps
  }

  /** Up to and including the sealing of the temporary directory, no skill is touched. */
  lemma PreparingTouchesNoSkill(sha: Blob -> string, d: Disk, s: Skill, e: Env, i: nat)
    requires Unpacking(sha, d, s, e)
    requires i < |Materialize(sha, d, s, e).trail|
    requires i <= |BuildTrail(d, e.temp.value, e.fetched.value, e.maxFiles)|
    ensures var x := Materialize(sha, d, s, e).trail[i];
            x.skills == d.skills && x.stamp == d.stamp
  {
    var b, t := e.fetched.value, e.temp.value;
    var built := BuildTrail(d, t, b, e.maxFiles);
    if i < |built| {
      assert Materialize(sha, d, s, e).trail[i] == built[i];
      UnpackOnlyTemps(d, t, if b.Zip? && |b.entries| <= e.maxFiles then b.entries else [], i);
    }
  }

  /** The points of the swap. */
  lemma SwapSafe(sha: Blob -> string, d: Disk, s: Skill, e: Env, i: nat)
    requires Unpacking(sha, d, s, e) && Unpacks(e.fetched.value, e.maxFiles)
    requires var t, files := e.temp.value, Sealed(e.fetched.value, s.checksum);
             i < |ReplaceTrail(WithTemp(d, t, files), s.key, t, files, e).trail|
    ensures var t, files := e.temp.value, Sealed(e.fetched.value, s.checksum);
            var x := ReplaceTrail(WithTemp(d, t, files), s.key, t, files, e).trail[i];
            OnlyTouches(d, x, s.key) && OldGoneOrNew(sha, d, x, s)
  {
    var t, files := e.temp.value, Sealed(e.fetched.value, s.checksum);
    assert Genuine(sha, files, s.checksum);
    ReplaceSafe(sha, WithTemp(d, t, files), s, t, files, e, i);
  }

  /** Whatever point materialization reaches, no reader ever sees part of a skill. */
  lemma MaterializeSafe(sha: Blob -> string, d: Disk, s: Skill, e: Env, i: nat)
    requires i < |Materialize(sha, d, s, e).trail|
    ensures var x := Materialize(sha, d, s, e).trail[i];
            OnlyTouches(d, x, s.key) && OldGoneOrNew(sha, d, x, s)
  {
    assert Unpacking(sha, d, s, e);
    var built := BuildTrail(d, e.temp.value, e.fetched.value, e.maxFiles);
    if i <= |built| {
      PreparingTouchesNoSkill(sha, d, s, e, i);
    } else {
      var t, files := e.temp.value, Sealed(e.fetched.value, s.checksum);
      var swap := ReplaceTrail(WithTemp(d, t, files), s.key, t, files, e);
      assert Materialize(sha, d, s, e).trail[i] == swap.trail[i - |built| - 1];
      SwapSafe(sha, d, s, e, i - |built| - 1);
    }
  }

  lemma ReplaceEnds(d: Disk, s: Skill, t: nat, files: Files, e: Env)
    requires MARKER in files && files[MARKER] == s.checksum
    ensures var r := ReplaceTrail(d, s.key, t, files, e);
            var x := LastOf(d, r.trail);
            && (r.ok ==> MarkerMatches(x, s) && Get(x, s.key).value.Dir?)
            && (!r.ok ==> Get(x, s.key) == Get(d, s.key) || Get(x, s.key) == None)
            && x.temps == d.temps - {t}
  {
  }

  /** Success leaves exactly the listed checksum; the temporary directory is gone either way. */
  lemma MaterializeEnds(sha: Blob -> string, d: Disk, s: Skill, e: Env)
    ensures var r := Materialize(sha, d, s, e);
            var x := LastOf(d, r.trail);
            && (r.ok ==> MarkerMatches(x, s) && Get(x, s.key).value.Dir? && ValidKey(s.key))
            && (!r.ok ==> Get(x, s.key) == Get(d, s.key) || Get(x, s.key) == None)
            && OnlyTouches(d, x, s.key) && x.temps == d.temps
  {
    var r := Materialize(sha, d, s, e);
    if r.trail != [] {
      MaterializeSafe(sha, d, s, e, |r.trail| - 1);
      var b, t := e.fetched.value, e.temp.value;
      if Unpacks(b, e.maxFiles) {
        var sealed := WithTemp(d, t, Sealed(b, s.checksum));
        ReplaceEnds(sealed, s, t, Sealed(b, s.checksum), e);
        var swap := ReplaceTrail(sealed, s.key, t, Sealed(b, s.checksum), e);
        assert LastOf(d, r.trail) == LastOf(sealed, swap.trail);
      }
    }
  }

  // ---------------------------------------------------------------------------
  // What a call leaves, exactly
  // ---------------------------------------------------------------------------

  /** The call gets as far as swapping directories. */
  predicate Swaps(sha: Blob -> string, d: Disk, s: Skill, e: Env) {
    && Unpacking(sha, d, s, e) && Unpacks(e.fetched.value, e.maxFiles)
    && e.backup.Some? && Backup(s.key, e.backup.value) !in d.skills
  }

  /** It swaps over an old directory, and neither installing the new one nor putting the old one back works. */
  predicate LosesPlace(sha: Blob -> string, d: Disk, s: Skill, e: Env) {
    Swaps(sha, d, s, e) && Key(s.key) in d.skills && e.renameFails && e.restoreFails
  }

  lemma ReplaceLeaves(d: Disk, key: string, t: nat, files: Files, e: Env)
    requires e.backup.Some? && Backup(key, e.backup.value) !in d.skills
    ensures var r := ReplaceTrail(d, key, t, files, e);
            var x, backup, had := LastOf(d, r.trail), Backup(key, e.backup.value), Key(key) in d.skills;
            && (r.ok <==> !e.renameFails)
            && Get(x, key)
               == (if r.ok then Some(Dir(files)) else if had && e.restoreFails then None else Get(d, key))
            && (backup in x.skills <==> had && if r.ok then e.backupStays else e.restoreFails)
            && (backup in x.skills ==>
                  x.skills[backup] == if r.ok then Half(d.skills[Key(key)], e.lossy) else d.skills[Key(key)])
            && (forall name :: name != Key(key) && name != backup ==>
                  (name in x.skills <==> name in d.skills)
                  && (name in d.skills ==> x.skills[name] == d.skills[name]))
  {
  }

  /** When a materialization succeeds, and what then stands under the key. */
  lemma MaterializeSucceeds(sha: Blob -> string, d: Disk, s: Skill, e: Env)
    ensures var r := Materialize(sha, d, s, e);
            var x := LastOf(d, r.trail);
            && (r.ok <==>
                ValidKey(s.key) && (Key(s.key) in d.skills ==> d.skills[Key(s.key)].Dir?)
                && (MarkerMatches(d, s) || (Swaps(sha, d, s, e) && !e.renameFails)))
            && (r.ok && !MarkerMatches(d, s) ==> Get(x, s.key) == Some(Dir(Sealed(e.fetched.value, s.checksum))))
            && (MarkerMatches(d, s) ==> x == d)
  {
    if Swaps(sha, d, s, e) { SwapLeaves(sha, d, s, e); }
  }

  lemma SwapLeaves(sha: Blob -> string, d: Disk, s: Skill, e: Env)
    requires Swaps(sha, d, s, e)
    ensures var b, t := e.fetched.value, e.temp.value;
            var files := Sealed(b, s.checksum);
            var swap := ReplaceTrail(WithTemp(d, t, files), s.key, t, files, e);
            && Materialize(sha, d, s, e).ok == swap.ok == !e.renameFails
            && LastOf(d, Materialize(sha, d, s, e).trail) == LastOf(WithTemp(d, t, files), swap.trail)
            && (swap.ok ==> Get(LastOf(WithTemp(d, t, files), swap.trail), s.key) == Some(Dir(files)))
  {
    var b, t := e.fetched.value, e.temp.value;
    var files := Sealed(b, s.checksum);
    var sealed := WithTemp(d, t, files);
    ReplaceLeaves(sealed, s.key, t, files, e);
    LastOfConcat(d, BuildTrail(d, t, b, e.maxFiles) + [sealed], ReplaceTrail(sealed, s.key, t, files, e).trail);
  }

  /** A call that never swaps leaves all entries alone. */
  lemma NoSwapNoChange(sha: Blob -> string, d: Disk, s: Skill, e: Env)
    requires !Swaps(sha, d, s, e)
    ensures LastOf(d, Materialize(sha, d, s, e).trail).skills == d.skills
  {
    var r := Materialize(sha, d, s, e);
    if r.trail != [] {
      var b, t := e.fetched.value, e.temp.value;
      if !Unpacks(b, e.maxFiles) {
        PreparingTouchesNoSkill(sha, d, s, e, |r.trail| - 1);
      } else {
        LastOfConcat(d, BuildTrail(d, t, b, e.maxFiles) + [WithTemp(d, t, Sealed(b, s.checksum))],
                     [Dropped(WithTemp(d, t, Sealed(b, s.checksum)), t)]);
      }
    }
  }

  /**
    After a failure the entry is the old one, unless there was one and both the installing
    and the restoring rename failed; then, and only then, it is gone.
  */
  lemma FailureKeepsOldIff(sha: Blob -> string, d: Disk, s: Skill, e: Env)
    requires !Materialize(sha, d, s, e).ok
    ensures Get(LastOf(d, Materialize(sha, d, s, e).trail), s.key)
            == if LosesPlace(sha, d, s, e) then None else Get(d, s.key)
  {
    if Swaps(sha, d, s, e) {
      SwapLeaves(sha, d, s, e);
      var files := Sealed(e.fetched.value, s.checksum);
      ReplaceLeaves(WithTemp(d, e.temp.value, files), s.key, e.temp.value, files, e);
    } else {
      NoSwapNoChange(sha, d, s, e);
    }
  }

  /** A swap over an old directory passes through a point where the skill is only there as its backup. */
  lemma SwapPassesAbsence(sha: Blob -> string, d: Disk, s: Skill, e: Env) returns (i: nat)
    requires Swaps(sha, d, s, e) && Key(s.key) in d.skills
    ensures i < |Materialize(sha, d, s, e).trail|
    ensures var x := Materialize(sha, d, s, e).trail[i];
            && Get(x, s.key) == None && Backup(s.key, e.backup.value) in x.skills
            && x.skills[Backup(s.key, e.backup.value)] == d.skills[Key(s.key)]
  {
    var b, t := e.fetched.value, e.temp.value;
    i := |BuildTrail(d, t, b, e.maxFiles)| + 1;
    var sealed := WithTemp(d, t, Sealed(b, s.checksum));
    var swap := ReplaceTrail(sealed, s.key, t, Sealed(b, s.checksum), e);
    assert swap.trail[0] == Backed(sealed, s.key, e.backup.value);
    assert Materialize(sha, d, s, e).trail[i] == swap.trail[0];
  }

  /**
    A call leaves a backup behind exactly when it swapped over an old directory and could not
    put it back, where it is the old one whole, or could not remove it. Nothing else changes.
  */
  lemma BackupLeftIff(sha: Blob -> string, d: Disk, s: Skill, e: Env, name: Name)
    requires name != Key(s.key)
    ensures var r := Materialize(sha, d, s, e);
            var x := LastOf(d, r.trail);
            var swapped := Swaps(sha, d, s, e) && Key(s.key) in d.skills && name == Backup(s.key, e.backup.value);
            && (name in x.skills && name !in d.skills <==> swapped && if r.ok then e.backupStays else e.restoreFails)
            && (name in d.skills ==> name in x.skills && x.skills[name] == d.skills[name])
            && (name in x.skills && name !in d.skills ==>
                  x.skills[name] == if r.ok then Half(d.skills[Key(s.key)], e.lossy) else d.skills[Key(s.key)])
  {
    if Swaps(sha, d, s, e) {
      SwapLeaves(sha, d, s, e);
      var files := Sealed(e.fetched.value, s.checksum);
      ReplaceLeaves(WithTemp(d, e.temp.value, files), s.key, e.temp.value, files, e);
    } else {
      NoSwapNoChange(sha, d, s, e);
    }
  }

  /** Digests are compared letter by letter, upper or lower case. */
  lemma EqIgnoreCaseMeans(a: string, b: string)
    ensures EqIgnoreCase(a, b) <==>
            |a| == |b| && forall i :: 0 <= i < |a| ==>
              || a[i] == b[i]
              || ('A' <= a[i] <= 'Z' && b[i] as int == a[i] as int + 32)
              || ('A' <= b[i] <= 'Z' && a[i] as int == b[i] as int + 32)
  {
    if EqIgnoreCase(a, b) {
      assert |Lower(a)| == |Lower(b)|;
      forall i | 0 <= i < |a|
        ensures a[i] == b[i] || ('A' <= a[i] <= 'Z' && b[i] as int == a[i] as int + 32)
                || ('A' <= b[i] <= 'Z' && a[i] as int == b[i] as int + 32)
      {
        assert Lower(a)[i] == Lower(b)[i];
      }
    }
    if |a| == |b| && forall i :: 0 <= i < |a| ==>
         a[i] == b[i] || ('A' <= a[i] <= 'Z' && b[i] as int == a[i] as int + 32)
         || ('A' <= b[i] <= 'Z' && a[i] as int == b[i] as int + 32)
    {
      assert Lower(a) == Lower(b);
    }
  }

  // ---------------------------------------------------------------------------
  // What an archive unpacks to
  // ---------------------------------------------------------------------------

  predicate IsFileAt(entry: ZipEntry, path: string) { !entry.isDir && entry.path == Some(path) }

  /** The last file entry with this path. */
  predicate LastFile(entries: seq<ZipEntry>, path: string, i: nat) {
    i < |entries| && IsFileAt(entries[i], path) && forall j :: i < j < |entries| ==> !IsFileAt(entries[j], path)
  }

  /** A path holds the data of the last file entry with that path, and nothing else is there. */
  lemma {:induction false} FilesOfMeans(entries: seq<ZipEntry>, path: string)
    ensures path in FilesOf(entries) <==> exists i: nat :: LastFile(entries, path, i)
    ensures forall i: nat :: LastFile(entries, path, i) ==> FilesOf(entries)[path] == entries[i].data
    decreases |entries|
  {
    if entries != [] {
      var n := |entries| - 1;
      var fewer := entries[..n];
      FilesOfMeans(fewer, path);
      if IsFileAt(entries[n], path) {
        assert LastFile(entries, path, n);
        assert forall i: nat :: LastFile(entries, path, i) ==> i == n;
      } else {
        forall i: nat ensures LastFile(entries, path, i) <==> LastFile(fewer, path, i) {
          assert forall j :: 0 <= j < n ==> fewer[j] == entries[j];
        }
      }
    }
  }

  lemma {:induction false} WritableMeans(entries: seq<ZipEntry>)
    ensures Writable(entries) == |entries| <==>
            forall i :: 0 <= i < |entries| ==> entries[i].isDir || entries[i].path.Some?
    decreases |entries|
  {
    if entries != [] {
      var n := |entries| - 1;
      WritableMeans(entries[..n]);
      assert entries == entries[..n] + [entries[n]];
    }
  }

  /** An archive unpacks exactly if it is a zip within the limit, all of whose paths are safe, with some file in it. */
  lemma UnpacksIff(b: Blob, maxFiles: nat)
    ensures Unpacks(b, maxFiles) <==>
            && b.Zip? && |b.entries| <= maxFiles
            && (forall i :: 0 <= i < |b.entries| ==> b.entries[i].isDir || b.entries[i].path.Some?)
            && exists i :: 0 <= i < |b.entries| && !b.entries[i].isDir
  {
    if b.Zip? {
      WritableMeans(b.entries);
      if path :| path in FilesOf(b.entries) { FilesOfMeans(b.entries, path); }
      if i :| 0 <= i < |b.entries| && !b.entries[i].isDir && b.entries[i].path.Some? {
        SomeLastFile(b.entries, b.entries[i].path.value, i);
        FilesOfMeans(b.entries, b.entries[i].path.value);
      }
    }
  }

  lemma SomeLastFile(entries: seq<ZipEntry>, path: string, i: nat)
    requires i < |entries| && IsFileAt(entries[i], path)
    ensures exists l: nat :: LastFile(entries, path, l)
    decreases |entries| - i
  {
    if j :| i < j < |entries| && IsFileAt(entries[j], path) {
      SomeLastFile(entries, path, j);
    } else {
      assert LastFile(entries, path, i);
    }
  }

  // ---------------------------------------------------------------------------
  // Markers
  // ---------------------------------------------------------------------------

  /** If the entry under `key` is a marked directory, its files deserve the marker. */
  ghost predicate HonestAt(sha: Blob -> string, d: Disk, key: string) {
    var node := Get(d, key);
    node.Some? && node.value.Dir? && MarkerOf(node.value).Some? ==>
      Genuine(sha, node.value.files, MarkerOf(node.value).value)
  }

  /** Stopping materialization anywhere keeps every marker honest. */
  lemma MaterializeHonest(sha: Blob -> string, d: Disk, s: Skill, e: Env, i: nat, key: string)
    requires HonestAt(sha, d, key) && i < |Materialize(sha, d, s, e).trail|
    ensures HonestAt(sha, Materialize(sha, d, s, e).trail[i], key)
  {
    MaterializeSafe(sha, d, s, e, i);
  }

  /** No two archives share a digest. */
  ghost predicate CollisionFree(sha: Blob -> string) {
    forall b: Blob, c: Blob :: EqIgnoreCase(sha(b), sha(c)) ==> b == c
  }

  /** A half-removed skill that kept its marker is honest exactly when it lost nothing. */
  lemma HalfHonestIff(sha: Blob -> string, files: Files, checksum: string, left: set<string>)
    requires CollisionFree(sha) && Genuine(sha, files, checksum) && MARKER in left
    ensures MARKER in Only(files, left) && Only(files, left)[MARKER] == checksum
    ensures Genuine(sha, Only(files, left), checksum) <==> files.Keys <= left
  {
    var b: Blob, n: nat :| EqIgnoreCase(sha(b), checksum) && Unpacks(b, n) && files == Sealed(b, checksum);
    if Genuine(sha, Only(files, left), checksum) {
      var b2: Blob, n2: nat :|
        EqIgnoreCase(sha(b2), checksum) && Unpacks(b2, n2) && Only(files, left) == Sealed(b2, checksum);
      assert EqIgnoreCase(sha(b), sha(b2));
      assert Only(files, left) == files;
      assert forall p :: p in files ==> p in Only(files, left);
    }
    if files.Keys <= left { assert Only(files, left) == files; }
  }
}
