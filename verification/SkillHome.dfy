/**
  The skills root as a mutable directory: the calls themselves, step by step, and
  what a crash between any two steps leaves behind.
*/
module SkillHome {
  import opened Wrappers
  import opened SkillFingerprint
  import opened SkillStore
  import opened SkillConvergence

  /** From `d` with past `past`, outcome `o` led to disk `x` with trail `trail`. */
  ghost predicate Led(past: seq<Disk>, d: Disk, o: Outcome, trail: seq<Disk>, x: Disk) {
    trail == past + o.trail && x == LastOf(d, o.trail)
  }

  lemma LedOn(past: seq<Disk>, d: Disk, o: Outcome, trail: seq<Disk>, x: Disk, p: Outcome, trail2: seq<Disk>, y: Disk)
    requires Led(past, d, o, trail, x) && Led(trail, x, p, trail2, y)
    ensures Led(past, d, Outcome(o.trail + p.trail, p.ok), trail2, y)
  {
  }

  class SkillsRoot {
    var disk: Disk
    /** The disk after every durable step so far: each element is a possible crash point. */
    ghost var trail: seq<Disk>

    /** Unpacks an archive into the fresh temporary directory `t`. */
    method Unpack(t: nat, b: Blob, maxFiles: nat) returns (ok: bool)
      modifies this
      ensures trail == old(trail) + BuildTrail(old(disk), t, b, maxFiles)
      ensures ok == Unpacks(b, maxFiles)
      ensures ok ==> disk == WithTemp(old(disk), t, FilesOf(b.entries))
      ensures exists files :: disk == WithTemp(old(disk), t, files)
    {
      ghost var d, past := disk, trail;
      disk := disk.(temps := disk.temps[t := map[]]);
      trail := trail + [disk];
      if !b.Zip? || |b.entries| > maxFiles { return false; }
      var files: Files := map[];
      var count := 0;
      for i := 0 to |b.entries|
        invariant Writable(b.entries[..i]) == i && files == FilesOf(b.entries[..i])
        invariant disk == WithTemp(d, t, files)
        invariant count >= 0 && (count == 0 <==> files == map[])
        invariant trail == past + UnpackTrail(d, t, b.entries[..i])
      {
        var entry := b.entries[i];
        assert b.entries[..i + 1][..i] == b.entries[..i];
        if !entry.isDir {
          if entry.path.None? {
            UnpackStops(d, t, b.entries, i);
            return false;
          }
          files := files[entry.path.value := entry.data];
          assert entry.path.value in files;
          disk := disk.(temps := disk.temps[t := files]);
          count := count + 1;
        }
        trail := trail + [disk];
      }
      assert b.entries[..|b.entries|] == b.entries;
      ok := count > 0;
    }

    /** `atomic_replace_dir` with the drop of the temporary directory on failure. */
    method AtomicReplace(key: string, t: nat, e: Env) returns (ok: bool)
      requires t in disk.temps
      requires Key(key) in disk.skills ==> disk.skills[Key(key)].Dir?
      modifies this
      ensures var r := ReplaceTrail(old(disk), key, t, old(disk.temps[t]), e);
              ok == r.ok && Led(old(trail), old(disk), r, trail, disk)
    {
      var files := disk.temps[t];
      if e.backup.None? || Backup(key, e.backup.value) in disk.skills {
        disk := disk.(temps := disk.temps - {t});
        trail := trail + [disk];
        return false;
      }
      var backup := Backup(key, e.backup.value);
      var had := Key(key) in disk.skills;
      if had {
        disk := disk.(skills := (disk.skills - {Key(key)})[backup := disk.skills[Key(key)]]);
        trail := trail + [disk];
      }
      if e.renameFails {
        if had && !e.restoreFails {
          disk := disk.(skills := (disk.skills - {backup})[Key(key) := disk.skills[backup]]);
        }
        trail := trail + [disk];
        disk := disk.(temps := disk.temps - {t});
        trail := trail + [disk];
        return false;
      }
      disk := disk.(skills := disk.skills[Key(key) := Dir(files)], temps := disk.temps - {t});
      trail := trail + [disk];
      if had {
        ghost var whole := disk.skills;
        disk := disk.(skills := disk.skills[backup := Half(disk.skills[backup], e.lossy)]);
        trail := trail + [disk];
        if !e.backupStays {
          disk := disk.(skills := disk.skills - {backup});
          assert disk.skills == whole - {backup};
          trail := trail + [disk];
        }
      }
      ok := true;
    }

    /** `materialize_skill_to_dir`. */
    method MaterializeSkill(sha: Blob -> string, s: Skill, e: Env) returns (ok: bool)
      modifies this
      ensures var r := Materialize(sha, old(disk), s, e);
              ok == r.ok && Led(old(trail), old(disk), r, trail, disk)
    {
      ghost var d, past := disk, trail;
      if !ValidKey(s.key) { return false; }
      if Key(s.key) in disk.skills && !disk.skills[Key(s.key)].Dir? { return false; }
      if MarkerMatches(disk, s) { return true; }
      if e.fetched.None? || !EqIgnoreCase(sha(e.fetched.value), s.checksum) { return false; }
      if e.temp.None? || e.temp.value in disk.temps { return false; }
      var b, t := e.fetched.value, e.temp.value;
      var built := Unpack(t, b, e.maxFiles);
      if !built {
        disk := disk.(temps := disk.temps - {t});
        assert disk == Dropped(d, t);
        trail := trail + [disk];
        return false;
      }
      disk := disk.(temps := disk.temps[t := disk.temps[t][MARKER := s.checksum]]);
      assert disk == WithTemp(d, t, Sealed(b, s.checksum));
      trail := trail + [disk];
      ghost var sealed, before := disk, trail;
      ok := AtomicReplace(s.key, t, e);
      LedOn(past, d, Outcome(BuildTrail(d, t, b, e.maxFiles) + [sealed], true), before, sealed,
            ReplaceTrail(sealed, s.key, t, Sealed(b, s.checksum), e), trail, disk);
    }

    /** One entry of `prune_unlisted_entries`. */
    method PruneOne(keys: set<string>, name: Name, halves: map<Name, set<string>>, fails: bool) returns (ok: bool)
      modifies this
      ensures var r := PruneEntry(old(disk), keys, name, halves, fails);
              ok == r.ok && Led(old(trail), old(disk), r, trail, disk)
    {
      if !Visible(name) || name.key in keys || name !in disk.skills { return true; }
      ghost var before := disk.skills;
      var left := if name in halves then halves[name] else {};
      disk := disk.(skills := disk.skills[name := Half(disk.skills[name], left)]);
      trail := trail + [disk];
      if fails { return false; }
      disk := disk.(skills := disk.skills - {name});
      assert disk.skills == before - {name};
      trail := trail + [disk];
      ok := true;
    }

    /** `prune_unlisted_entries` over a directory listing. */
    method PruneUnlisted(keys: set<string>, listing: seq<Name>, halves: map<Name, set<string>>, failsAt: Option<nat>)
      returns (ok: bool)
      modifies this
      ensures var r := Prune(old(disk), keys, listing, halves, failsAt);
              ok == r.ok && Led(old(trail), old(disk), r, trail, disk)
    {
      ghost var d, past := disk, trail;
      for i := 0 to |listing|
        invariant var r := Prune(d, keys, listing[..i], halves, failsAt);
                  r.ok && Led(past, d, r, trail, disk)
      {
        assert listing[..i + 1][..i] == listing[..i];
        ghost var mid, before := disk, trail;
        ok := PruneOne(keys, listing[i], halves, failsAt == Some(i));
        LedOn(past, d, Prune(d, keys, listing[..i], halves, failsAt), before, mid,
              PruneEntry(mid, keys, listing[i], halves, failsAt == Some(i)), trail, disk);
        if !ok {
          PruneStops(d, keys, listing, halves, failsAt, i + 1);
          return false;
        }
      }
      assert listing[..|listing|] == listing;
      ok := true;
    }

    /** The materialization loop of a convergence. */
    method MaterializeListed(sha: Blob -> string, listed: seq<Skill>, envs: seq<Env>) returns (ok: bool)
      requires |envs| == |listed|
      modifies this
      ensures var r := MaterializeAll(sha, old(disk), listed, envs);
              ok == r.ok && Led(old(trail), old(disk), r, trail, disk)
    {
      ghost var d, past := disk, trail;
      for i := 0 to |listed|
        invariant var r := MaterializeAll(sha, d, listed[..i], envs[..i]);
                  r.ok && Led(past, d, r, trail, disk)
      {
        assert listed[..i + 1][..i] == listed[..i] && envs[..i + 1][..i] == envs[..i];
        ghost var mid, before := disk, trail;
        ok := MaterializeSkill(sha, listed[i], envs[i]);
        LedOn(past, d, MaterializeAll(sha, d, listed[..i], envs[..i]), before, mid,
              Materialize(sha, mid, listed[i], envs[i]), trail, disk);
        if !ok {
          MaterializeStops(sha, d, listed, envs, i + 1);
          return false;
        }
      }
      assert listed[..|listed|] == listed && envs[..|envs|] == envs;
      ok := true;
    }

    /** The full pass of a convergence: materialize, prune, stamp. */
    method FullPassSkills(sha: Blob -> string, c: Call) returns (ok: bool)
      requires c.Aligned()
      modifies this
      ensures var r := FullPass(sha, old(disk), c);
              ok == r.ok && Led(old(trail), old(disk), r, trail, disk)
    {
      ghost var d, past := disk, trail;
      ghost var m := MaterializeAll(sha, d, c.skills, c.envs);
      ok := MaterializeListed(sha, c.skills, c.envs);
      if !ok || !c.hasVersion || !c.allowPrune { return; }
      ghost var mid, before := disk, trail;
      ghost var p := Prune(mid, KeysOf(c.skills), c.listing, c.halves, c.pruneFailsAt);
      ok := PruneUnlisted(KeysOf(c.skills), c.listing, c.halves, c.pruneFailsAt);
      LedOn(past, d, m, before, mid, p, trail, disk);
      if ok {
        ghost var pruned, middle := disk, trail;
        disk := disk.(stamp := Some(StampFor(c.skills)));
        trail := trail + [disk];
        LedOn(past, d, Outcome(m.trail + p.trail, true), middle, pruned, Outcome([disk], true), trail, disk);
      }
    }

    /** `converge_provider_skills`. */
    method ConvergeSkills(sha: Blob -> string, c: Call) returns (ok: bool, hit: bool)
      requires c.Aligned()
      modifies this
      ensures hit == Hit(old(disk), c.skills)
      ensures var r := Converge(sha, old(disk), c);
              ok == r.ok && Led(old(trail), old(disk), r, trail, disk)
    {
      hit := Hit(disk, c.skills);
      if hit { return true, true; }
      ok := FullPassSkills(sha, c);
    }
  }

  lemma {:induction false} UnpackStops(d: Disk, t: nat, entries: seq<ZipEntry>, i: nat)
    requires i < |entries| && Writable(entries[..i]) == i && !entries[i].isDir && entries[i].path.None?
    ensures Writable(entries) == i && UnpackTrail(d, t, entries) == UnpackTrail(d, t, entries[..i])
    decreases |entries|
  {
    var n := |entries| - 1;
    if i < n {
      assert entries[..n][..i] == entries[..i];
      UnpackStops(d, t, entries[..n], i);
    }
  }

  lemma {:induction false} PruneStops(
    d: Disk, keys: set<string>, listing: seq<Name>, halves: map<Name, set<string>>, failsAt: Option<nat>, i: nat)
    requires i <= |listing| && !Prune(d, keys, listing[..i], halves, failsAt).ok
    ensures Prune(d, keys, listing, halves, failsAt) == Prune(d, keys, listing[..i], halves, failsAt)
    decreases |listing|
  {
    if i == |listing| {
      assert listing[..i] == listing;
    } else {
      var n := |listing| - 1;
      assert listing[..n][..i] == listing[..i];
      PruneStops(d, keys, listing[..n], halves, failsAt, i);
    }
  }

  lemma {:induction false} MaterializeStops(sha: Blob -> string, d: Disk, skills: seq<Skill>, envs: seq<Env>, i: nat)
    requires |envs| == |skills| && i <= |skills| && !MaterializeAll(sha, d, skills[..i], envs[..i]).ok
    ensures MaterializeAll(sha, d, skills, envs) == MaterializeAll(sha, d, skills[..i], envs[..i])
    decreases |skills|
  {
    if i == |skills| {
      assert skills[..i] == skills && envs[..i] == envs;
    } else {
      var n := |skills| - 1;
      assert skills[..n][..i] == skills[..i] && envs[..n][..i] == envs[..i];
      MaterializeStops(sha, d, skills[..n], envs[..n], i);
    }
  }
}
