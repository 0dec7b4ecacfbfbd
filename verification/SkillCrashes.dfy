/**
  Convergences cut short by crashes. Materialization can be stopped anywhere; the
  removal of a pruned skill is the one place where a crash leaves a directory whose
  marker no longer tells the truth, and this says exactly when.
*/
module SkillCrashes {
  import opened Wrappers
  import opened SkillFingerprint
  import opened SkillStore
  import opened SkillConvergence

  /** From `d` to `x` the entry under `key` stayed, went, or became a complete genuine skill. */
  ghost predicate CleanFor(sha: Blob -> string, d: Disk, x: Disk, key: string) {
    var node := Get(x, key);
    || node == Get(d, key) || node == None
    || (node.value.Dir? && exists checksum :: Genuine(sha, node.value.files, checksum))
  }

  lemma CleanThenClean(sha: Blob -> string, d: Disk, x: Disk, y: Disk, key: string)
    requires CleanFor(sha, d, x, key) && CleanFor(sha, x, y, key)
    ensures CleanFor(sha, d, y, key)
  {
  }

  lemma MaterializeClean(sha: Blob -> string, d: Disk, s: Skill, e: Env, i: nat, key: string)
    requires i < |Materialize(sha, d, s, e).trail|
    ensures CleanFor(sha, d, Materialize(sha, d, s, e).trail[i], key)
  {
    MaterializeSafe(sha, d, s, e, i);
  }

  /** Every point of the materialization loop. */
  lemma {:induction false} MaterializeAllClean(
    sha: Blob -> string, d: Disk, skills: seq<Skill>, envs: seq<Env>, i: nat, key: string)
    requires |envs| == |skills| && i < |MaterializeAll(sha, d, skills, envs).trail|
    ensures CleanFor(sha, d, MaterializeAll(sha, d, skills, envs).trail[i], key)
    decreases |skills|
  {
    var n := |skills| - 1;
    var before := MaterializeAll(sha, d, skills[..n], envs[..n]);
    if i < |before.trail| {
      MaterializeAllClean(sha, d, skills[..n], envs[..n], i, key);
    } else {
      var mid := LastOf(d, before.trail);
      if before.trail != [] { MaterializeAllClean(sha, d, skills[..n], envs[..n], |before.trail| - 1, key); }
      MaterializeClean(sha, mid, skills[n], envs[n], i - |before.trail|, key);
      CleanThenClean(sha, d, mid, Materialize(sha, mid, skills[n], envs[n]).trail[i - |before.trail|], key);
    }
  }

  // ---------------------------------------------------------------------------
  // The points of the prune loop
  // ---------------------------------------------------------------------------

  /** What an interrupted removal of `key` would leave. */
  function LeftOf(halves: map<Name, set<string>>, key: string): set<string> {
    if Key(key) in halves then halves[Key(key)] else {}
  }

  /** The `i`-th state of the prune loop is the half-removed one of `key`, which is the `n`-th of the listing. */
  predicate HalfPoint(
    d: Disk, keys: set<string>, listing: seq<Name>, halves: map<Name, set<string>>, failsAt: Option<nat>,
    i: nat, n: nat, key: string)
  {
    n < |listing| && listing[n] == Key(key) &&
    var before := Prune(d, keys, listing[..n], halves, failsAt);
    before.ok && Stale(LastOf(d, before.trail), keys, Key(key)) && i == |before.trail|
  }

  ghost predicate HalfRemoved(
    d: Disk, keys: set<string>, listing: seq<Name>, halves: map<Name, set<string>>, failsAt: Option<nat>,
    i: nat, key: string)
  {
    exists n: nat :: HalfPoint(d, keys, listing, halves, failsAt, i, n, key)
  }

  /** A prune loop that gets through leaves every entry either whole or gone. */
  lemma {:induction false} PruneWholeOrGone(
    d: Disk, keys: set<string>, listing: seq<Name>, halves: map<Name, set<string>>, failsAt: Option<nat>, key: string)
    requires Prune(d, keys, listing, halves, failsAt).ok
    ensures var x := LastOf(d, Prune(d, keys, listing, halves, failsAt).trail);
            Get(x, key) == Get(d, key) || Get(x, key) == None
    decreases |listing|
  {
    if listing != [] { PruneWholeOrGone(d, keys, listing[..|listing| - 1], halves, failsAt, key); }
  }

  lemma HalfPointSnoc(
    d: Disk, keys: set<string>, listing: seq<Name>, halves: map<Name, set<string>>, failsAt: Option<nat>,
    i: nat, n: nat, key: string)
    requires n < |listing| - 1
    ensures HalfPoint(d, keys, listing, halves, failsAt, i, n, key)
            <==> HalfPoint(d, keys, listing[..|listing| - 1], halves, failsAt, i, n, key)
  {
    assert listing[..|listing| - 1][..n] == listing[..n];
  }

  /** A half-removed point lies inside the trail. */
  lemma {:induction false} HalfPointEarly(
    d: Disk, keys: set<string>, listing: seq<Name>, halves: map<Name, set<string>>, failsAt: Option<nat>,
    i: nat, n: nat, key: string)
    requires HalfPoint(d, keys, listing, halves, failsAt, i, n, key)
    ensures i < |Prune(d, keys, listing, halves, failsAt).trail|
    decreases |listing|
  {
    var m := |listing| - 1;
    if n < m {
      HalfPointSnoc(d, keys, listing, halves, failsAt, i, n, key);
      HalfPointEarly(d, keys, listing[..m], halves, failsAt, i, n, key);
    }
  }

  lemma HalfRemovedEarly(
    d: Disk, keys: set<string>, listing: seq<Name>, halves: map<Name, set<string>>, failsAt: Option<nat>,
    i: nat, key: string)
    requires HalfRemoved(d, keys, listing, halves, failsAt, i, key)
    ensures i < |Prune(d, keys, listing, halves, failsAt).trail|
  {
    var n: nat :| HalfPoint(d, keys, listing, halves, failsAt, i, n, key);
    HalfPointEarly(d, keys, listing, halves, failsAt, i, n, key);
  }

  /** One more entry in the listing adds at most one half-removed point. */
  lemma HalfRemovedSnoc(
    d: Disk, keys: set<string>, listing: seq<Name>, halves: map<Name, set<string>>, failsAt: Option<nat>,
    i: nat, key: string)
    requires listing != []
    ensures HalfRemoved(d, keys, listing, halves, failsAt, i, key) <==>
            HalfRemoved(d, keys, listing[..|listing| - 1], halves, failsAt, i, key)
            || HalfPoint(d, keys, listing, halves, failsAt, i, |listing| - 1, key)
  {
    var m := |listing| - 1;
    if n: nat :| HalfPoint(d, keys, listing, halves, failsAt, i, n, key) {
      if n < m { HalfPointSnoc(d, keys, listing, halves, failsAt, i, n, key); }
    }
    var shorter := listing[..m];
    if n: nat :| HalfPoint(d, keys, shorter, halves, failsAt, i, n, key) {
      HalfPointSnoc(d, keys, listing, halves, failsAt, i, n, key);
    }
  }

  /** At a half-removed point the entry is what is left of it; at any other point it is whole or gone. */
  lemma {:induction false} PrunePoint(
    d: Disk, keys: set<string>, listing: seq<Name>, halves: map<Name, set<string>>, failsAt: Option<nat>,
    i: nat, key: string)
    requires i < |Prune(d, keys, listing, halves, failsAt).trail|
    ensures var x := Prune(d, keys, listing, halves, failsAt).trail[i];
            if HalfRemoved(d, keys, listing, halves, failsAt, i, key)
            then Key(key) in d.skills && Get(x, key) == Some(Half(d.skills[Key(key)], LeftOf(halves, key)))
            else Get(x, key) == Get(d, key) || Get(x, key) == None
    decreases |listing|
  {
    var m := |listing| - 1;
    var before := Prune(d, keys, listing[..m], halves, failsAt);
    HalfRemovedSnoc(d, keys, listing, halves, failsAt, i, key);
    if i < |before.trail| {
      PrunePoint(d, keys, listing[..m], halves, failsAt, i, key);
    } else {
      if HalfRemoved(d, keys, listing[..m], halves, failsAt, i, key) {
        HalfRemovedEarly(d, keys, listing[..m], halves, failsAt, i, key);
      }
      PruneWholeOrGone(d, keys, listing[..m], halves, failsAt, key);
      LastEntryPoint(LastOf(d, before.trail), keys, listing[m], halves, failsAt == Some(m), i - |before.trail|, key);
    }
  }

  lemma LastEntryPoint(
    d: Disk, keys: set<string>, name: Name, halves: map<Name, set<string>>, fails: bool, i: nat, key: string)
    requires i < |PruneEntry(d, keys, name, halves, fails).trail|
    ensures var x := PruneEntry(d, keys, name, halves, fails).trail[i];
            if name == Key(key) && i == 0
            then Key(key) in d.skills && Get(x, key) == Some(Half(d.skills[Key(key)], LeftOf(halves, key)))
            else Get(x, key) == Get(d, key) || Get(x, key) == None
    ensures Stale(d, keys, name)
  {
  }

  // ---------------------------------------------------------------------------
  // The points of a convergence
  // ---------------------------------------------------------------------------

  /** The disk the prune loop starts from, and its outcome. */
  function Mid(sha: Blob -> string, d: Disk, c: Call): Disk
    requires c.Aligned()
  {
    LastOf(d, MaterializeAll(sha, d, c.skills, c.envs).trail)
  }

  function PruneOf(sha: Blob -> string, d: Disk, c: Call): Outcome
    requires c.Aligned()
  {
    Prune(Mid(sha, d, c), KeysOf(c.skills), c.listing, c.halves, c.pruneFailsAt)
  }

  /** The call gets as far as its prune loop. */
  predicate ReachesPrune(sha: Blob -> string, d: Disk, c: Call)
    requires c.Aligned()
  {
    !Hit(d, c.skills) && MaterializeAll(sha, d, c.skills, c.envs).ok && c.Prunes()
  }

  /** Stopped after `i + 1` durable steps, the call is half-way through removing `key`. */
  ghost predicate Removing(sha: Blob -> string, d: Disk, c: Call, i: nat, key: string)
    requires c.Aligned()
  {
    var m := |MaterializeAll(sha, d, c.skills, c.envs).trail|;
    ReachesPrune(sha, d, c) && i >= m
    && HalfRemoved(Mid(sha, d, c), KeysOf(c.skills), c.listing, c.halves, c.pruneFailsAt, i - m, key)
  }

  /** Every crash point is one of materialization, one of pruning, or the stamped end. */
  lemma CrashPoints(sha: Blob -> string, d: Disk, c: Call, i: nat)
    requires c.Aligned() && i < |Converge(sha, d, c).trail|
    ensures !Hit(d, c.skills)
    ensures var m := MaterializeAll(sha, d, c.skills, c.envs).trail;
            var p := PruneOf(sha, d, c);
            var x := Converge(sha, d, c).trail[i];
            || (i < |m| && x == m[i])
            || (ReachesPrune(sha, d, c) && |m| <= i < |m| + |p.trail| && x == p.trail[i - |m|])
            || (ReachesPrune(sha, d, c) && i == |m| + |p.trail| && p.ok
                && x.skills == LastOf(Mid(sha, d, c), p.trail).skills)
  {
    var m := MaterializeAll(sha, d, c.skills, c.envs);
    var p := PruneOf(sha, d, c);
    LastOfConcat(d, m.trail, p.trail);
  }

  /** A key being removed is visible and unlisted, so materialization left its entry alone. */
  lemma RemovingUnlisted(sha: Blob -> string, d: Disk, c: Call, i: nat, key: string)
    requires c.Aligned() && Removing(sha, d, c, i, key)
    ensures Visible(Key(key)) && key !in KeysOf(c.skills) && Get(Mid(sha, d, c), key) == Get(d, key)
  {
    MaterializeAllEnds(sha, d, c.skills, c.envs);
  }

  lemma MidClean(sha: Blob -> string, d: Disk, c: Call, key: string)
    requires c.Aligned()
    ensures CleanFor(sha, d, Mid(sha, d, c), key)
  {
    var m := MaterializeAll(sha, d, c.skills, c.envs).trail;
    if m != [] { MaterializeAllClean(sha, d, c.skills, c.envs, |m| - 1, key); }
  }

  /** The entry at a point of the prune loop. */
  lemma PrunePointClean(sha: Blob -> string, d: Disk, c: Call, i: nat, x: Disk, key: string)
    requires c.Aligned() && ReachesPrune(sha, d, c)
    requires var m, p := |MaterializeAll(sha, d, c.skills, c.envs).trail|, PruneOf(sha, d, c).trail;
             m <= i < m + |p| && x == p[i - m]
    ensures if Removing(sha, d, c, i, key)
            then Key(key) in d.skills && Get(x, key) == Some(Half(d.skills[Key(key)], LeftOf(c.halves, key)))
            else CleanFor(sha, d, x, key)
  {
    var m, mid := |MaterializeAll(sha, d, c.skills, c.envs).trail|, Mid(sha, d, c);
    PrunePoint(mid, KeysOf(c.skills), c.listing, c.halves, c.pruneFailsAt, i - m, key);
    if Removing(sha, d, c, i, key) {
      RemovingUnlisted(sha, d, c, i, key);
    } else {
      MidClean(sha, d, c, key);
      CleanThenClean(sha, d, mid, x, key);
    }
  }

  /** The entry in the stamped end state. */
  lemma EndPointClean(sha: Blob -> string, d: Disk, c: Call, i: nat, x: Disk, key: string)
    requires c.Aligned() && PruneOf(sha, d, c).ok && x.skills == LastOf(Mid(sha, d, c), PruneOf(sha, d, c).trail).skills
    requires i == |MaterializeAll(sha, d, c.skills, c.envs).trail| + |PruneOf(sha, d, c).trail|
    ensures !Removing(sha, d, c, i, key) && CleanFor(sha, d, x, key)
  {
    var m, mid := |MaterializeAll(sha, d, c.skills, c.envs).trail|, Mid(sha, d, c);
    if HalfRemoved(mid, KeysOf(c.skills), c.listing, c.halves, c.pruneFailsAt, i - m, key) {
      HalfRemovedEarly(mid, KeysOf(c.skills), c.listing, c.halves, c.pruneFailsAt, i - m, key);
    }
    PruneWholeOrGone(mid, KeysOf(c.skills), c.listing, c.halves, c.pruneFailsAt, key);
    MidClean(sha, d, c, key);
    CleanThenClean(sha, d, mid, x, key);
  }

  /** At every crash point the entry under `key` is clean, or exactly what a removal in progress has left of it. */
  lemma PointClean(sha: Blob -> string, d: Disk, c: Call, i: nat, key: string)
    requires c.Aligned() && i < |Converge(sha, d, c).trail|
    ensures var x := Converge(sha, d, c).trail[i];
            if Removing(sha, d, c, i, key)
            then Key(key) in d.skills && Get(x, key) == Some(Half(d.skills[Key(key)], LeftOf(c.halves, key)))
            else CleanFor(sha, d, x, key)
  {
    CrashPoints(sha, d, c, i);
    var x := Converge(sha, d, c).trail[i];
    var m := |MaterializeAll(sha, d, c.skills, c.envs).trail|;
    if i < m {
      MaterializeAllClean(sha, d, c.skills, c.envs, i, key);
    } else if i < m + |PruneOf(sha, d, c).trail| {
      PrunePointClean(sha, d, c, i, x, key);
    } else {
      EndPointClean(sha, d, c, i, x, key);
    }
  }

  // ---------------------------------------------------------------------------
  // Markers
  // ---------------------------------------------------------------------------

  lemma CleanHonest(sha: Blob -> string, d: Disk, x: Disk, key: string)
    requires HonestAt(sha, d, key) && CleanFor(sha, d, x, key)
    ensures HonestAt(sha, x, key)
  {
    var node := Get(x, key);
    if node != Get(d, key) && node != None {
      var checksum :| Genuine(sha, node.value.files, checksum);
      assert node.value.files[MARKER] == checksum;
    }
  }

  /** No crash point of a call makes a marker lie under a key it lists or that is hidden. */
  lemma ConvergeHonest(sha: Blob -> string, d: Disk, c: Call, i: nat, key: string)
    requires c.Aligned() && HonestAt(sha, d, key) && i < |Converge(sha, d, c).trail|
    requires !Visible(Key(key)) || key in KeysOf(c.skills)
    ensures HonestAt(sha, Converge(sha, d, c).trail[i], key)
  {
    PointClean(sha, d, c, i, key);
    if Removing(sha, d, c, i, key) {
      RemovingUnlisted(sha, d, c, i, key);
    } else {
      CleanHonest(sha, d, Converge(sha, d, c).trail[i], key);
    }
  }

  /** A call that runs to success leaves every marker honest, pruned keys included. */
  lemma SuccessHonest(sha: Blob -> string, d: Disk, c: Call, key: string)
    requires c.Aligned() && HonestAt(sha, d, key) && Converge(sha, d, c).ok
    ensures HonestAt(sha, LastOf(d, Converge(sha, d, c).trail), key)
  {
    if !Hit(d, c.skills) {
      var m := MaterializeAll(sha, d, c.skills, c.envs);
      var mid := LastOf(d, m.trail);
      MidClean(sha, d, c, key);
      if c.Prunes() {
        PruneWholeOrGone(mid, KeysOf(c.skills), c.listing, c.halves, c.pruneFailsAt, key);
        var p := Prune(mid, KeysOf(c.skills), c.listing, c.halves, c.pruneFailsAt);
        LastOfConcat(d, m.trail, p.trail);
        CleanThenClean(sha, d, mid, LastOf(mid, p.trail), key);
      }
      CleanHonest(sha, d, LastOf(d, Converge(sha, d, c).trail), key);
    }
  }

  /** An interrupted removal of `node` keeps its marker and loses some file. */
  predicate KeepsMarkerOnly(node: Node, left: set<string>) {
    node.Dir? && MARKER in node.files && MARKER in left && !(node.files.Keys <= left)
  }

  /** Stopped after `i + 1` durable steps, the call leaves a marked directory with files missing under `key`. */
  ghost predicate Tears(sha: Blob -> string, d: Disk, c: Call, i: nat, key: string)
    requires c.Aligned()
  {
    Removing(sha, d, c, i, key) && Key(key) in d.skills && KeepsMarkerOnly(d.skills[Key(key)], LeftOf(c.halves, key))
  }

  /** The files are part of a genuine skill: the marker is there, and something else is not. */
  ghost predicate Torn(sha: Blob -> string, files: Files) {
    exists whole: Files, checksum: string, left: set<string> :: TornFrom(sha, files, whole, checksum, left)
  }

  ghost predicate TornFrom(sha: Blob -> string, files: Files, whole: Files, checksum: string, left: set<string>) {
    Genuine(sha, whole, checksum) && MARKER in left && !(whole.Keys <= left) && files == Only(whole, left)
  }

  /** Either the marker under `key` is honest, or the directory is a torn skill. */
  ghost predicate HonestOrTorn(sha: Blob -> string, d: Disk, key: string) {
    HonestAt(sha, d, key) || (Get(d, key).Some? && Get(d, key).value.Dir? && Torn(sha, Get(d, key).value.files))
  }

  lemma TornIsDishonest(sha: Blob -> string, d: Disk, key: string)
    requires CollisionFree(sha) && Get(d, key).Some? && Get(d, key).value.Dir? && Torn(sha, Get(d, key).value.files)
    ensures !HonestAt(sha, d, key)
  {
    var files := Get(d, key).value.files;
    var whole, checksum, left :| TornFrom(sha, files, whole, checksum, left);
    HalfHonestIff(sha, whole, checksum, left);
  }

  lemma OnlyTwice(files: Files, a: set<string>, b: set<string>)
    ensures Only(Only(files, a), b) == Only(files, a * b)
  {
  }

  /** Tearing a whole skill, or one that was torn before, leaves a torn one. */
  lemma TearingTears(sha: Blob -> string, d: Disk, x: Disk, key: string, left: set<string>)
    requires HonestOrTorn(sha, d, key) && Key(key) in d.skills && KeepsMarkerOnly(d.skills[Key(key)], left)
    requires Get(x, key) == Some(Half(d.skills[Key(key)], left))
    ensures Get(x, key).value.Dir? && Torn(sha, Get(x, key).value.files)
  {
    var files := d.skills[Key(key)].files;
    if HonestAt(sha, d, key) {
      assert TornFrom(sha, Only(files, left), files, files[MARKER], left);
    } else {
      var whole, checksum, before :| TornFrom(sha, files, whole, checksum, before);
      OnlyTwice(whole, before, left);
      assert !(whole.Keys <= before * left);
      assert TornFrom(sha, Only(files, left), whole, checksum, before * left);
    }
  }

  /** A removal that keeps the marker and everything else has changed nothing yet. */
  lemma HalfOfNothing(node: Node, left: set<string>)
    requires node.Dir? && node.files.Keys <= left
    ensures Half(node, left) == node
  {
    assert Only(node.files, left) == node.files;
  }

  /**
    One stopped call, exactly: the marker under `key` lies afterwards if and only if the
    stop tore the skill, or it lied before and the entry is still the same.
  */
  lemma StopHonestIff(sha: Blob -> string, d: Disk, c: Call, i: nat, key: string)
    requires CollisionFree(sha) && c.Aligned() && HonestOrTorn(sha, d, key) && i < |Converge(sha, d, c).trail|
    ensures var x := Converge(sha, d, c).trail[i];
            && HonestOrTorn(sha, x, key)
            && (!HonestAt(sha, x, key) <==>
                Tears(sha, d, c, i, key) || (!HonestAt(sha, d, key) && Get(x, key) == Get(d, key)))
  {
    var x := Converge(sha, d, c).trail[i];
    PointClean(sha, d, c, i, key);
    if Tears(sha, d, c, i, key) {
      TearingTears(sha, d, x, key, LeftOf(c.halves, key));
      TornIsDishonest(sha, x, key);
    } else if Removing(sha, d, c, i, key) {
      var node, left := d.skills[Key(key)], LeftOf(c.halves, key);
      if node.Dir? && node.files.Keys <= left { HalfOfNothing(node, left); }
    } else if Get(x, key) != Get(d, key) && Get(x, key) != None {
      var checksum :| Genuine(sha, Get(x, key).value.files, checksum);
      assert Get(x, key).value.files[MARKER] == checksum;
    }
  }

  /** The same from an honest disk: every crash point is honest, except one that tears the skill. */
  lemma CrashHonestIff(sha: Blob -> string, d: Disk, c: Call, i: nat, key: string)
    requires CollisionFree(sha) && c.Aligned() && HonestAt(sha, d, key) && i < |Converge(sha, d, c).trail|
    ensures HonestAt(sha, Converge(sha, d, c).trail[i], key) <==> !Tears(sha, d, c, i, key)
  {
    StopHonestIff(sha, d, c, i, key);
  }

  // ---------------------------------------------------------------------------
  // Runs
  // ---------------------------------------------------------------------------

  /** A call stopped after `upTo` durable steps; a large `upTo` lets it finish. */
  datatype Event = Event(call: Call, upTo: nat)

  function StopAt(sha: Blob -> string, d: Disk, ev: Event): nat
    requires ev.call.Aligned()
  {
    if ev.upTo < |Converge(sha, d, ev.call).trail| then ev.upTo else |Converge(sha, d, ev.call).trail|
  }

  function Stopped(sha: Blob -> string, d: Disk, ev: Event): Disk
    requires ev.call.Aligned()
  {
    LastOf(d, Converge(sha, d, ev.call).trail[..StopAt(sha, d, ev)])
  }

  function RunEvents(sha: Blob -> string, d: Disk, events: seq<Event>): Disk
    requires forall i :: 0 <= i < |events| ==> events[i].call.Aligned()
    decreases |events|
  {
    if events == [] then d else Stopped(sha, RunEvents(sha, d, events[..|events| - 1]), events[|events| - 1])
  }

  /** The `n`-th event stops in a state that tears the skill under `key`. */
  ghost predicate TearsAt(sha: Blob -> string, d: Disk, events: seq<Event>, n: nat, key: string)
    requires forall i :: 0 <= i < |events| ==> events[i].call.Aligned()
  {
    n < |events| &&
    var mid := RunEvents(sha, d, events[..n]);
    var stop := StopAt(sha, mid, events[n]);
    stop > 0 && Tears(sha, mid, events[n].call, stop - 1, key)
  }

  /** The entry under `key` before the run and after each of its events. */
  function History(sha: Blob -> string, d: Disk, events: seq<Event>, key: string): (h: seq<Option<Node>>)
    requires forall i :: 0 <= i < |events| ==> events[i].call.Aligned()
    ensures |h| == |events| + 1 && h[|events|] == Get(RunEvents(sha, d, events), key)
    decreases |events|
  {
    if events == [] then [Get(d, key)]
    else History(sha, d, events[..|events| - 1], key) + [Get(RunEvents(sha, d, events), key)]
  }

  /** From position `n` + 1 on the history does not change. */
  predicate ConstantAfter(h: seq<Option<Node>>, n: nat) {
    forall m :: n < m < |h| ==> h[m] == h[|h| - 1]
  }

  lemma ConstantSnoc(h: seq<Option<Node>>, x: Option<Node>, n: nat)
    requires n + 1 < |h|
    ensures ConstantAfter(h + [x], n) <==> ConstantAfter(h, n) && x == h[|h| - 1]
  {
    var all := h + [x];
    assert all[|h|] == x && forall m :: 0 <= m < |h| ==> all[m] == h[m];
    if ConstantAfter(all, n) { assert all[|h| - 1] == all[|all| - 1]; }
  }

  /** After the `n`-th event the entry under `key` is always the same. */
  ghost predicate SameSince(sha: Blob -> string, d: Disk, events: seq<Event>, n: nat, key: string)
    requires forall i :: 0 <= i < |events| ==> events[i].call.Aligned()
  {
    ConstantAfter(History(sha, d, events, key), n)
  }

  lemma StoppedHonestIff(sha: Blob -> string, d: Disk, ev: Event, key: string)
    requires CollisionFree(sha) && ev.call.Aligned() && HonestOrTorn(sha, d, key)
    ensures var x := Stopped(sha, d, ev);
            var stop := StopAt(sha, d, ev);
            && HonestOrTorn(sha, x, key)
            && (!HonestAt(sha, x, key) <==>
                || (stop > 0 && Tears(sha, d, ev.call, stop - 1, key))
                || (!HonestAt(sha, d, key) && Get(x, key) == Get(d, key)))
  {
    var stop := StopAt(sha, d, ev);
    if stop > 0 {
      assert Stopped(sha, d, ev) == Converge(sha, d, ev.call).trail[stop - 1];
      StopHonestIff(sha, d, ev.call, stop - 1, key);
    }
  }

  lemma TearsAtSnoc(sha: Blob -> string, d: Disk, events: seq<Event>, n: nat, key: string)
    requires forall i :: 0 <= i < |events| ==> events[i].call.Aligned()
    requires n < |events| - 1
    ensures TearsAt(sha, d, events, n, key) <==> TearsAt(sha, d, events[..|events| - 1], n, key)
  {
    assert events[..|events| - 1][..n] == events[..n];
  }

  lemma SameSinceSnoc(sha: Blob -> string, d: Disk, events: seq<Event>, n: nat, key: string)
    requires forall i :: 0 <= i < |events| ==> events[i].call.Aligned()
    requires n < |events| - 1
    ensures SameSince(sha, d, events, n, key) <==>
            SameSince(sha, d, events[..|events| - 1], n, key)
            && Get(RunEvents(sha, d, events), key) == Get(RunEvents(sha, d, events[..|events| - 1]), key)
  {
    ConstantSnoc(History(sha, d, events[..|events| - 1], key), Get(RunEvents(sha, d, events), key), n);
  }

  ghost predicate LiesSince(sha: Blob -> string, d: Disk, events: seq<Event>, n: nat, key: string)
    requires forall i :: 0 <= i < |events| ==> events[i].call.Aligned()
  {
    TearsAt(sha, d, events, n, key) && SameSince(sha, d, events, n, key)
  }

  lemma LiesSinceSnoc(sha: Blob -> string, d: Disk, events: seq<Event>, n: nat, key: string)
    requires events != [] && forall i :: 0 <= i < |events| ==> events[i].call.Aligned()
    ensures var fewer := events[..|events| - 1];
            && (n < |events| - 1 ==>
                (LiesSince(sha, d, events, n, key) <==>
                 && LiesSince(sha, d, fewer, n, key)
                 && Get(RunEvents(sha, d, events), key) == Get(RunEvents(sha, d, fewer), key)))
            && (n == |events| - 1 ==> (LiesSince(sha, d, events, n, key) <==> TearsAt(sha, d, events, n, key)))
            && (n >= |events| ==> !LiesSince(sha, d, events, n, key))
  {
    if n < |events| - 1 {
      TearsAtSnoc(sha, d, events, n, key);
      SameSinceSnoc(sha, d, events, n, key);
    }
  }

  ghost predicate LiesBy(sha: Blob -> string, d: Disk, events: seq<Event>, key: string)
    requires forall i :: 0 <= i < |events| ==> events[i].call.Aligned()
  {
    exists n: nat :: LiesSince(sha, d, events, n, key)
  }

  lemma LiesBySnoc(sha: Blob -> string, d: Disk, events: seq<Event>, key: string)
    requires events != [] && forall i :: 0 <= i < |events| ==> events[i].call.Aligned()
    ensures var k := |events| - 1;
            LiesBy(sha, d, events, key) <==>
            || TearsAt(sha, d, events, k, key)
            || (LiesBy(sha, d, events[..k], key)
                && Get(RunEvents(sha, d, events), key) == Get(RunEvents(sha, d, events[..k]), key))
  {
    var k := |events| - 1;
    var fewer := events[..k];
    if n: nat :| LiesSince(sha, d, events, n, key) {
      LiesSinceSnoc(sha, d, events, n, key);
    }
    if n: nat :| LiesSince(sha, d, fewer, n, key) {
      LiesSinceSnoc(sha, d, events, n, key);
    }
    LiesSinceSnoc(sha, d, events, k, key);
  }

  /**
    Over every run of convergences, each stopped anywhere: the marker under a key lies in the
    end if and only if some call was stopped half-way through removing that skill, its marker
    left and some file gone, and nothing has touched the entry since.
  */
  lemma {:induction false} RunHonestIff(sha: Blob -> string, d: Disk, events: seq<Event>, key: string)
    requires forall i :: 0 <= i < |events| ==> events[i].call.Aligned()
    requires CollisionFree(sha) && HonestAt(sha, d, key)
    ensures HonestOrTorn(sha, RunEvents(sha, d, events), key)
    ensures !HonestAt(sha, RunEvents(sha, d, events), key) <==> LiesBy(sha, d, events, key)
    decreases |events|
  {
    if events != [] {
      var k := |events| - 1;
      RunHonestIff(sha, d, events[..k], key);
      StoppedHonestIff(sha, RunEvents(sha, d, events[..k]), events[k], key);
      LiesBySnoc(sha, d, events, key);
    }
  }

  // ---------------------------------------------------------------------------
  // The exception is real
  // ---------------------------------------------------------------------------

  /** A call for an empty manifest that prunes one entry. */
  function PruneCall(key: string, left: set<string>): Call {
    Call([], [], true, true, [Key(key)], map[Key(key) := left], None)
  }

  function ListCall(key: string, checksum: string, e: Env): Call {
    Call([Skill(key, checksum)], [e], false, false, [], map[], None)
  }

  /** The first durable step of that call is the torn skill. */
  lemma PruneCallTears(sha: Blob -> string, d: Disk, key: string, left: set<string>)
    requires !Hit(d, []) && Visible(Key(key)) && Key(key) in d.skills
    ensures var c := PruneCall(key, left);
            && c.Aligned() && |Converge(sha, d, c).trail| > 0 && Removing(sha, d, c, 0, key)
            && Converge(sha, d, c).trail[0] == d.(skills := d.skills[Key(key) := Half(d.skills[Key(key)], left)])
  {
    var c := PruneCall(key, left);
    assert KeysOf([]) == {};
    assert MaterializeAll(sha, d, c.skills, c.envs) == Outcome([], true);
    var none: seq<Disk> := [];
    assert c.listing[..0] == [];
    var p := Prune(d, {}, c.listing, c.halves, None);
    assert Prune(d, {}, c.listing[..0], c.halves, None) == Outcome([], true);
    assert p.trail == none + PruneEntry(d, {}, Key(key), c.halves, false).trail;
    assert HalfPoint(d, {}, c.listing, c.halves, None, 0, 0, key);
    assert Converge(sha, d, c).trail[0] == p.trail[0];
  }

  /**
    A genuine skill, a pruning call stopped after its first step with the marker left and
    some file gone: the marker lies, and the next call that lists the skill takes it as it
    is, without a fetch.
  */
  lemma TornSkillIsReused(sha: Blob -> string, d: Disk, key: string, checksum: string, left: set<string>, e: Env)
    requires CollisionFree(sha) && ValidKey(key) && Visible(Key(key)) && !Hit(d, [])
    requires Get(d, key).Some? && Get(d, key).value.Dir? && Genuine(sha, Get(d, key).value.files, checksum)
    requires MARKER in left && !(Get(d, key).value.files.Keys <= left)
    ensures PruneCall(key, left).Aligned() && |Converge(sha, d, PruneCall(key, left)).trail| > 0
    ensures var torn := Converge(sha, d, PruneCall(key, left)).trail[0];
            && !HonestAt(sha, torn, key)
            && ListCall(key, checksum, e).Aligned()
            && Converge(sha, torn, ListCall(key, checksum, e)) == Outcome([], true)
  {
    PruneCallTears(sha, d, key, left);
    HalfHonestIff(sha, Get(d, key).value.files, checksum, left);
    var torn := Converge(sha, d, PruneCall(key, left)).trail[0];
    var c := ListCall(key, checksum, e);
    assert Materialize(sha, torn, c.skills[0], e) == Outcome([], true);
    assert c.skills[..0] == [] && c.envs[..0] == [];
    assert MaterializeAll(sha, torn, c.skills[..0], c.envs[..0]) == Outcome([], true);
    var none: seq<Disk> := [];
    assert none + none == none;
    assert MaterializeAll(sha, torn, c.skills, c.envs) == Outcome([], true);
    assert FullPass(sha, torn, c) == Outcome([], true);
  }
}
