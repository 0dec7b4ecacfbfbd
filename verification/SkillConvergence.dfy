/**
  Driving a skills root to a manifest: materialize what is listed, prune what is
  not, and remember the outcome in a stamp that short-circuits the next call.
*/
module SkillConvergence {
  import opened Wrappers
  import opened SkillFingerprint
  import opened SkillStore

  const STAMP_VERSION: int := 1

  /** One call, with everything the outside world decides during it. */
  datatype Call = Call(
    skills: seq<Skill>,
    envs: seq<Env>,                 // one per skill
    hasVersion: bool,
    allowPrune: bool,
    listing: seq<Name>,             // the directory listing seen by the prune loop
    halves: map<Name, set<string>>, // what an interrupted removal would leave
    pruneFailsAt: Option<nat>)
  {
    predicate Aligned() { |envs| == |skills| }

    predicate Prunes() { hasVersion && allowPrune }
  }

  function KeysOf(skills: seq<Skill>): set<string> { set i | 0 <= i < |skills| :: skills[i].key }

  /** Listed twice, a key is listed with one checksum. */
  ghost predicate Consistent(skills: seq<Skill>) {
    forall i, j :: 0 <= i < |skills| && 0 <= j < |skills| && skills[i].key == skills[j].key ==> skills[i] == skills[j]
  }

  predicate AllMarkersCurrent(d: Disk, skills: seq<Skill>) {
    forall i :: 0 <= i < |skills| ==> MarkerMatches(d, skills[i])
  }

  predicate Hit(d: Disk, skills: seq<Skill>) {
    && d.stamp.Some? && d.stamp.value.version == STAMP_VERSION
    && d.stamp.value.text == FingerprintText(skills)
    && AllMarkersCurrent(d, skills)
  }

  /** The materialization loop: stops at the first failure. */
  function MaterializeAll(sha: Blob -> string, d: Disk, skills: seq<Skill>, envs: seq<Env>): Outcome
    requires |envs| == |skills|
  {
    if skills == [] then Outcome([], true)
    else
      var n := |skills| - 1;
      var before := MaterializeAll(sha, d, skills[..n], envs[..n]);
      if !before.ok then before
      else
        var r := Materialize(sha, LastOf(d, before.trail), skills[n], envs[n]);
        Outcome(before.trail + r.trail, r.ok)
  }

  predicate Visible(name: Name) { name.Key? && !("." <= name.key) }

  predicate Stale(d: Disk, keys: set<string>, name: Name) {
    Visible(name) && name.key !in keys && name in d.skills
  }

  /** One entry of the prune loop; a removal passes through a half-removed state. */
  function PruneEntry(d: Disk, keys: set<string>, name: Name, halves: map<Name, set<string>>, fails: bool): Outcome {
    if !Stale(d, keys, name) then Outcome([], true)
    else
      var half := d.(skills := d.skills[name := Half(d.skills[name], if name in halves then halves[name] else {})]);
      if fails then Outcome([half], false) else Outcome([half, d.(skills := d.skills - {name})], true)
  }

  /** The prune loop over a listing. */
  function Prune(
    d: Disk, keys: set<string>, listing: seq<Name>, halves: map<Name, set<string>>, failsAt: Option<nat>)
    : Outcome
    decreases |listing|
  {
    if listing == [] then Outcome([], true)
    else
      var n := |listing| - 1;
      var before := Prune(d, keys, listing[..n], halves, failsAt);
      if !before.ok then before
      else
        var p := PruneEntry(LastOf(d, before.trail), keys, listing[n], halves, failsAt == Some(n));
        Outcome(before.trail + p.trail, p.ok)
  }

  /** The listed entries are kept for people to read; only version and text are ever compared. */
  function StampFor(skills: seq<Skill>): Stamp { Stamp(STAMP_VERSION, FingerprintText(skills), Sort(skills)) }

  /** Everything after a missed stamp. */
  function FullPass(sha: Blob -> string, d: Disk, c: Call): Outcome
    requires c.Aligned()
  {
    var m := MaterializeAll(sha, d, c.skills, c.envs);
    if !m.ok || !c.Prunes() then m
    else
      var p := Prune(LastOf(d, m.trail), KeysOf(c.skills), c.listing, c.halves, c.pruneFailsAt);
      var trail := m.trail + p.trail;
      if !p.ok then Outcome(trail, false)
      else Outcome(trail + [LastOf(d, trail).(stamp := Some(StampFor(c.skills)))], true)
  }

  function Converge(sha: Blob -> string, d: Disk, c: Call): Outcome
    requires c.Aligned()
  {
    if Hit(d, c.skills) then Outcome([], true) else FullPass(sha, d, c)
  }

  /** The listing the prune loop saw was complete. */
  ghost predicate ListsAll(sha: Blob -> string, d: Disk, c: Call)
    requires c.Aligned()
  {
    forall name :: name in LastOf(d, MaterializeAll(sha, d, c.skills, c.envs).trail).skills ==> name in c.listing
  }

  // ---------------------------------------------------------------------------
  // Where the two loops end
  // ---------------------------------------------------------------------------

  /** No later entry lists the same key. */
  predicate LastListed(skills: seq<Skill>, i: nat)
    requires i < |skills|
  {
    forall j :: i < j < |skills| ==> skills[j].key != skills[i].key
  }

  predicate IsSkillDir(x: Disk, key: string) { ValidKey(key) && Get(x, key).Some? && Get(x, key).value.Dir? }

  /** Every listed skill is a directory under a valid key, marked as its last listing says. */
  ghost predicate Landed(x: Disk, skills: seq<Skill>) {
    forall i :: 0 <= i < |skills| ==>
      IsSkillDir(x, skills[i].key) && (LastListed(skills, i) ==> MarkerMatches(x, skills[i]))
  }

  lemma LastListedSnoc(skills: seq<Skill>, i: nat)
    requires i < |skills| - 1
    ensures LastListed(skills, i) <==>
            LastListed(skills[..|skills| - 1], i) && skills[|skills| - 1].key != skills[i].key
  {
    var fewer := skills[..|skills| - 1];
    assert forall j :: 0 <= j < |fewer| ==> fewer[j] == skills[j];
    if LastListed(fewer, i) && skills[|skills| - 1].key != skills[i].key {
      forall j | i < j < |skills| ensures skills[j].key != skills[i].key {
        if j < |fewer| { assert fewer[j].key != fewer[i].key; }
      }
    }
  }

  lemma LandedSnoc(mid: Disk, x: Disk, skills: seq<Skill>)
    requires skills != []
    requires var n := |skills| - 1;
             && Landed(mid, skills[..n]) && OnlyTouches(mid, x, skills[n].key)
             && MarkerMatches(x, skills[n]) && IsSkillDir(x, skills[n].key)
    ensures Landed(x, skills)
  {
    var n := |skills| - 1;
    forall i | 0 <= i < n
      ensures IsSkillDir(x, skills[i].key) && (LastListed(skills, i) ==> MarkerMatches(x, skills[i]))
    {
      LastListedSnoc(skills, i);
      assert skills[..n][i] == skills[i];
      if skills[i].key != skills[n].key { assert Get(x, skills[i].key) == Get(mid, skills[i].key); }
    }
  }

  /** From `d` to `x` only skills under `keys` changed. */
  ghost predicate Within(d: Disk, x: Disk, keys: set<string>) {
    x.stamp == d.stamp && forall k: string :: k !in keys ==> Get(x, k) == Get(d, k)
  }

  lemma WithinOn(d: Disk, mid: Disk, x: Disk, keys: set<string>, key: string)
    requires Within(d, mid, keys) && OnlyTouches(mid, x, key)
    ensures Within(d, x, keys + {key})
  {
  }

  lemma {:induction false} MaterializeAllEnds(sha: Blob -> string, d: Disk, skills: seq<Skill>, envs: seq<Env>)
    requires |envs| == |skills|
    ensures var r := MaterializeAll(sha, d, skills, envs);
            var x := LastOf(d, r.trail);
            Within(d, x, KeysOf(skills)) && (r.ok ==> Landed(x, skills))
    decreases |skills|
  {
    if skills != [] {
      var n := |skills| - 1;
      MaterializeAllEnds(sha, d, skills[..n], envs[..n]);
      KeysOfSnoc(skills);
      var before := MaterializeAll(sha, d, skills[..n], envs[..n]);
      var mid := LastOf(d, before.trail);
      if before.ok {
        MaterializeEnds(sha, mid, skills[n], envs[n]);
        var r := Materialize(sha, mid, skills[n], envs[n]);
        LastOfConcat(d, before.trail, r.trail);
        WithinOn(d, mid, LastOf(mid, r.trail), KeysOf(skills[..n]), skills[n].key);
        if r.ok { LandedSnoc(mid, LastOf(mid, r.trail), skills); }
      } else {
        assert Within(d, mid, KeysOf(skills));
      }
    }
  }

  lemma KeysOfSnoc(skills: seq<Skill>)
    requires skills != []
    ensures var n := |skills| - 1;
            KeysOf(skills) == KeysOf(skills[..n]) + {skills[n].key}
  {
    var n := |skills| - 1;
    forall k | k in KeysOf(skills[..n]) ensures k in KeysOf(skills) {
      var i :| 0 <= i < n && skills[..n][i].key == k;
      assert skills[i].key == k;
    }
    forall k | k in KeysOf(skills) ensures k in KeysOf(skills[..n]) + {skills[n].key} {
      var i :| 0 <= i < |skills| && skills[i].key == k;
      if i < n { assert skills[..n][i].key == k; }
    }
  }

  lemma LandedConsistent(x: Disk, skills: seq<Skill>)
    requires Landed(x, skills) && Consistent(skills)
    ensures AllMarkersCurrent(x, skills)
  {
    forall i | 0 <= i < |skills| ensures MarkerMatches(x, skills[i]) {
      var l := LastIndex(skills, i);
      assert MarkerMatches(x, skills[l]) && skills[l] == skills[i];
    }
  }

  /** A consistent manifest that was materialized has all its markers. */
  lemma ConsistentMarkers(sha: Blob -> string, d: Disk, skills: seq<Skill>, envs: seq<Env>)
    requires |envs| == |skills| && MaterializeAll(sha, d, skills, envs).ok && Consistent(skills)
    ensures AllMarkersCurrent(LastOf(d, MaterializeAll(sha, d, skills, envs).trail), skills)
  {
    MaterializeAllEnds(sha, d, skills, envs);
    LandedConsistent(LastOf(d, MaterializeAll(sha, d, skills, envs).trail), skills);
  }

  lemma LastIndex(skills: seq<Skill>, i: nat) returns (l: nat)
    requires i < |skills|
    ensures i <= l < |skills| && skills[l].key == skills[i].key && LastListed(skills, l)
  {
    l := i;
    for j := i + 1 to |skills|
      invariant i <= l < j && skills[l].key == skills[i].key
      invariant forall m :: l < m < j ==> skills[m].key != skills[i].key
    {
      if skills[j].key == skills[i].key { l := j; }
    }
  }

  /** From `d` to `x` only stale entries changed, and none was added. */
  ghost predicate PrunedTo(d: Disk, x: Disk, keys: set<string>) {
    && x.stamp == d.stamp && x.temps == d.temps
    && (forall name :: name in x.skills ==> name in d.skills)
    && (forall name :: !Stale(d, keys, name) && name in d.skills ==>
          name in x.skills && x.skills[name] == d.skills[name])
  }

  lemma PrunedOn(d: Disk, x: Disk, y: Disk, keys: set<string>)
    requires PrunedTo(d, x, keys) && PrunedTo(x, y, keys)
    ensures PrunedTo(d, y, keys)
  {
  }

  lemma PruneEntryEnds(d: Disk, keys: set<string>, name: Name, halves: map<Name, set<string>>, fails: bool)
    ensures var r := PruneEntry(d, keys, name, halves, fails);
            var x := LastOf(d, r.trail);
            PrunedTo(d, x, keys) && (r.ok ==> !Stale(x, keys, name))
  {
  }

  /** No listed name is stale. */
  ghost predicate NoneStale(x: Disk, keys: set<string>, listing: seq<Name>) {
    forall name :: name in listing ==> !Stale(x, keys, name)
  }

  lemma NoneStaleOn(d: Disk, x: Disk, keys: set<string>, listing: seq<Name>, name: Name)
    requires NoneStale(d, keys, listing) && PrunedTo(d, x, keys) && !Stale(x, keys, name)
    ensures NoneStale(x, keys, listing + [name])
  {
  }

  lemma {:induction false} PruneEnds(
    d: Disk, keys: set<string>, listing: seq<Name>, halves: map<Name, set<string>>, failsAt: Option<nat>)
    ensures var r := Prune(d, keys, listing, halves, failsAt);
            var x := LastOf(d, r.trail);
            PrunedTo(d, x, keys) && (r.ok ==> NoneStale(x, keys, listing))
    decreases |listing|
  {
    if listing != [] {
      var n := |listing| - 1;
      var before := Prune(d, keys, listing[..n], halves, failsAt);
      PruneEnds(d, keys, listing[..n], halves, failsAt);
      if before.ok {
        PruneEndsOne(d, keys, listing[..n], listing[n], halves, failsAt, before);
        assert listing[..n] + [listing[n]] == listing;
      }
    }
  }

  lemma PruneEndsOne(
    d: Disk, keys: set<string>, listing: seq<Name>, name: Name, halves: map<Name, set<string>>, failsAt: Option<nat>,
    before: Outcome)
    requires PrunedTo(d, LastOf(d, before.trail), keys) && NoneStale(LastOf(d, before.trail), keys, listing)
    ensures var p := PruneEntry(LastOf(d, before.trail), keys, name, halves, failsAt == Some(|listing|));
            var x := LastOf(d, before.trail + p.trail);
            PrunedTo(d, x, keys) && (p.ok ==> NoneStale(x, keys, listing + [name]))
  {
    var mid := LastOf(d, before.trail);
    var p := PruneEntry(mid, keys, name, halves, failsAt == Some(|listing|));
    PruneEntryEnds(mid, keys, name, halves, failsAt == Some(|listing|));
    LastOfConcat(d, before.trail, p.trail);
    PrunedOn(d, mid, LastOf(mid, p.trail), keys);
    if p.ok { NoneStaleOn(mid, LastOf(mid, p.trail), keys, listing, name); }
  }

  // ---------------------------------------------------------------------------
  // Success, repetition, agreement
  // ---------------------------------------------------------------------------

  /** Where a full pass ends, in terms of its two loops. */
  lemma FullPassShape(sha: Blob -> string, d: Disk, c: Call)
    requires c.Aligned()
    ensures var m := MaterializeAll(sha, d, c.skills, c.envs);
            var mid := LastOf(d, m.trail);
            var p := Prune(mid, KeysOf(c.skills), c.listing, c.halves, c.pruneFailsAt);
            var x := LastOf(d, FullPass(sha, d, c).trail);
            if !m.ok || !c.Prunes() then x == mid
            else if !p.ok then x == LastOf(mid, p.trail)
            else x == LastOf(mid, p.trail).(stamp := Some(StampFor(c.skills)))
  {
    var m := MaterializeAll(sha, d, c.skills, c.envs);
    var mid := LastOf(d, m.trail);
    var p := Prune(mid, KeysOf(c.skills), c.listing, c.halves, c.pruneFailsAt);
    LastOfConcat(d, m.trail, p.trail);
  }

  /** A pruned success leaves exactly the visible manifest keys, each at its checksum, and a matching stamp. */
  lemma PrunedSuccess(sha: Blob -> string, d: Disk, c: Call)
    requires c.Aligned() && c.Prunes() && Consistent(c.skills) && ListsAll(sha, d, c)
    requires FullPass(sha, d, c).ok
    ensures var x := LastOf(d, FullPass(sha, d, c).trail);
            && (forall k: string :: Visible(Key(k)) ==> (Get(x, k).Some? <==> k in KeysOf(c.skills)))
            && (forall i :: 0 <= i < |c.skills| ==> MarkerMatches(x, c.skills[i]) && Get(x, c.skills[i].key).value.Dir?)
            && x.stamp == Some(StampFor(c.skills))
  {
    var keys := KeysOf(c.skills);
    var mid := LastOf(d, MaterializeAll(sha, d, c.skills, c.envs).trail);
    MaterializeAllEnds(sha, d, c.skills, c.envs);
    ConsistentMarkers(sha, d, c.skills, c.envs);
    FullPassShape(sha, d, c);
    PruneEnds(mid, keys, c.listing, c.halves, c.pruneFailsAt);
    var x := LastOf(d, FullPass(sha, d, c).trail);
    KeptByPrune(mid, x.(stamp := mid.stamp), keys, c.listing);
    forall k: string | Visible(Key(k)) ensures Get(x, k).Some? <==> k in keys {
      if k in keys {
        var i :| 0 <= i < |c.skills| && c.skills[i].key == k;
        assert Get(mid, k).Some?;
      }
    }
    forall i | 0 <= i < |c.skills| ensures MarkerMatches(x, c.skills[i]) && Get(x, c.skills[i].key).value.Dir? {
      assert Get(x, c.skills[i].key) == Get(mid, c.skills[i].key) && MarkerMatches(mid, c.skills[i]);
    }
  }

  /** Pruning over a complete listing keeps what is listed in the manifest, and nothing else that can be seen. */
  lemma KeptByPrune(d: Disk, x: Disk, keys: set<string>, listing: seq<Name>)
    requires PrunedTo(d, x, keys) && NoneStale(x, keys, listing) && forall name :: name in d.skills ==> name in listing
    ensures forall k: string :: k in keys ==> Get(x, k) == Get(d, k)
    ensures forall k: string :: Visible(Key(k)) && k !in keys ==> Get(x, k).None?
  {
    forall k: string | k in keys ensures Get(x, k) == Get(d, k) { assert !Stale(d, keys, Key(k)); }
    forall k: string | Visible(Key(k)) && k !in keys ensures Get(x, k).None? {
      if Key(k) in x.skills { assert Key(k) in listing && Stale(x, keys, Key(k)); }
    }
  }

  lemma SameMembers(m: seq<Skill>, n: seq<Skill>)
    requires multiset(m) == multiset(n)
    ensures forall s :: s in m <==> s in n
    ensures KeysOf(m) == KeysOf(n)
  {
    assert forall s :: s in m <==> s in multiset(m);
    assert forall s :: s in n <==> s in multiset(n);
    forall k | k in KeysOf(m) ensures k in KeysOf(n) {
      var i :| 0 <= i < |m| && m[i].key == k;
      assert m[i] in n;
      var j :| 0 <= j < |n| && n[j] == m[i];
    }
    forall k | k in KeysOf(n) ensures k in KeysOf(m) {
      var i :| 0 <= i < |n| && n[i].key == k;
      assert n[i] in m;
      var j :| 0 <= j < |m| && m[j] == n[i];
    }
  }

  /** Repeating a pruned success with the manifest in any order changes and fetches nothing. */
  lemma RepeatHits(sha: Blob -> string, d: Disk, c: Call, again: Call)
    requires c.Aligned() && c.Prunes() && Consistent(c.skills) && ListsAll(sha, d, c) && FullPass(sha, d, c).ok
    requires again.Aligned() && multiset(again.skills) == multiset(c.skills)
    ensures var x := LastOf(d, FullPass(sha, d, c).trail);
            Hit(x, again.skills) && Converge(sha, x, again) == Outcome([], true)
  {
    PrunedSuccess(sha, d, c);
    FingerprintOrderFree(c.skills, again.skills);
    SameMembers(c.skills, again.skills);
    var x := LastOf(d, FullPass(sha, d, c).trail);
    forall i | 0 <= i < |again.skills| ensures MarkerMatches(x, again.skills[i]) {
      assert again.skills[i] in c.skills;
      var j :| 0 <= j < |c.skills| && c.skills[j] == again.skills[i];
    }
  }

  /** After any pruned success the same manifest hits exactly when it is consistent. */
  lemma RepeatHitsIffConsistent(sha: Blob -> string, d: Disk, c: Call)
    requires c.Aligned() && c.Prunes() && ListsAll(sha, d, c) && FullPass(sha, d, c).ok
    ensures Hit(LastOf(d, FullPass(sha, d, c).trail), c.skills) <==> Consistent(c.skills)
  {
    if Consistent(c.skills) { RepeatHits(sha, d, c, c); }
  }

  /**
    With its markers current, the full pass over a manifest fetches and changes nothing
    exactly when every listed entry is a real directory under a valid key.
  */
  lemma {:induction false} CurrentMarkersNeedNoWork(sha: Blob -> string, d: Disk, skills: seq<Skill>, envs: seq<Env>)
    requires |envs| == |skills| && AllMarkersCurrent(d, skills)
    ensures MaterializeAll(sha, d, skills, envs).trail == []
    ensures MaterializeAll(sha, d, skills, envs).ok <==>
            forall i :: 0 <= i < |skills| ==> ValidKey(skills[i].key) && d.skills[Key(skills[i].key)].Dir?
    decreases |skills|
  {
    if skills != [] {
      var n := |skills| - 1;
      assert forall i :: 0 <= i < n ==> skills[..n][i] == skills[i];
      CurrentMarkersNeedNoWork(sha, d, skills[..n], envs[..n]);
      assert MarkerMatches(d, skills[n]);
    }
  }

  /** An entry whose name starts with a dot is nobody's to prune: unless it is listed, no call touches it. */
  lemma HiddenStays(sha: Blob -> string, d: Disk, c: Call, k: string)
    requires c.Aligned() && "." <= k && k !in KeysOf(c.skills)
    ensures Get(LastOf(d, Converge(sha, d, c).trail), k) == Get(d, k)
  {
    if !Hit(d, c.skills) {
      var mid := LastOf(d, MaterializeAll(sha, d, c.skills, c.envs).trail);
      MaterializeAllEnds(sha, d, c.skills, c.envs);
      FullPassShape(sha, d, c);
      PruneEnds(mid, KeysOf(c.skills), c.listing, c.halves, c.pruneFailsAt);
      assert !Stale(mid, KeysOf(c.skills), Key(k));
      var p := Prune(mid, KeysOf(c.skills), c.listing, c.halves, c.pruneFailsAt);
      NeverAdded(mid, LastOf(mid, p.trail), KeysOf(c.skills), k);
    }
  }

  lemma NeverAdded(d: Disk, x: Disk, keys: set<string>, k: string)
    requires PrunedTo(d, x, keys) && !Stale(d, keys, Key(k))
    ensures Get(x, k) == Get(d, k)
  {
  }

  /** A stamp of another version never hits, whatever it says: everything is gone through again. */
  lemma OldStampMisses(sha: Blob -> string, d: Disk, c: Call)
    requires c.Aligned() && d.stamp.Some? && d.stamp.value.version != 1
    ensures Converge(sha, d, c) == FullPass(sha, d, c)
  {
  }

  /** A hit reads markers through a symbolic link; the full pass rejects the link. */
  lemma LinkHitsButFails(sha: Blob -> string, key: string, checksum: string, e: Env)
    ensures var skills := [Skill(key, checksum)];
            var d := Disk(map[Key(key) := Link(Some(checksum))], map[], Some(StampFor(skills)));
            Hit(d, skills) && !MaterializeAll(sha, d, skills, [e]).ok
  {
    var skills := [Skill(key, checksum)];
    var d := Disk(map[Key(key) := Link(Some(checksum))], map[], Some(StampFor(skills)));
    assert skills[..0] == [];
    assert MarkerMatches(d, skills[0]);
    CurrentMarkersNeedNoWork(sha, d, skills, [e]);
  }

  /** Everything goes well, with this archive. */
  function Smooth(b: Blob, maxFiles: nat): Env { Env(Some(b), maxFiles, Some(0), Some(0), false, false, {}, false) }

  /** Archive `b` goes over whatever one skill was there. */
  lemma SmoothReplaces(sha: Blob -> string, d: Disk, key: string, b: Blob, maxFiles: nat)
    requires ValidKey(key) && Unpacks(b, maxFiles) && d.temps == map[] && d.skills.Keys <= {Key(key)}
    requires Key(key) in d.skills ==> d.skills[Key(key)].Dir?
    ensures var r := Materialize(sha, d, Skill(key, sha(b)), Smooth(b, maxFiles));
            var x := LastOf(d, r.trail);
            r.ok && x.temps == map[] && x.stamp == d.stamp && x.skills.Keys == {Key(key)} && x.skills[Key(key)].Dir?
  {
    var s, e := Skill(key, sha(b)), Smooth(b, maxFiles);
    MaterializeEnds(sha, d, s, e);
    if !MarkerMatches(d, s) {
      var files := Sealed(b, s.checksum);
      var sealed := WithTemp(d, 0, files);
      var swap := ReplaceTrail(sealed, key, 0, files, e);
      LastOfConcat(d, BuildTrail(d, 0, b, maxFiles) + [sealed], swap.trail);
      assert LastOf(sealed, swap.trail).skills.Keys == {Key(key)};
    }
  }

  /** The manifest of one key with two checksums, and the call that converges it. */
  function TwiceListed(sha: Blob -> string, key: string, b1: Blob, b2: Blob, maxFiles: nat): Call {
    Call([Skill(key, sha(b1)), Skill(key, sha(b2))], [Smooth(b1, maxFiles), Smooth(b2, maxFiles)],
         true, true, [Key(key)], map[], None)
  }

  /** Such a manifest converges on an empty disk, stamp and all, and its repetition does not hit. */
  lemma TwiceListedNeverHits(sha: Blob -> string, key: string, b1: Blob, b2: Blob, maxFiles: nat)
    requires ValidKey(key) && Unpacks(b1, maxFiles) && Unpacks(b2, maxFiles) && sha(b1) != sha(b2)
    ensures var d, c := Disk(map[], map[], None), TwiceListed(sha, key, b1, b2, maxFiles);
            && c.Aligned() && c.Prunes() && FullPass(sha, d, c).ok
            && LastOf(d, FullPass(sha, d, c).trail).stamp == Some(StampFor(c.skills))
            && !Hit(LastOf(d, FullPass(sha, d, c).trail), c.skills)
  {
    var d, c := Disk(map[], map[], None), TwiceListed(sha, key, b1, b2, maxFiles);
    var first := Materialize(sha, d, c.skills[0], c.envs[0]);
    SmoothReplaces(sha, d, key, b1, maxFiles);
    var mid := LastOf(d, first.trail);
    SmoothReplaces(sha, mid, key, b2, maxFiles);
    var second := Materialize(sha, mid, c.skills[1], c.envs[1]);
    assert c.skills[..1] == [c.skills[0]] && c.envs[..1] == [c.envs[0]];
    assert [c.skills[0]][..0] == [] && [c.envs[0]][..0] == [];
    var none: seq<Disk> := [];
    assert none + first.trail == first.trail;
    assert MaterializeAll(sha, d, [c.skills[0]], [c.envs[0]]) == first;
    assert MaterializeAll(sha, d, c.skills, c.envs) == Outcome(first.trail + second.trail, true);
    LastOfConcat(d, first.trail, second.trail);
    var x := LastOf(mid, second.trail);
    assert c.skills[0].key in KeysOf(c.skills);
    assert c.listing[..0] == [];
    assert Prune(x, KeysOf(c.skills), c.listing[..0], c.halves, None) == Outcome([], true);
    assert Prune(x, KeysOf(c.skills), c.listing, c.halves, None) == Outcome([], true);
    FullPassShape(sha, d, c);
    RepeatHitsIffConsistent(sha, d, c);
  }

  lemma PruneKeeps(d: Disk, keys: set<string>, listing: seq<Name>, halves: map<Name, set<string>>, failsAt: Option<nat>)
    ensures var x := LastOf(d, Prune(d, keys, listing, halves, failsAt).trail);
            && (forall k: string :: k in keys ==> Get(x, k) == Get(d, k))
            && ((forall name :: !Stale(d, keys, name)) ==> x.skills == d.skills)
  {
    PruneEnds(d, keys, listing, halves, failsAt);
    assert forall k: string :: k in keys ==> !Stale(d, keys, Key(k));
  }

  lemma FullPassOfCurrent(sha: Blob -> string, d: Disk, c: Call)
    requires c.Aligned() && MaterializeAll(sha, d, c.skills, c.envs) == Outcome([], true)
    ensures LastOf(d, FullPass(sha, d, c).trail).skills ==
            if c.Prunes() then LastOf(d, Prune(d, KeysOf(c.skills), c.listing, c.halves, c.pruneFailsAt).trail).skills
            else d.skills
  {
    var p := Prune(d, KeysOf(c.skills), c.listing, c.halves, c.pruneFailsAt);
    assert [] + p.trail == p.trail;
  }

  /** On a hit over real directories, the full pass agrees: it differs only by pruning stale entries. */
  lemma HitAgreesWithFullPass(sha: Blob -> string, d: Disk, c: Call)
    requires c.Aligned() && Hit(d, c.skills)
    requires forall i :: 0 <= i < |c.skills| ==> ValidKey(c.skills[i].key) && d.skills[Key(c.skills[i].key)].Dir?
    ensures var x := LastOf(d, FullPass(sha, d, c).trail);
            && (forall k: string :: k in KeysOf(c.skills) ==> Get(x, k) == Get(d, k))
            && ((forall name :: !Stale(d, KeysOf(c.skills), name)) ==> x.skills == d.skills)
  {
    CurrentMarkersNeedNoWork(sha, d, c.skills, c.envs);
    FullPassOfCurrent(sha, d, c);
    PruneKeeps(d, KeysOf(c.skills), c.listing, c.halves, c.pruneFailsAt);
  }

  // ---------------------------------------------------------------------------
  // The stamp over whole runs
  // ---------------------------------------------------------------------------

  /** The stamp describes a manifest that lists every visible entry. */
  ghost predicate Tidy(d: Disk) {
    d.stamp.Some? ==>
      && d.stamp.value == StampFor(d.stamp.value.skills) && AllPlain(d.stamp.value.skills)
      && forall k: string :: Visible(Key(k)) && Get(d, k).Some? ==> k in KeysOf(d.stamp.value.skills)
  }

  /** A call that pruned and succeeded, or hit the stamp. */
  ghost predicate CleanCall(sha: Blob -> string, d: Disk, c: Call) {
    && c.Aligned() && AllPlain(c.skills)
    && (Hit(d, c.skills) || (c.Prunes() && Consistent(c.skills) && ListsAll(sha, d, c) && FullPass(sha, d, c).ok))
  }

  ghost predicate CleanRun(sha: Blob -> string, d: Disk, calls: seq<Call>)
    decreases |calls|
  {
    calls == [] ||
    var n := |calls| - 1;
    CleanRun(sha, d, calls[..n]) && CleanCall(sha, RunAll(sha, d, calls[..n]), calls[n])
  }

  ghost function RunAll(sha: Blob -> string, d: Disk, calls: seq<Call>): Disk
    decreases |calls|
  {
    if calls == [] then d
    else
      var n := |calls| - 1;
      var mid := RunAll(sha, d, calls[..n]);
      if calls[n].Aligned() then LastOf(mid, Converge(sha, mid, calls[n]).trail) else mid
  }

  lemma SortOfStamp(skills: seq<Skill>)
    requires AllPlain(skills)
    ensures StampFor(Sort(skills)) == StampFor(skills)
    ensures AllPlain(Sort(skills)) && KeysOf(Sort(skills)) == KeysOf(skills)
  {
    PlainInMultiset(skills, Sort(skills));
    FingerprintOrderFree(skills, Sort(skills));
    SameMembers(skills, Sort(skills));
    SortSorted(skills);
    SortSorted(Sort(skills));
    SortedUnique(Sort(Sort(skills)), Sort(skills));
  }

  lemma {:induction false} CleanRunTidy(sha: Blob -> string, d: Disk, calls: seq<Call>)
    requires Tidy(d) && CleanRun(sha, d, calls)
    ensures Tidy(RunAll(sha, d, calls))
    decreases |calls|
  {
    if calls != [] {
      var n := |calls| - 1;
      CleanRunTidy(sha, d, calls[..n]);
      var mid := RunAll(sha, d, calls[..n]);
      var c := calls[n];
      if !Hit(mid, c.skills) {
        PrunedSuccess(sha, mid, c);
        SortOfStamp(c.skills);
      }
    }
  }

  /**
    After any run of pruned successes and hits, a hit skips nothing: no visible entry is
    stale, so the full pass would leave every entry as it is.
  */
  lemma HitLeavesNothingStale(sha: Blob -> string, d: Disk, calls: seq<Call>, skills: seq<Skill>)
    requires Tidy(d) && CleanRun(sha, d, calls) && AllPlain(skills) && Hit(RunAll(sha, d, calls), skills)
    ensures forall name :: !Stale(RunAll(sha, d, calls), KeysOf(skills), name)
  {
    CleanRunTidy(sha, d, calls);
    var x := RunAll(sha, d, calls);
    var stamped := x.stamp.value.skills;
    FingerprintIdentifies(skills, stamped);
    SameMembers(skills, stamped);
    assert forall name: Name :: name.Key? && name in x.skills ==> Get(x, name.key).Some?;
  }

  // ---------------------------------------------------------------------------
  // Exactly when a hit leaves something stale
  // ---------------------------------------------------------------------------

  lemma PruneAddsNothing(
    d: Disk, keys: set<string>, listing: seq<Name>, halves: map<Name, set<string>>, failsAt: Option<nat>, k: string)
    ensures var r := Prune(d, keys, listing, halves, failsAt);
            var x := LastOf(d, r.trail);
            && x.stamp == d.stamp && (Get(d, k).None? ==> Get(x, k).None?)
            && (r.ok && Visible(Key(k)) && Key(k) in listing && Get(x, k).Some? ==> k in keys)
  {
    PruneEnds(d, keys, listing, halves, failsAt);
    var x := LastOf(d, Prune(d, keys, listing, halves, failsAt).trail);
    assert Get(x, k).Some? && Visible(Key(k)) && k !in keys ==> Stale(x, keys, Key(k));
  }

  ghost predicate StampOk(d: Disk) {
    d.stamp.Some? ==> d.stamp.value == StampFor(d.stamp.value.skills) && AllPlain(d.stamp.value.skills)
  }

  /** From `d` to `x` nothing but listed keys was added; a new stamp lists `k` if it is there to be seen. */
  ghost predicate StepOk(d: Disk, x: Disk, c: Call, k: string) {
    && (k !in KeysOf(c.skills) && Get(d, k).None? ==> Get(x, k).None?)
    && (x.stamp == d.stamp
        || (x.stamp.Some? && StampOk(x) && (Visible(Key(k)) && Get(x, k).Some? ==> k in KeysOf(x.stamp.value.skills))))
  }

  lemma ConvergeStep(sha: Blob -> string, d: Disk, c: Call, k: string)
    requires c.Aligned() && AllPlain(c.skills) && ListsAll(sha, d, c)
    ensures StepOk(d, LastOf(d, Converge(sha, d, c).trail), c, k)
  {
    if !Hit(d, c.skills) {
      var m := MaterializeAll(sha, d, c.skills, c.envs);
      var mid := LastOf(d, m.trail);
      MaterializeAllEnds(sha, d, c.skills, c.envs);
      FullPassShape(sha, d, c);
      PruneAddsNothing(mid, KeysOf(c.skills), c.listing, c.halves, c.pruneFailsAt, k);
      SortOfStamp(c.skills);
    }
  }

  /** All calls list plain entries, and each prune loop saw a complete listing. */
  ghost predicate PlainRun(sha: Blob -> string, d: Disk, calls: seq<Call>)
    decreases |calls|
  {
    calls == [] ||
    var n := |calls| - 1;
    && PlainRun(sha, d, calls[..n])
    && calls[n].Aligned() && AllPlain(calls[n].skills) && ListsAll(sha, RunAll(sha, d, calls[..n]), calls[n])
  }

  ghost predicate Present(sha: Blob -> string, d: Disk, calls: seq<Call>, m: nat, k: string)
    requires m <= |calls|
  {
    Get(RunAll(sha, d, calls[..m]), k).Some?
  }

  /** The `n`-th call lists `k` and put it there, and it has been there ever since. */
  ghost predicate AddedForGood(sha: Blob -> string, d: Disk, calls: seq<Call>, n: nat, k: string) {
    && n < |calls| && k in KeysOf(calls[n].skills) && !Present(sha, d, calls, n, k)
    && forall m :: n < m <= |calls| ==> Present(sha, d, calls, m, k)
  }

  lemma AddedSnoc(sha: Blob -> string, d: Disk, calls: seq<Call>, n: nat, k: string)
    requires calls != [] && AddedForGood(sha, d, calls[..|calls| - 1], n, k) && Get(RunAll(sha, d, calls), k).Some?
    ensures AddedForGood(sha, d, calls, n, k)
  {
    var fewer := calls[..|calls| - 1];
    assert calls[..|calls|] == calls;
    forall m | 0 <= m < |calls| ensures Present(sha, d, calls, m, k) == Present(sha, d, fewer, m, k) {
      assert fewer[..m] == calls[..m];
    }
  }

  /** A visible entry outside the stamped manifest was added by some call, and has stayed. */
  ghost predicate ExplainsStale(sha: Blob -> string, d: Disk, calls: seq<Call>, k: string) {
    var x := RunAll(sha, d, calls);
    Visible(Key(k)) && Get(x, k).Some? && x.stamp.Some? && k !in KeysOf(x.stamp.value.skills) ==>
      exists n: nat :: AddedForGood(sha, d, calls, n, k)
  }

  lemma StepExplains(sha: Blob -> string, d: Disk, calls: seq<Call>, k: string)
    requires calls != []
    requires var n := |calls| - 1;
             && StepOk(RunAll(sha, d, calls[..n]), RunAll(sha, d, calls), calls[n], k)
             && ExplainsStale(sha, d, calls[..n], k)
    ensures ExplainsStale(sha, d, calls, k)
  {
    var n := |calls| - 1;
    var mid, x := RunAll(sha, d, calls[..n]), RunAll(sha, d, calls);
    if Visible(Key(k)) && Get(x, k).Some? && x.stamp.Some? && k !in KeysOf(x.stamp.value.skills) {
      var fewer := calls[..n];
      if Get(mid, k).Some? {
        var i: nat :| AddedForGood(sha, d, fewer, i, k);
        AddedSnoc(sha, d, calls, i, k);
      } else {
        assert calls[..|calls|] == calls;
        assert AddedForGood(sha, d, calls, n, k);
      }
    }
  }

  lemma {:induction false} StaleExplained(sha: Blob -> string, d: Disk, calls: seq<Call>, k: string)
    requires Tidy(d) && PlainRun(sha, d, calls)
    ensures StampOk(RunAll(sha, d, calls)) && ExplainsStale(sha, d, calls, k)
    decreases |calls|
  {
    if calls != [] {
      var n := |calls| - 1;
      StaleExplained(sha, d, calls[..n], k);
      ConvergeStep(sha, RunAll(sha, d, calls[..n]), calls[n], k);
      StepExplains(sha, d, calls, k);
    }
  }

  lemma HitKeys(x: Disk, skills: seq<Skill>)
    requires StampOk(x) && AllPlain(skills) && Hit(x, skills)
    ensures KeysOf(skills) == KeysOf(x.stamp.value.skills)
  {
    FingerprintIdentifies(skills, x.stamp.value.skills);
    SameMembers(skills, x.stamp.value.skills);
  }

  /** `k` is a visible key outside `keys` that some call added for good. */
  ghost predicate AddedOutside(sha: Blob -> string, d: Disk, calls: seq<Call>, keys: set<string>, k: string) {
    Visible(Key(k)) && k !in keys && exists n: nat :: AddedForGood(sha, d, calls, n, k)
  }

  lemma StaleIffAdded(sha: Blob -> string, d: Disk, calls: seq<Call>, keys: set<string>, k: string)
    requires ExplainsStale(sha, d, calls, k)
    requires RunAll(sha, d, calls).stamp.Some? && KeysOf(RunAll(sha, d, calls).stamp.value.skills) == keys
    ensures Stale(RunAll(sha, d, calls), keys, Key(k)) <==> AddedOutside(sha, d, calls, keys, k)
  {
    assert calls[..|calls|] == calls;
    if AddedOutside(sha, d, calls, keys, k) {
      var n: nat :| AddedForGood(sha, d, calls, n, k);
      assert Present(sha, d, calls, |calls|, k);
    }
  }

  /**
    Over every run of calls that starts tidy, whatever pruned, was guarded or failed: a hit
    leaves the entry under a key stale if and only if the key is visible, the hit manifest
    does not list it, some call added it, and no later call removed it.
  */
  lemma StaleAfterHitIff(sha: Blob -> string, d: Disk, calls: seq<Call>, skills: seq<Skill>, k: string)
    requires Tidy(d) && PlainRun(sha, d, calls) && AllPlain(skills) && Hit(RunAll(sha, d, calls), skills)
    ensures Stale(RunAll(sha, d, calls), KeysOf(skills), Key(k)) <==> AddedOutside(sha, d, calls, KeysOf(skills), k)
  {
    StaleExplained(sha, d, calls, k);
    HitKeys(RunAll(sha, d, calls), skills);
    StaleIffAdded(sha, d, calls, KeysOf(skills), k);
  }

  /**
    What breaks it: a successful call that may not prune adds a skill under an older
    stamp. The old manifest still hits, and the hit leaves the added skill behind.
  */
  lemma GuardedCallLeavesStaleSkill(sha: Blob -> string, d: Disk, c: Call, skills: seq<Skill>)
    requires c.Aligned() && !c.Prunes() && Consistent(c.skills) && Converge(sha, d, c).ok && !Hit(d, c.skills)
    requires Hit(d, skills) && |c.skills| == |skills| + 1 && c.skills[..|skills|] == skills
    requires var s := c.skills[|skills|]; s.key !in KeysOf(skills) && Visible(Key(s.key))
    ensures var x := LastOf(d, Converge(sha, d, c).trail);
            Hit(x, skills) && Stale(x, KeysOf(skills), Key(c.skills[|skills|].key))
  {
    MaterializeAllEnds(sha, d, c.skills, c.envs);
    ConsistentMarkers(sha, d, c.skills, c.envs);
    var x := LastOf(d, Converge(sha, d, c).trail);
    forall i | 0 <= i < |skills| ensures MarkerMatches(x, skills[i]) { assert skills[i] == c.skills[i]; }
  }
}
