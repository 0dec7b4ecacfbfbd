/**
  Collecting output files under caps: a file cap, a count cap and a total cap. Files
  are taken newest first; what is not taken is reported as skipped.
*/
module Collect {
  import opened Wrappers
  import opened Recency

  /** A candidate: its size when listed, and when read (None: the read failed). */
  datatype File = File(path: string, listed: nat, read: Option<nat>)

  type Candidate = Timed<File>

  datatype Caps = Caps(file: nat, count: nat, total: nat)

  datatype Reason = TooBig | CountReached | TotalReached | ReadFailed | GrewTooBig

  datatype Skip = Skip(file: Candidate, reason: Reason)

  datatype Collection = Collection(kept: seq<Candidate>, skipped: seq<Skip>)

  const EMPTY: Collection := Collection([], [])

  /** The bytes held by the kept files, as read. */
  function Held(kept: seq<Candidate>): nat {
    if kept == [] then 0
    else
      var f := kept[|kept| - 1].value;
      Held(kept[..|kept| - 1]) + (if f.read.Some? then f.read.value else 0)
  }

  function SkipFile(c: Collection, f: Candidate, reason: Reason): Collection {
    c.(skipped := c.skipped + [Skip(f, reason)])
  }

  /** One iteration: the checks in the order they are made. */
  function Take(caps: Caps, c: Collection, f: Candidate): Collection {
    if |c.kept| >= caps.count then SkipFile(c, f, CountReached)
    else if Held(c.kept) + f.value.listed > caps.total then SkipFile(c, f, TotalReached)
    else if f.value.read.None? then SkipFile(c, f, ReadFailed)
    else if f.value.read.value > caps.file then SkipFile(c, f, GrewTooBig)
    else c.(kept := c.kept + [f])
  }

  function TakeAll(caps: Caps, c: Collection, files: seq<Candidate>): Collection {
    if files == [] then c else Take(caps, TakeAll(caps, c, files[..|files| - 1]), files[|files| - 1])
  }

  /** The listing pass: files over the file cap are skipped at once, the others are eligible. */
  function Screen(caps: Caps, c: Collection, candidates: seq<Candidate>): (Collection, seq<Candidate>) {
    if candidates == [] then (c, [])
    else
      var n := |candidates| - 1;
      var (d, eligible) := Screen(caps, c, candidates[..n]);
      if candidates[n].value.listed > caps.file then (SkipFile(d, candidates[n], TooBig), eligible)
      else (d, eligible + [candidates[n]])
  }

  function CollectFrom(caps: Caps, c: Collection, candidates: seq<Candidate>): Collection {
    var (screened, eligible) := Screen(caps, c, candidates);
    TakeAll(caps, screened, NewestFirst(eligible))
  }

  // ---------------------------------------------------------------------------
  // What a collection guarantees
  // ---------------------------------------------------------------------------

  function SkippedFiles(skipped: seq<Skip>): multiset<Candidate> {
    if skipped == [] then multiset{}
    else SkippedFiles(skipped[..|skipped| - 1]) + multiset{skipped[|skipped| - 1].file}
  }

  /** All files accounted for, kept or skipped. */
  function Accounted(c: Collection): multiset<Candidate> { multiset(c.kept) + SkippedFiles(c.skipped) }

  predicate Stable(f: Candidate) { f.value.read.Some? ==> f.value.read.value == f.value.listed }

  /** A file skipped for a cap would not fit now either. */
  predicate Justified(caps: Caps, c: Collection, s: Skip) {
    match s.reason
    case CountReached => |c.kept| >= caps.count
    case TotalReached => Held(c.kept) + s.file.value.listed > caps.total
    case TooBig => s.file.value.listed > caps.file
    case ReadFailed => s.file.value.read.None?
    case GrewTooBig => s.file.value.read.Some? && s.file.value.read.value > caps.file
  }

  /** The invariant of the whole collection, across any number of roots. */
  ghost predicate Sound(caps: Caps, c: Collection) {
    && |c.kept| <= caps.count
    && (forall f :: f in c.kept ==>
          f.value.read.Some? && f.value.read.value <= caps.file && f.value.listed <= caps.file)
    && Held(c.kept) <= caps.total + caps.file
    && ((forall f :: f in c.kept ==> Stable(f)) ==> Held(c.kept) <= caps.total)
    && (forall s :: s in c.skipped ==> Justified(caps, c, s))
  }

  lemma SkipKeeps(caps: Caps, c: Collection, f: Candidate, reason: Reason)
    requires Sound(caps, c) && Justified(caps, c, Skip(f, reason))
    ensures Sound(caps, SkipFile(c, f, reason))
    ensures Accounted(SkipFile(c, f, reason)) == Accounted(c) + multiset{f}
  {
    var d := SkipFile(c, f, reason);
    assert d.skipped[..|d.skipped| - 1] == c.skipped;
    forall s | s in d.skipped ensures Justified(caps, d, s) { assert s in c.skipped || s == Skip(f, reason); }
  }

  lemma HeldSnoc(kept: seq<Candidate>, f: Candidate)
    requires f.value.read.Some?
    ensures Held(kept + [f]) == Held(kept) + f.value.read.value
  {
    assert (kept + [f])[..|kept|] == kept;
  }

  /** Keeping a file that passed all the checks. */
  lemma KeepKeeps(caps: Caps, c: Collection, f: Candidate)
    requires Sound(caps, c) && f.value.listed <= caps.file && |c.kept| < caps.count
    requires Held(c.kept) + f.value.listed <= caps.total && f.value.read.Some? && f.value.read.value <= caps.file
    ensures Sound(caps, c.(kept := c.kept + [f]))
  {
    var d := c.(kept := c.kept + [f]);
    HeldSnoc(c.kept, f);
    assert f in d.kept && forall g :: g in c.kept ==> g in d.kept;
    forall s | s in d.skipped ensures Justified(caps, d, s) { assert Justified(caps, c, s); }
  }

  lemma TakeKeeps(caps: Caps, c: Collection, f: Candidate)
    requires Sound(caps, c) && f.value.listed <= caps.file
    ensures Sound(caps, Take(caps, c, f))
    ensures Accounted(Take(caps, c, f)) == Accounted(c) + multiset{f}
  {
    if |c.kept| >= caps.count {
      SkipKeeps(caps, c, f, CountReached);
    } else if Held(c.kept) + f.value.listed > caps.total {
      SkipKeeps(caps, c, f, TotalReached);
    } else if f.value.read.None? {
      SkipKeeps(caps, c, f, ReadFailed);
    } else if f.value.read.value > caps.file {
      SkipKeeps(caps, c, f, GrewTooBig);
    } else {
      KeepKeeps(caps, c, f);
    }
  }

  lemma {:induction false} TakeAllKeeps(caps: Caps, c: Collection, files: seq<Candidate>)
    requires Sound(caps, c) && forall i :: 0 <= i < |files| ==> files[i].value.listed <= caps.file
    ensures Sound(caps, TakeAll(caps, c, files))
    ensures Accounted(TakeAll(caps, c, files)) == Accounted(c) + multiset(files)
    decreases |files|
  {
    if files != [] {
      var n := |files| - 1;
      TakeAllKeeps(caps, c, files[..n]);
      var d := TakeAll(caps, c, files[..n]);
      TakeKeeps(caps, d, files[n]);
      assert TakeAll(caps, c, files) == Take(caps, d, files[n]);
      assert multiset(files) == multiset(files[..n]) + multiset{files[n]} by {
        assert files == files[..n] + [files[n]];
      }
    }
  }

  lemma {:induction false} ScreenKeeps(caps: Caps, c: Collection, candidates: seq<Candidate>)
    requires Sound(caps, c)
    ensures var (d, eligible) := Screen(caps, c, candidates);
            Sound(caps, d) && forall i :: 0 <= i < |eligible| ==> eligible[i].value.listed <= caps.file
    decreases |candidates|
  {
    if candidates != [] {
      var n := |candidates| - 1;
      ScreenKeeps(caps, c, candidates[..n]);
      var (d, eligible) := Screen(caps, c, candidates[..n]);
      if candidates[n].value.listed > caps.file { SkipKeeps(caps, d, candidates[n], TooBig); }
    }
  }

  /** One more file on the right may join either summand on the left. */
  lemma OneMore<T>(a: multiset<T>, e: multiset<T>, b: multiset<T>, k: multiset<T>, x: T)
    requires a + e == b + k
    ensures (a + multiset{x}) + e == b + (k + multiset{x}) && a + (e + multiset{x}) == b + (k + multiset{x})
  {
    forall y ensures a[y] + e[y] == b[y] + k[y] { assert (a + e)[y] == (b + k)[y]; }
  }

  lemma {:induction false} ScreenAccounts(caps: Caps, c: Collection, candidates: seq<Candidate>)
    ensures var (d, eligible) := Screen(caps, c, candidates);
            Accounted(d) + multiset(eligible) == Accounted(c) + multiset(candidates)
    decreases |candidates|
  {
    if candidates != [] {
      var n := |candidates| - 1;
      var f := candidates[n];
      ScreenAccounts(caps, c, candidates[..n]);
      var (d, eligible) := Screen(caps, c, candidates[..n]);
      assert candidates == candidates[..n] + [f];
      OneMore(Accounted(d), multiset(eligible), Accounted(c), multiset(candidates[..n]), f);
      SkipAccounts(d, f, TooBig);
    }
  }

  lemma SkipAccounts(c: Collection, f: Candidate, reason: Reason)
    ensures Accounted(SkipFile(c, f, reason)) == Accounted(c) + multiset{f}
  {
    var d := SkipFile(c, f, reason);
    assert d.skipped[..|d.skipped| - 1] == c.skipped;
  }

  lemma EligibleSorted(caps: Caps, eligible: seq<Candidate>)
    requires forall i :: 0 <= i < |eligible| ==> eligible[i].value.listed <= caps.file
    ensures multiset(NewestFirst(eligible)) == multiset(eligible)
    ensures forall i :: 0 <= i < |NewestFirst(eligible)| ==> NewestFirst(eligible)[i].value.listed <= caps.file
  {
    if eligible != [] {
      SortFacts(eligible, eligible[0]);
      var sorted := NewestFirst(eligible);
      forall i | 0 <= i < |sorted| ensures sorted[i].value.listed <= caps.file {
        SortFacts(eligible, sorted[i]);
        var j :| 0 <= j < |eligible| && eligible[j] == sorted[i];
      }
    }
  }

  /**
    Collecting from one more root: every candidate ends up kept or skipped exactly once,
    the caps hold, and no skipped file would fit in the end.
  */
  lemma CollectKeeps(caps: Caps, c: Collection, candidates: seq<Candidate>)
    requires Sound(caps, c)
    ensures Sound(caps, CollectFrom(caps, c, candidates))
    ensures Accounted(CollectFrom(caps, c, candidates)) == Accounted(c) + multiset(candidates)
  {
    ScreenKeeps(caps, c, candidates);
    ScreenAccounts(caps, c, candidates);
    var (screened, eligible) := Screen(caps, c, candidates);
    EligibleSorted(caps, eligible);
    TakeAllKeeps(caps, screened, NewestFirst(eligible));
  }

  /** Two roots in sequence keep everything that one root keeps. */
  lemma BothRoots(caps: Caps, session: seq<Candidate>, legacy: seq<Candidate>)
    ensures var c := CollectFrom(caps, CollectFrom(caps, EMPTY, session), legacy);
            Sound(caps, c) && Accounted(c) == multiset(session) + multiset(legacy)
  {
    CollectKeeps(caps, EMPTY, session);
    CollectKeeps(caps, CollectFrom(caps, EMPTY, session), legacy);
  }

  /** What `d` added to `c` for the count cap is no newer than anything it kept. */
  ghost predicate CountCapIsFair(c: Collection, d: Collection) {
    && |c.kept| <= |d.kept| && |c.skipped| <= |d.skipped|
    && forall i, j ::
         |c.kept| <= i < |d.kept| && |c.skipped| <= j < |d.skipped| && d.skipped[j].reason == CountReached ==>
           d.kept[i].activity >= d.skipped[j].file.activity
  }

  ghost predicate KeptFrom(c: Collection, d: Collection, files: seq<Candidate>) {
    |c.kept| <= |d.kept| && forall i :: |c.kept| <= i < |d.kept| ==> d.kept[i] in files
  }

  lemma {:induction false} TakeAllFair(caps: Caps, c: Collection, files: seq<Candidate>)
    requires Sound(caps, c) && Descending(files) && forall i :: 0 <= i < |files| ==> files[i].value.listed <= caps.file
    ensures CountCapIsFair(c, TakeAll(caps, c, files)) && KeptFrom(c, TakeAll(caps, c, files), files)
    decreases |files|
  {
    if files != [] {
      var n := |files| - 1;
      TakeAllFair(caps, c, files[..n]);
      TakeAllKeeps(caps, c, files[..n]);
      TakeFair(caps, c, TakeAll(caps, c, files[..n]), files[..n], files[n]);
      assert files[..n] + [files[n]] == files;
    }
  }

  lemma TakeFair(caps: Caps, c: Collection, d: Collection, files: seq<Candidate>, f: Candidate)
    requires Sound(caps, d) && CountCapIsFair(c, d) && KeptFrom(c, d, files) && forall g :: g in files ==> Ahead(g, f)
    ensures CountCapIsFair(c, Take(caps, d, f)) && KeptFrom(c, Take(caps, d, f), files + [f])
  {
    var e := Take(caps, d, f);
    if |d.kept| < caps.count {
      forall j | |c.skipped| <= j < |d.skipped| ensures d.skipped[j].reason != CountReached {
        assert Justified(caps, d, d.skipped[j]);
      }
    }
    assert forall i :: |c.kept| <= i < |e.kept| ==> e.kept[i] in files + [f];
  }

  lemma {:induction false} ScreenSelects(caps: Caps, c: Collection, candidates: seq<Candidate>, y: Candidate)
    requires DistinctPlaces(candidates)
    ensures DistinctPlaces(Screen(caps, c, candidates).1)
    ensures y in Screen(caps, c, candidates).1 ==> y in candidates
    ensures forall j :: |c.skipped| <= j < |Screen(caps, c, candidates).0.skipped| ==>
              Screen(caps, c, candidates).0.skipped[j].reason == TooBig
    decreases |candidates|
  {
    if candidates != [] {
      var n := |candidates| - 1;
      ScreenSelects(caps, c, candidates[..n], y);
      ScreenGrows(caps, c, candidates[..n]);
      var eligible := Screen(caps, c, candidates[..n]).1;
      forall i | 0 <= i < |eligible| ensures eligible[i].order != candidates[n].order {
        ScreenSelects(caps, c, candidates[..n], eligible[i]);
        var k :| 0 <= k < n && candidates[..n][k] == eligible[i];
      }
    }
  }

  /** When the count cap bites, the most recent files of the root win. */
  lemma NewestWinCount(caps: Caps, c: Collection, candidates: seq<Candidate>)
    requires Sound(caps, c) && DistinctPlaces(candidates)
    ensures CountCapIsFair(c, CollectFrom(caps, c, candidates))
  {
    var (screened, eligible) := Screen(caps, c, candidates);
    ScreenKeeps(caps, c, candidates);
    ScreenGrows(caps, c, candidates);
    if eligible != [] {
      ScreenSelects(caps, c, candidates, eligible[0]);
      SortDescending(eligible);
      EligibleSorted(caps, eligible);
      TakeAllFair(caps, screened, NewestFirst(eligible));
      SkippedStay(caps, screened, NewestFirst(eligible));
    }
  }

  /** The newest file wins: a decision never depends on older files. */
  lemma {:induction false} OlderFilesDoNotMatter(
    caps: Caps, c: Collection, newer: seq<Candidate>, older: seq<Candidate>)
    ensures TakeAll(caps, c, newer).kept <= TakeAll(caps, c, newer + older).kept
    decreases |older|
  {
    var all := newer + older;
    if older == [] {
      assert all == newer;
    } else {
      var m := |older| - 1;
      assert all[..|all| - 1] == newer + older[..m];
      OlderFilesDoNotMatter(caps, c, newer, older[..m]);
    }
  }

  /** What growth costs: files that grow after they were listed can fill the total cap and a whole file cap besides. */
  lemma GrowthOvershoots(p: string, q: string)
    requires p != q
    ensures var caps := Caps(10, 2, 10);
            var f, g := Timed(File(p, 1, Some(10)), 2, 0), Timed(File(q, 0, Some(10)), 1, 1);
            var c := CollectFrom(caps, EMPTY, [f, g]);
            c.kept == [f, g] && Held(c.kept) == 20 == caps.total + caps.file
  {
    var caps := Caps(10, 2, 10);
    var f, g := Timed(File(p, 1, Some(10)), 2, 0), Timed(File(q, 0, Some(10)), 1, 1);
    var none: seq<Candidate> := [];
    assert [f, g][..1] == [f] && [f][..0] == none && none + [f] == [f] && [f] + [g] == [f, g];
    assert Screen(caps, EMPTY, [f]) == (EMPTY, [f]);
    assert Screen(caps, EMPTY, [f, g]) == (EMPTY, [f, g]);
    assert [f, g][1..] == [g] && [g][1..] == none;
    assert NewestFirst([g]) == Insert(g, none) == [g];
    assert NewestFirst([f, g]) == Insert(f, [g]) == [f, g];
    assert TakeAll(caps, EMPTY, none) == EMPTY;
    assert TakeAll(caps, EMPTY, [f]).kept == [f] && Held([f]) == 10;
    assert TakeAll(caps, EMPTY, [f, g]).kept == [f, g];
  }

  // ---------------------------------------------------------------------------
  // The loops
  // ---------------------------------------------------------------------------

  method ScreenCandidates(caps: Caps, c: Collection, candidates: seq<Candidate>)
    returns (d: Collection, eligible: seq<Candidate>)
    ensures (d, eligible) == Screen(caps, c, candidates)
  {
    d, eligible := c, [];
    for i := 0 to |candidates|
      invariant (d, eligible) == Screen(caps, c, candidates[..i])
    {
      assert candidates[..i + 1][..i] == candidates[..i];
      if candidates[i].value.listed > caps.file {
        d := SkipFile(d, candidates[i], TooBig);
      } else {
        eligible := eligible + [candidates[i]];
      }
    }
    assert candidates[..|candidates|] == candidates;
  }

  /** The selection loop over files sorted newest first, with its running total. */
  method TakeSorted(caps: Caps, start: Collection, sorted: seq<Candidate>) returns (c: Collection)
    ensures c == TakeAll(caps, start, sorted)
  {
    c := start;
    var total := Held(c.kept);
    for i := 0 to |sorted|
      invariant c == TakeAll(caps, start, sorted[..i]) && total == Held(c.kept)
    {
      assert sorted[..i + 1][..i] == sorted[..i];
      var f := sorted[i];
      if |c.kept| >= caps.count {
        c := SkipFile(c, f, CountReached);
      } else if total + f.value.listed > caps.total {
        c := SkipFile(c, f, TotalReached);
      } else if f.value.read.None? {
        c := SkipFile(c, f, ReadFailed);
      } else if f.value.read.value > caps.file {
        c := SkipFile(c, f, GrewTooBig);
      } else {
        total := total + f.value.read.value;
        ghost var before := c.kept;
        c := c.(kept := c.kept + [f]);
        assert c.kept[..|c.kept| - 1] == before;
      }
    }
    assert sorted[..|sorted|] == sorted;
  }

  /** `collect_attachments`, and `collect_from_declared_root` on top of an earlier collection. */
  method CollectRoot(caps: Caps, c0: Collection, candidates: seq<Candidate>) returns (c: Collection)
    requires Sound(caps, c0)
    ensures c == CollectFrom(caps, c0, candidates)
    ensures Sound(caps, c) && Accounted(c) == Accounted(c0) + multiset(candidates)
  {
    var screened, eligible := ScreenCandidates(caps, c0, candidates);
    c := TakeSorted(caps, screened, NewestFirst(eligible));
    CollectKeeps(caps, c0, candidates);
  }

  /** `collect_declared_deliverables`: the session root, then the legacy root, under one set of caps. */
  method CollectDeclared(caps: Caps, session: seq<Candidate>, legacy: seq<Candidate>)
    returns (c: Collection, legacyUsed: bool)
    ensures c == CollectFrom(caps, CollectFrom(caps, EMPTY, session), legacy)
    ensures Sound(caps, c) && Accounted(c) == multiset(session) + multiset(legacy)
    ensures legacyUsed <==> legacy != []
  {
    c := CollectRoot(caps, EMPTY, session);
    var kept, skipped := |c.kept|, |c.skipped|;
    ghost var first := c;
    c := CollectRoot(caps, c, legacy);
    legacyUsed := |c.kept| > kept || |c.skipped| > skipped;
    AccountedSize(c);
    AccountedSize(first);
    CollectGrows(caps, first, legacy);
  }

  lemma {:induction false} SkippedSize(skipped: seq<Skip>)
    ensures |SkippedFiles(skipped)| == |skipped|
  {
    if skipped != [] { SkippedSize(skipped[..|skipped| - 1]); }
  }

  lemma AccountedSize(c: Collection)
    ensures |Accounted(c)| == |c.kept| + |c.skipped|
  {
    SkippedSize(c.skipped);
  }

  lemma {:induction false} TakeAllGrows(caps: Caps, c: Collection, files: seq<Candidate>)
    ensures |TakeAll(caps, c, files).kept| >= |c.kept| && |TakeAll(caps, c, files).skipped| >= |c.skipped|
    decreases |files|
  {
    if files != [] { TakeAllGrows(caps, c, files[..|files| - 1]); }
  }

  lemma {:induction false} ScreenGrows(caps: Caps, c: Collection, files: seq<Candidate>)
    ensures Screen(caps, c, files).0.kept == c.kept && |Screen(caps, c, files).0.skipped| >= |c.skipped|
    decreases |files|
  {
    if files != [] { ScreenGrows(caps, c, files[..|files| - 1]); }
  }

  lemma {:induction false} SkippedStay(caps: Caps, c: Collection, files: seq<Candidate>)
    ensures c.skipped <= TakeAll(caps, c, files).skipped
    decreases |files|
  {
    if files != [] { SkippedStay(caps, c, files[..|files| - 1]); }
  }

  lemma CollectGrows(caps: Caps, c: Collection, files: seq<Candidate>)
    ensures |CollectFrom(caps, c, files).kept| >= |c.kept| && |CollectFrom(caps, c, files).skipped| >= |c.skipped|
  {
    ScreenGrows(caps, c, files);
    var (screened, eligible) := Screen(caps, c, files);
    TakeAllGrows(caps, screened, NewestFirst(eligible));
  }
}
