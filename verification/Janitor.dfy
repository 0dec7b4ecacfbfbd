/**
  The workspace janitor: per group of directories it keeps the most recently active
  ones up to a cap, spares what running work uses, and removes the rest.
*/
module Janitor {
  import opened Wrappers

  import opened Recency

  type Path = seq<string>

  /** A listed directory with its last activity. */
  type Item = Timed<Path>

  /** The listing a group is swept from: places are distinct, and so are paths. */
  ghost predicate Listing(items: seq<Item>) {
    DistinctPlaces(items) && forall i, j :: 0 <= i < j < |items| ==> items[i].value != items[j].value
  }

  // ---------------------------------------------------------------------------
  // Who goes
  // ---------------------------------------------------------------------------

  /**
    One sweep rule. Task workspaces spare active paths; chat threads also expire; session
    trees are suspended as a whole while their workspace is active.
  */
  datatype Rule = Rule(cap: nat, ttl: Option<nat>, now: int, spared: set<Path>, suspended: bool)

  predicate Expired(rule: Rule, x: Item) {
    rule.ttl.Some? && x.activity <= rule.now && rule.now - x.activity >= rule.ttl.value
  }

  predicate Doomed(rule: Rule, items: seq<Item>, x: Item) {
    !rule.suspended && x.value !in rule.spared && (Expired(rule, x) || Rank(items, x) >= rule.cap)
  }

  /** The items that stay, in listing order. */
  function Kept(rule: Rule, all: seq<Item>, items: seq<Item>): seq<Item> {
    if items == [] then []
    else (if Doomed(rule, all, items[0]) then [] else [items[0]]) + Kept(rule, all, items[1..])
  }

  lemma {:induction false} KeptFacts(rule: Rule, all: seq<Item>, items: seq<Item>, y: Item)
    ensures y in Kept(rule, all, items) <==> y in items && !Doomed(rule, all, y)
    ensures Rank(Kept(rule, all, items), y) <= Rank(items, y)
  {
    if items != [] {
      KeptFacts(rule, all, items[1..], y);
      var rest := Kept(rule, all, items[1..]);
      assert items == [items[0]] + items[1..];
      if Doomed(rule, all, items[0]) { assert [] + rest == rest; } else { assert ([items[0]] + rest)[1..] == rest; }
    }
  }

  /** Nothing that is removed is more recent than something kept for its rank. */
  lemma KeepsTheMostRecent(rule: Rule, items: seq<Item>, x: Item, y: Item)
    requires Listing(items) && x in items && y in items
    requires Doomed(rule, items, x) && !Expired(rule, x) && Rank(items, y) < rule.cap
    ensures y.activity >= x.activity
  {
    if x.activity > y.activity { RankMonotone(items, x, y); assert false; }
  }

  /** A second sweep of what was kept, with activity and listing unchanged, removes nothing. */
  lemma SecondSweepRemovesNothing(rule: Rule, items: seq<Item>, y: Item)
    requires y in Kept(rule, items, items)
    ensures !Doomed(rule, Kept(rule, items, items), y)
  {
    KeptFacts(rule, items, items, y);
  }

  // ---------------------------------------------------------------------------
  // The sweeps
  // ---------------------------------------------------------------------------

  /** Nothing is left at or below a removed path, unless its removal got stuck. */
  ghost predicate Cleared(entries: set<Path>, removed: seq<Item>, stuck: set<Path>) {
    forall x, e :: x in removed && x.value !in stuck && e in entries ==> !(x.value <= e)
  }

  /** Every entry that is gone lay at or below a removed path, or was its emptied parent below `project`. */
  ghost predicate Explained(before: set<Path>, entries: set<Path>, removed: seq<Item>, project: Option<Path>) {
    && entries <= before
    && forall e :: e in before && e !in entries ==> exists x :: x in removed && Excuse(x.value, e, project)
  }

  predicate Excuse(path: Path, e: Path, project: Option<Path>) {
    path <= e || (project.Some? && path != [] && e == path[..|path| - 1] && e != project.value)
  }

  ghost predicate AllStuck(removed: seq<Item>, stuck: set<Path>) { forall x :: x in removed ==> x.value in stuck }

  ghost predicate AllAmong(items: seq<Item>, entries: set<Path>) { forall x :: x in items ==> x.value in entries }

  /** How far a sweep that started from `first` has come; with only stuck items it has changed nothing. */
  ghost predicate Progress(
    first: set<Path>, entries: set<Path>, removed: seq<Item>, project: Option<Path>, stuck: set<Path>)
  {
    && Cleared(entries, removed, stuck) && Explained(first, entries, removed, project)
    && (AllStuck(removed, stuck) && AllAmong(removed, first) ==> entries == first)
  }

  lemma RemovalExplained(
    first: set<Path>, entries: set<Path>, after: set<Path>, removed: seq<Item>, item: Item, project: Option<Path>)
    requires Explained(first, entries, removed, project)
    requires after <= entries && forall e :: e in entries && e !in after ==> Excuse(item.value, e, project)
    ensures Explained(first, after, removed + [item], project)
  {
    forall e | e in first && e !in after ensures exists x :: x in removed + [item] && Excuse(x.value, e, project) {
      if e in entries {
        assert item in removed + [item];
      } else {
        var x :| x in removed && Excuse(x.value, e, project);
        assert x in removed + [item];
      }
    }
  }

  lemma ProgressOn(
    first: set<Path>, entries: set<Path>, after: set<Path>, removed: seq<Item>, item: Item, project: Option<Path>,
    stuck: set<Path>)
    requires Progress(first, entries, removed, project, stuck)
    requires after <= entries && forall e :: e in entries && e !in after ==> Excuse(item.value, e, project)
    requires item.value in stuck || forall e :: e in after ==> !(item.value <= e)
    requires item.value in stuck && item.value in entries ==> after == entries
    ensures Progress(first, after, removed + [item], project, stuck)
  {
    RemovalExplained(first, entries, after, removed, item, project);
    var all := removed + [item];
    assert item in all && forall x :: x in removed ==> x in all;
  }

  /** The first `cap` items, newest first. */
  function Newest(items: seq<Item>, cap: nat): seq<Item> {
    if |NewestFirst(items)| <= cap then NewestFirst(items) else NewestFirst(items)[..cap]
  }

  /** Ranks below the cap are the newest items. */
  lemma RankIsNewest(items: seq<Item>, cap: nat, x: Item)
    requires Listing(items) && x in items
    ensures Rank(items, x) < cap <==> x in Newest(items, cap)
  {
    var sorted := NewestFirst(items);
    SortDescending(items);
    SortFacts(items, x);
    if x in Newest(items, cap) {
      var q :| 0 <= q < |Newest(items, cap)| && Newest(items, cap)[q] == x;
      RankIsPosition(sorted, q);
    }
    if Rank(items, x) < cap {
      var p :| 0 <= p < |sorted| && sorted[p] == x;
      RankIsPosition(sorted, p);
      assert Newest(items, cap)[p] == x;
    }
  }

  /**
    Who goes, said of the newest items: of a group that is not suspended, whatever is neither
    spared nor among the newest, and what has been idle for the time to live.
  */
  lemma DoomedMeans(rule: Rule, items: seq<Item>, x: Item)
    requires Listing(items) && x in items
    ensures Doomed(rule, items, x) <==>
            && !rule.suspended && x.value !in rule.spared
            && (x !in Newest(items, rule.cap)
                || (rule.ttl.Some? && x.activity <= rule.now && x.activity + rule.ttl.value <= rule.now))
  {
    RankIsNewest(items, rule.cap, x);
  }

  // ---------------------------------------------------------------------------
  // Judging a sorted listing
  // ---------------------------------------------------------------------------

  /** Of the first `i` sorted items exactly the doomed ones are removed. */
  ghost predicate Judged(rule: Rule, items: seq<Item>, sorted: seq<Item>, i: nat, removed: seq<Item>)
    requires i <= |sorted|
  {
    forall x :: x in removed <==> x in sorted[..i] && Doomed(rule, items, x)
  }

  /** The rank of a sorted item is its position, so its fate can be read off the index. */
  lemma SortedFate(rule: Rule, items: seq<Item>, i: nat)
    requires Listing(items) && i < |NewestFirst(items)|
    ensures var x := NewestFirst(items)[i];
            && x in items
            && (Doomed(rule, items, x) <==>
                !rule.suspended && x.value !in rule.spared && (Expired(rule, x) || i >= rule.cap))
  {
    SortDescending(items);
    RankIsPosition(NewestFirst(items), i);
    SortFacts(items, NewestFirst(items)[i]);
  }

  lemma JudgedOn(rule: Rule, items: seq<Item>, sorted: seq<Item>, i: nat, removed: seq<Item>)
    requires i < |sorted| && Judged(rule, items, sorted, i, removed)
    ensures var after := if Doomed(rule, items, sorted[i]) then removed + [sorted[i]] else removed;
            Judged(rule, items, sorted, i + 1, after)
  {
    PrefixGrows(sorted, i);
  }

  lemma JudgedAll(rule: Rule, items: seq<Item>, removed: seq<Item>)
    requires Judged(rule, items, NewestFirst(items), |NewestFirst(items)|, removed)
    ensures forall x :: x in removed <==> x in items && Doomed(rule, items, x)
  {
    var sorted := NewestFirst(items);
    assert sorted[..|sorted|] == sorted;
    forall x ensures x in sorted <==> x in items { SortFacts(items, x); }
  }

  /** Without an expiry, the first `cap` sorted items are never doomed. */
  lemma FirstRanksStay(rule: Rule, items: seq<Item>)
    requires Listing(items) && rule.ttl.None? && rule.cap <= |NewestFirst(items)|
    ensures Judged(rule, items, NewestFirst(items), rule.cap, [])
  {
    var sorted := NewestFirst(items);
    forall x | x in sorted[..rule.cap] ensures !Doomed(rule, items, x) {
      var i :| 0 <= i < rule.cap && sorted[..rule.cap][i] == x;
      SortedFate(rule, items, i);
    }
  }

  /** Nor is anything when all items fit the cap. */
  lemma AllFit(rule: Rule, items: seq<Item>)
    requires rule.ttl.None? && |items| <= rule.cap
    ensures forall x :: x in items ==> !Doomed(rule, items, x)
  {
    forall x | x in items ensures !Doomed(rule, items, x) { RankBelowLength(items, x); }
  }

  lemma SortedSize(items: seq<Item>)
    ensures |NewestFirst(items)| == |items|
  {
    if items != [] { SortFacts(items, items[0]); }
  }

  /** The entries of the base directory, as relative paths. */
  class BaseDir {
    var entries: set<Path>

    /** `remove_dir_all`, best effort: a stuck directory stays. */
    method RemoveDir(path: Path, stuck: set<Path>)
      modifies this
      ensures entries == if path in stuck then old(entries) else set e | e in old(entries) && !(path <= e)
    {
      if path !in stuck { entries := set e | e in entries && !(path <= e); }
    }

    /** `prune_empty_parent`: drops the task directory once it is empty. */
    method PruneEmptyParent(path: Path, project: Path)
      requires path != []
      modifies this
      ensures var parent := path[..|path| - 1];
              var empty := forall e :: e in old(entries) && parent <= e ==> e == parent;
              entries == if parent != project && empty then old(entries) - {parent} else old(entries)
      ensures forall e :: e in old(entries) && e !in entries ==> Excuse(path, e, Some(project))
    {
      var parent := path[..|path| - 1];
      if parent != project && !(exists e :: e in entries && parent <= e && e != parent) {
        entries := entries - {parent};
      }
    }

    /** Removes one item, and below a project also its task directory once that is empty. */
    method RemoveItem(
      item: Item, project: Option<Path>, stuck: set<Path>, ghost first: set<Path>, ghost removed: seq<Item>)
      requires item.value != [] && Progress(first, entries, removed, project, stuck)
      modifies this
      ensures Progress(first, entries, removed + [item], project, stuck)
    {
      ghost var before := entries;
      RemoveDir(item.value, stuck);
      if project.Some? {
        var parent := item.value[..|item.value| - 1];
        assert parent <= item.value && parent != item.value;
        PruneEmptyParent(item.value, project.value);
      }
      ProgressOn(first, before, entries, removed, item, project, stuck);
    }

    /** `sweep_task_workspaces` for one project: sort, skip the cap, spare the active. */
    method SweepTasks(project: Path, items: seq<Item>, cap: nat, active: set<Path>, stuck: set<Path>)
      returns (removed: seq<Item>)
      requires Listing(items) && forall i :: 0 <= i < |items| ==> items[i].value != []
      modifies this
      ensures forall x :: x in removed <==> x in items && Doomed(Rule(cap, None, 0, active, false), items, x)
      ensures Progress(old(entries), entries, removed, Some(project), stuck)
    {
      removed := [];
      ghost var rule := Rule(cap, None, 0, active, false);
      if |items| <= cap {
        AllFit(rule, items);
        return;
      }
      var sorted := NewestFirst(items);
      SortedSize(items);
      FirstRanksStay(rule, items);
      for i := cap to |sorted|
        invariant Judged(rule, items, sorted, i, removed)
        invariant Progress(old(entries), entries, removed, Some(project), stuck)
      {
        SortedFate(rule, items, i);
        JudgedOn(rule, items, sorted, i, removed);
        if sorted[i].value !in active {
          RemoveItem(sorted[i], Some(project), stuck, old(entries), removed);
          removed := removed + [sorted[i]];
        }
      }
      JudgedAll(rule, items, removed);
    }

    /** `sweep_chat_threads` for one project: every thread is judged by age and by rank. */
    method SweepChats(items: seq<Item>, cap: nat, ttl: nat, now: int, active: set<Path>, stuck: set<Path>)
      returns (removed: seq<Item>)
      requires Listing(items) && forall i :: 0 <= i < |items| ==> items[i].value != []
      modifies this
      ensures forall x :: x in removed <==> x in items && Doomed(Rule(cap, Some(ttl), now, active, false), items, x)
      ensures Progress(old(entries), entries, removed, None, stuck)
    {
      removed := [];
      ghost var rule := Rule(cap, Some(ttl), now, active, false);
      var sorted := NewestFirst(items);
      for index := 0 to |sorted|
        invariant Judged(rule, items, sorted, index, removed)
        invariant Progress(old(entries), entries, removed, None, stuck)
      {
        SortedFate(rule, items, index);
        JudgedOn(rule, items, sorted, index, removed);
        var item := sorted[index];
        if item.value !in active {
          var expired := item.activity <= now && now - item.activity >= ttl;
          var overCap := index >= cap;
          if expired || overCap {
            RemoveItem(item, None, stuck, old(entries), removed);
            removed := removed + [item];
          }
        }
      }
      JudgedAll(rule, items, removed);
    }

    /** `sweep_one_sessions_tree`. */
    method SweepSessions(items: seq<Item>, cap: nat, workspaceActive: bool, stuck: set<Path>)
      returns (removed: seq<Item>)
      requires Listing(items) && forall i :: 0 <= i < |items| ==> items[i].value != []
      modifies this
      ensures forall x :: x in removed <==> x in items && Doomed(Rule(cap, None, 0, {}, workspaceActive), items, x)
      ensures Progress(old(entries), entries, removed, None, stuck)
    {
      removed := [];
      ghost var rule := Rule(cap, None, 0, {}, workspaceActive);
      if workspaceActive { return; }
      if |items| <= cap {
        AllFit(rule, items);
        return;
      }
      var sorted := NewestFirst(items);
      SortedSize(items);
      FirstRanksStay(rule, items);
      for i := cap to |sorted|
        invariant Judged(rule, items, sorted, i, removed)
        invariant Progress(old(entries), entries, removed, None, stuck)
      {
        SortedFate(rule, items, i);
        JudgedOn(rule, items, sorted, i, removed);
        RemoveItem(sorted[i], None, stuck, old(entries), removed);
        removed := removed + [sorted[i]];
      }
      JudgedAll(rule, items, removed);
    }
  }
}
