/** Which paths the janitor can reach at all, and what that means for project directories. */
module JanitorPaths {
  import opened Wrappers
  import opened Recency
  import opened Janitor

  const RESERVED: set<string> := {"workspaces", "chat", "repos", "employees"}

  /** The groups of directories that are swept, each listed from below the base directory. */
  datatype Kind = Tasks(project: string) | Chats(project: string) | Sessions(workspace: Path)

  /** A directory whose session outputs are capped: a project, a chat thread or a task attempt. */
  predicate IsWorkspace(w: Path) {
    || (|w| == 1 && w[0] !in RESERVED && !("." <= w[0]))
    || (|w| == 3 && w[0] == "chat")
    || (|w| == 4 && w[0] == "workspaces")
  }

  predicate Reachable(kind: Kind, path: Path) {
    match kind
    case Tasks(project) => |path| == 4 && path[..2] == ["workspaces", project]
    case Chats(project) => |path| == 3 && path[..2] == ["chat", project]
    case Sessions(w) => IsWorkspace(w) && |path| == |w| + 3 && path[..|w| + 2] == w + [".superteam", "sessions"]
  }

  /** The directory whose emptied children may go with a removed path. */
  function ParentOf(kind: Kind): Option<Path> {
    if kind.Tasks? then Some(["workspaces", kind.project]) else None
  }

  /** An output of some session of the project directory `name`. */
  predicate SessionOutput(name: string, e: Path) {
    |e| >= 4 && e[0] == name && e[1] == ".superteam" && e[2] == "sessions"
  }

  /** Reaching into a project directory that is not named like the janitor's own trees hits only session outputs. */
  lemma ReachIntoProject(kind: Kind, path: Path, e: Path, name: string)
    requires Reachable(kind, path) && name != "workspaces" && name != "chat"
    requires Excuse(path, e, ParentOf(kind))
    requires e != [] && e[0] == name
    ensures SessionOutput(name, e)
  {
    if kind.Sessions? {
      var w := kind.workspace;
      var head := path[..|w| + 2];
      assert path == e[..|path|];
      assert e[0] == head[0] == w[0];
      assert head[1] == e[1] && head[2] == e[2];
    }
  }

  /**
    Exactly the names `workspaces` and `chat` are exposed: for them, and for no other
    name, some group reaches a path inside the directory that is no session output of it.
  */
  lemma ExposedNames(name: string)
    ensures (exists kind: Kind, path: Path :: Reachable(kind, path) && [name] <= path && !SessionOutput(name, path))
            <==> name == "workspaces" || name == "chat"
  {
    if name == "workspaces" {
      var path := ["workspaces", "p", "t", "a"];
      assert path[..2] == ["workspaces", "p"];
      assert Reachable(Tasks("p"), path) && [name] <= path && !SessionOutput(name, path);
    } else if name == "chat" {
      var path := ["chat", "p", "t"];
      assert path[..2] == ["chat", "p"];
      assert Reachable(Chats("p"), path) && [name] <= path && !SessionOutput(name, path);
    } else {
      forall kind: Kind, path: Path | Reachable(kind, path) && [name] <= path ensures SessionOutput(name, path) {
        ReachIntoProject(kind, path, path, name);
      }
    }
  }

  // ---------------------------------------------------------------------------
  // Project names
  // ---------------------------------------------------------------------------

  predicate IsAlnum(c: char) { 'a' <= c <= 'z' || 'A' <= c <= 'Z' || '0' <= c <= '9' }

  /** `validate_project_directory_name`, on the characters of the name. */
  predicate ValidProjectName(name: string) {
    && 0 < |name| <= 64
    && (forall i :: 0 <= i < |name| ==> IsAlnum(name[i]) || name[i] == '.' || name[i] == '_' || name[i] == '-')
    && IsAlnum(name[0]) && IsAlnum(name[|name| - 1])
  }

  /** A valid name is an ordinary session workspace unless it is reserved, and reserved names are valid. */
  lemma ValidNames(name: string)
    ensures ValidProjectName(name) ==>
              (IsWorkspace([name]) <==> name !in {"workspaces", "chat", "repos", "employees"})
    ensures name in {"workspaces", "chat", "repos", "employees"} ==> ValidProjectName(name)
  {
    if name in RESERVED {
      if name == "workspaces" {
      } else if name == "chat" {
      } else if name == "repos" {
      } else {
        assert name == "employees";
      }
    }
  }

  // ---------------------------------------------------------------------------
  // The whole sweep
  // ---------------------------------------------------------------------------

  datatype Config = Config(maxWorkspaces: nat, chatTtl: nat, chatMax: nat, maxSessions: nat)

  /**
    Everything a sweep looks at besides the entries: which paths are directories, when each
    was last active, in which order a listing yields them, what running work uses, and what
    cannot be removed.
  */
  datatype Scan = Scan(
    config: Config, now: int, active: set<Path>, stuck: set<Path>,
    dirs: set<Path>, activity: Path -> int, place: Path -> nat)

  ghost predicate Orderly(scan: Scan) {
    forall p, q :: scan.place(p) == scan.place(q) ==> p == q
  }

  function ItemOf(scan: Scan, path: Path): Item { Timed(path, scan.activity(path), scan.place(path)) }

  /** What is gone is deep enough, and inside a safely named directory a session output. */
  ghost predicate Spared(before: set<Path>, after: set<Path>) {
    forall e :: e in before && e !in after ==>
      |e| >= 3 && (e[0] != "workspaces" && e[0] != "chat" ==> SessionOutput(e[0], e))
  }

  /** The rule a group is swept by. */
  function RuleOf(kind: Kind, scan: Scan): Rule {
    match kind
    case Tasks(_) => Rule(scan.config.maxWorkspaces, None, 0, scan.active, false)
    case Chats(_) => Rule(scan.config.chatMax, Some(scan.config.chatTtl), scan.now, scan.active, false)
    case Sessions(w) => Rule(scan.config.maxSessions, None, 0, {}, w in scan.active)
  }

  // ---------------------------------------------------------------------------
  // Listing
  // ---------------------------------------------------------------------------

  /** Distinct directories of the group, each with its activity and its place. */
  ghost predicate Shaped(scan: Scan, kind: Kind, items: seq<Item>) {
    && Listing(items)
    && forall x :: x in items ==> Reachable(kind, x.value) && x.value in scan.dirs && x == ItemOf(scan, x.value)
  }

  /** Every directory of the group among `entries` is listed. */
  ghost predicate Covers(entries: set<Path>, scan: Scan, kind: Kind, items: seq<Item>) {
    forall p :: p in entries && p in scan.dirs && Reachable(kind, p) ==> ItemOf(scan, p) in items
  }

  /** `list_dirs` and `last_activity` over one group. */
  method ListItems(entries: set<Path>, kind: Kind, scan: Scan) returns (items: seq<Item>)
    requires Orderly(scan)
    ensures Shaped(scan, kind, items) && Covers(entries, scan, kind, items) && AllAmong(items, entries)
  {
    items := [];
    var todo := set p | p in entries && p in scan.dirs && Reachable(kind, p);
    while todo != {}
      invariant forall p :: p in todo ==> p in entries && p in scan.dirs && Reachable(kind, p)
      invariant Shaped(scan, kind, items) && AllAmong(items, entries)
      invariant forall p :: p in entries && p in scan.dirs && Reachable(kind, p) ==>
                  p in todo || ItemOf(scan, p) in items
      invariant forall x :: x in items ==> x.value !in todo
    {
      var p :| p in todo;
      ghost var before := items;
      assert forall x :: x in before ==> x.value != p && x.order == scan.place(x.value);
      items := items + [ItemOf(scan, p)];
      todo := todo - {p};
    }
  }

  // ---------------------------------------------------------------------------
  // Sweeping
  // ---------------------------------------------------------------------------

  /** What one group was listed as, and what of it was removed. */
  datatype Round = Round(kind: Kind, items: seq<Item>, removed: seq<Item>)

  /** Exactly what the rule dooms was removed, and is not there any more unless stuck; what is there was listed. */
  ghost predicate Swept(r: Round, scan: Scan, entries: set<Path>) {
    && Shaped(scan, r.kind, r.items) && Covers(entries, scan, r.kind, r.items)
    && (forall x :: x in r.removed <==> x in r.items && Doomed(RuleOf(r.kind, scan), r.items, x))
    && Cleared(entries, r.removed, scan.stuck)
  }

  /** Later removals do not undo what a round did. */
  lemma SweptOn(r: Round, scan: Scan, entries: set<Path>, fewer: set<Path>)
    requires Swept(r, scan, entries) && fewer <= entries
    ensures Swept(r, scan, fewer)
  {
  }

  lemma GroupSpares(kind: Kind, scan: Scan, items: seq<Item>, before: set<Path>, after: set<Path>, removed: seq<Item>)
    requires Shaped(scan, kind, items) && forall x :: x in removed ==> x in items
    requires Explained(before, after, removed, ParentOf(kind))
    ensures Spared(before, after)
  {
    forall e | e in before && e !in after
      ensures |e| >= 3 && (e[0] != "workspaces" && e[0] != "chat" ==> SessionOutput(e[0], e))
    {
      var x :| x in removed && Excuse(x.value, e, ParentOf(kind));
      assert Reachable(kind, x.value);
      if e[0] != "workspaces" && e[0] != "chat" { ReachIntoProject(kind, x.value, e, e[0]); }
    }
  }

  /** One group, whatever its kind: listed from the entries, then swept. */
  method SweepGroup(base: BaseDir, kind: Kind, scan: Scan) returns (r: Round)
    requires Orderly(scan)
    modifies base
    ensures r.kind == kind && Swept(r, scan, base.entries) && AllAmong(r.items, old(base.entries))
    ensures base.entries <= old(base.entries) && Spared(old(base.entries), base.entries)
    ensures AllStuck(r.removed, scan.stuck) ==> base.entries == old(base.entries)
  {
    var items := ListItems(base.entries, kind, scan);
    assert forall i :: 0 <= i < |items| ==> items[i] in items;
    var removed: seq<Item>;
    match kind {
      case Tasks(project) =>
        removed := base.SweepTasks(["workspaces", project], items, scan.config.maxWorkspaces, scan.active, scan.stuck);
      case Chats(project) =>
        removed := base.SweepChats(items, scan.config.chatMax, scan.config.chatTtl, scan.now, scan.active, scan.stuck);
      case Sessions(w) =>
        removed := base.SweepSessions(items, scan.config.maxSessions, w in scan.active, scan.stuck);
    }
    GroupSpares(kind, scan, items, old(base.entries), base.entries, removed);
    r := Round(kind, items, removed);
  }

  /** The rounds of a whole sweep, seen from its end. */
  ghost predicate AllSwept(kinds: seq<Kind>, rounds: seq<Round>, scan: Scan, entries: set<Path>)
    requires |rounds| == |kinds|
  {
    kinds == [] ||
    var n := |kinds| - 1;
    && rounds[n].kind == kinds[n] && Swept(rounds[n], scan, entries)
    && AllSwept(kinds[..n], rounds[..n], scan, entries)
  }

  lemma {:induction false} AllSweptOn(
    kinds: seq<Kind>, rounds: seq<Round>, scan: Scan, entries: set<Path>, fewer: set<Path>)
    requires |rounds| == |kinds| && AllSwept(kinds, rounds, scan, entries) && fewer <= entries
    ensures AllSwept(kinds, rounds, scan, fewer)
    decreases |kinds|
  {
    if kinds != [] {
      var n := |kinds| - 1;
      SweptOn(rounds[n], scan, entries, fewer);
      AllSweptOn(kinds[..n], rounds[..n], scan, entries, fewer);
    }
  }

  lemma AllSweptSnoc(kinds: seq<Kind>, n: nat, rounds: seq<Round>, r: Round, scan: Scan, entries: set<Path>)
    requires |rounds| == n < |kinds| && AllSwept(kinds[..n], rounds, scan, entries)
    requires r.kind == kinds[n] && Swept(r, scan, entries)
    ensures AllSwept(kinds[..n + 1], rounds + [r], scan, entries)
  {
    assert kinds[..n + 1][..n] == kinds[..n] && (rounds + [r])[..n] == rounds;
  }

  lemma {:induction false} SweptAt(kinds: seq<Kind>, rounds: seq<Round>, scan: Scan, entries: set<Path>, i: nat)
    requires |rounds| == |kinds| && AllSwept(kinds, rounds, scan, entries) && i < |kinds|
    ensures rounds[i].kind == kinds[i] && Swept(rounds[i], scan, entries)
    decreases |kinds|
  {
    var n := |kinds| - 1;
    if i < n { SweptAt(kinds[..n], rounds[..n], scan, entries, i); }
  }

  lemma SparedOn(first: set<Path>, before: set<Path>, after: set<Path>)
    requires Spared(first, before) && Spared(before, after)
    ensures Spared(first, after)
  {
  }

  ghost predicate ListedAmong(rounds: seq<Round>, entries: set<Path>) {
    forall i :: 0 <= i < |rounds| ==> AllAmong(rounds[i].items, entries)
  }

  ghost predicate OnlyStuck(rounds: seq<Round>, stuck: set<Path>) {
    forall i :: 0 <= i < |rounds| ==> AllStuck(rounds[i].removed, stuck)
  }

  /** What a sweep over `kinds` that started from `first` has done to the entries. */
  ghost predicate SweptFrom(first: set<Path>, entries: set<Path>, kinds: seq<Kind>, rounds: seq<Round>, scan: Scan) {
    && |rounds| == |kinds| && AllSwept(kinds, rounds, scan, entries) && ListedAmong(rounds, first)
    && entries <= first && Spared(first, entries)
    && (OnlyStuck(rounds, scan.stuck) ==> entries == first)
  }

  lemma SweptFromOn(
    first: set<Path>, before: set<Path>, after: set<Path>, kinds: seq<Kind>, rounds: seq<Round>, r: Round, scan: Scan)
    requires |rounds| < |kinds| && SweptFrom(first, before, kinds[..|rounds|], rounds, scan)
    requires r.kind == kinds[|rounds|] && Swept(r, scan, after) && AllAmong(r.items, before)
    requires after <= before && Spared(before, after) && (AllStuck(r.removed, scan.stuck) ==> after == before)
    ensures SweptFrom(first, after, kinds[..|rounds| + 1], rounds + [r], scan)
  {
    var n, all := |rounds|, rounds + [r];
    SparedOn(first, before, after);
    AllSweptOn(kinds[..n], rounds, scan, before, after);
    AllSweptSnoc(kinds, n, rounds, r, scan, after);
    assert all[n] == r && forall i :: 0 <= i < n ==> all[i] == rounds[i];
    if OnlyStuck(all, scan.stuck) { assert OnlyStuck(rounds, scan.stuck); }
  }

  /**
    `sweep`: all groups in order, each listed when its turn comes. Each loses exactly what its
    rule dooms, and whatever is gone afterwards, a safely named project lost only session outputs.
  */
  method Sweep(base: BaseDir, kinds: seq<Kind>, scan: Scan) returns (rounds: seq<Round>)
    requires Orderly(scan)
    modifies base
    ensures SweptFrom(old(base.entries), base.entries, kinds, rounds, scan)
  {
    rounds := [];
    for n := 0 to |kinds|
      invariant |rounds| == n && SweptFrom(old(base.entries), base.entries, kinds[..n], rounds, scan)
    {
      ghost var before := base.entries;
      var r := SweepGroup(base, kinds[n], scan);
      SweptFromOn(old(base.entries), before, base.entries, kinds, rounds, r, scan);
      rounds := rounds + [r];
    }
    assert kinds[..|kinds|] == kinds;
  }

  /**
    What a group loses, by its kind: task attempts neither active nor among the newest of their
    project; chat threads not active that are old or not among the newest; session outputs of
    a workspace that is not active, unless among its newest.
  */
  lemma SweptMeans(r: Round, scan: Scan, entries: set<Path>, x: Item)
    requires Swept(r, scan, entries) && x in r.items
    ensures r.kind.Tasks? ==>
              (x in r.removed <==> x.value !in scan.active && x !in Newest(r.items, scan.config.maxWorkspaces))
    ensures r.kind.Chats? ==>
              (x in r.removed <==>
               && x.value !in scan.active
               && (x !in Newest(r.items, scan.config.chatMax)
                   || (x.activity <= scan.now && x.activity + scan.config.chatTtl <= scan.now)))
    ensures r.kind.Sessions? ==>
              (x in r.removed <==>
               r.kind.workspace !in scan.active && x !in Newest(r.items, scan.config.maxSessions))
  {
    DoomedMeans(RuleOf(r.kind, scan), r.items, x);
  }

  // ---------------------------------------------------------------------------
  // Sweeping again
  // ---------------------------------------------------------------------------

  /** Of what a sweep left, with activity and order unchanged, its rule dooms only what could not be removed. */
  lemma SecondRoundRemovesOnlyStuck(first: Round, second: Round, scan: Scan, between: set<Path>, after: set<Path>)
    requires first.kind == second.kind && Swept(first, scan, between) && Swept(second, scan, after)
    requires AllAmong(second.items, between)
    ensures AllStuck(second.removed, scan.stuck)
  {
    forall x | x in second.removed ensures x.value in scan.stuck {
      assert forall y :: y in second.items ==> y.value in between && y in first.items;
      RankSubset(second.items, first.items, x);
      assert x in first.removed;
      assert x.value <= x.value;
    }
  }

  /** Two sweeps in a row: the second finds only what could not be removed, and changes nothing. */
  method SweepTwice(base: BaseDir, kinds: seq<Kind>, scan: Scan)
    returns (first: seq<Round>, second: seq<Round>, ghost between: set<Path>)
    requires Orderly(scan)
    modifies base
    ensures |first| == |second| == |kinds| && AllSwept(kinds, first, scan, between)
    ensures OnlyStuck(second, scan.stuck) && base.entries == between
  {
    first := Sweep(base, kinds, scan);
    between := base.entries;
    second := Sweep(base, kinds, scan);
    forall i | 0 <= i < |kinds| ensures AllStuck(second[i].removed, scan.stuck) {
      SweptAt(kinds, first, scan, between, i);
      SweptAt(kinds, second, scan, base.entries, i);
      SecondRoundRemovesOnlyStuck(first[i], second[i], scan, between, base.entries);
    }
  }

  // ---------------------------------------------------------------------------
  // Cleanup when a run ends
  // ---------------------------------------------------------------------------

  /** `task_attempt_project`: only `workspaces/{project}/{task}/{attempt}` qualifies. */
  function TaskAttemptProject(path: Path): Option<string> {
    if |path| == 4 && path[0] == "workspaces"
       && (forall i :: 1 <= i < 4 ==> path[i] != "" && path[i] != "." && path[i] != "..")
    then Some(path[1])
    else None
  }

  /**
    `plan` followed by `apply`, on a trimmed and lower-cased policy: takes a task attempt or
    nothing, and so nothing at all from a project directory with a safe name.
  */
  method EndRun(base: BaseDir, policy: string, path: Path, succeeded: bool, stuck: set<Path>)
    modifies base
    ensures Spared(old(base.entries), base.entries)
    ensures forall e :: e in old(base.entries) && (e == [] || e[0] != "workspaces") ==> e in base.entries
    ensures path in old(base.entries) && path !in base.entries <==>
            && path in old(base.entries) && path !in stuck && |path| == 4 && path[0] == "workspaces"
            && (forall i :: 1 <= i < 4 ==> path[i] !in {"", ".", ".."})
            && (policy == "always" || (policy == "on_success" && succeeded))
  {
    if policy == "never" || policy == "" { return; }
    if TaskAttemptProject(path).None? { return; }
    if policy == "always" || (policy == "on_success" && succeeded) { base.RemoveDir(path, stuck); }
  }
}
