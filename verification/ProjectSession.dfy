/**
  Loading and unloading a command's capabilities in a stable project directory: skill
  links, projections in the command's own session directory, and a manifest.
*/
module ProjectSession {
  import opened Wrappers

  /** A skill of an employee home, the only kind of thing that is ever linked. */
  datatype Source = Source(home: string, rel: string, key: string)

  /** What stands at a skill path of the workspace: something of the project's own, or a link. */
  datatype Node = NativeDir | NativeFile | Link(source: Source)

  datatype Slot = Slot(rel: string, key: string)

  datatype Manifest = Good(provider: string, keys: seq<string>) | Unparsable

  /** A session directory; `deliverables` is its output subdirectory, if there is one. */
  datatype Session = Session(projections: set<string>, manifest: Option<Manifest>, deliverables: Option<set<string>>)

  datatype Fs = Fs(slots: map<Slot, Node>, sessions: map<string, Session>)

  const NEW_SESSION: Session := Session({}, None, None)

  /** `provider_skills_rel`. */
  function Rel(provider: string): Option<string> {
    if provider == "claude-code" || provider == "claude" then Some(".claude/skills")
    else if provider == "codex" then Some(".agents/skills")
    else if provider == "opencode" then Some(".opencode/skills")
    else None
  }

  function SessionOf(fs: Fs, command: string): Session {
    if command in fs.sessions then fs.sessions[command] else NEW_SESSION
  }

  function WithSession(fs: Fs, command: string, s: Session): Fs { fs.(sessions := fs.sessions[command := s]) }

  /** The session has output to keep. */
  predicate HasOutput(s: Session) { s.deliverables.Some? && s.deliverables.value != {} }

  // ---------------------------------------------------------------------------
  // Single steps: looking and acting are two
  // ---------------------------------------------------------------------------

  /** What a command has just seen and is about to act upon. */
  datatype Seen = Nothing | SawLink(slot: Slot) | SawNoOutput

  datatype World = World(fs: Fs, seen: map<string, Seen>)

  datatype Act =
    | AddProjection(name: string)
    | AddLink(slot: Slot, source: Source)
    | LookAt(slot: Slot)
    | RemoveSeenLink
    | SaveManifest(manifest: Manifest)
    | DropProjection(name: string)
    | DropManifest
    | LookForOutput(works: bool)
    | RemoveSession

  /** A step of some command; output written by its provider; something put in place by the project's user. */
  datatype Step =
    | By(command: string, act: Act)
    | WritesOutput(command: string, name: string)
    | Places(slot: Slot, file: bool)

  function SeenBy(w: World, command: string): Seen { if command in w.seen then w.seen[command] else Nothing }

  predicate HasOutputAt(fs: Fs, command: string) { command in fs.sessions && HasOutput(fs.sessions[command]) }

  predicate IsLink(fs: Fs, slot: Slot) { slot in fs.slots && fs.slots[slot].Link? }

  predicate IsFile(fs: Fs, slot: Slot) { slot in fs.slots && fs.slots[slot].NativeFile? }

  predicate IsNative(fs: Fs, slot: Slot) { slot in fs.slots && !fs.slots[slot].Link? }

  /**
    The file-system call behind an act. Creating a link fails on an existing path; removing
    goes by what was seen, takes a link or a file, and fails on a directory; a session that
    showed no output is removed as a whole, and one whose output could not be listed shows none.
  */
  function Effect(fs: Fs, command: string, act: Act, seen: Seen): Fs {
    match act
    case AddProjection(name) =>
      var s := SessionOf(fs, command);
      fs.(sessions := fs.sessions[command := s.(projections := s.projections + {name})])
    case AddLink(slot, source) => if slot in fs.slots then fs else fs.(slots := fs.slots[slot := Link(source)])
    case LookAt(_) => fs
    case RemoveSeenLink =>
      if seen.SawLink? && seen.slot in fs.slots && !fs.slots[seen.slot].NativeDir?
      then fs.(slots := fs.slots - {seen.slot})
      else fs
    case SaveManifest(manifest) =>
      fs.(sessions := fs.sessions[command := SessionOf(fs, command).(manifest := Some(manifest))])
    case DropProjection(name) =>
      if command !in fs.sessions then fs
      else
        var s := fs.sessions[command];
        fs.(sessions := fs.sessions[command := s.(projections := s.projections - {name})])
    case DropManifest =>
      if command !in fs.sessions then fs
      else fs.(sessions := fs.sessions[command := fs.sessions[command].(manifest := None)])
    case LookForOutput(_) => fs
    case RemoveSession => if seen.SawNoOutput? then fs.(sessions := fs.sessions - {command}) else fs
  }

  function Sees(fs: Fs, command: string, act: Act): Seen {
    match act
    case LookAt(slot) => if IsLink(fs, slot) then SawLink(slot) else Nothing
    case LookForOutput(works) => if works && HasOutputAt(fs, command) then Nothing else SawNoOutput
    case _ => Nothing
  }

  function Do(w: World, s: Step): World {
    match s
    case By(c, act) => World(Effect(w.fs, c, act, SeenBy(w, c)), w.seen[c := Sees(w.fs, c, act)])
    case WritesOutput(c, name) =>
      var before := SessionOf(w.fs, c);
      var output := (if before.deliverables.Some? then before.deliverables.value else {}) + {name};
      w.(fs := w.fs.(sessions := w.fs.sessions[c := before.(deliverables := Some(output))]))
    case Places(slot, file) => w.(fs := w.fs.(slots := w.fs.slots[slot := if file then NativeFile else NativeDir]))
  }

  function DoAll(w: World, steps: seq<Step>): World {
    if steps == [] then w else Do(DoAll(w, steps[..|steps| - 1]), steps[|steps| - 1])
  }

  /** `worlds[i]` is the world before `steps[i]`; nobody has seen anything at first. */
  ghost predicate IsRun(worlds: seq<World>, steps: seq<Step>) {
    && |worlds| == |steps| + 1 && worlds[0].seen == map[]
    && forall i :: 0 <= i < |steps| ==> worlds[i + 1] == Do(worlds[i], steps[i])
  }

  // ---------------------------------------------------------------------------
  // What single steps can do
  // ---------------------------------------------------------------------------

  /** A session directory changes only by its own command, or by output written into it. */
  lemma OnlyOwnerTouches(w: World, s: Step, c: string)
    requires !(s.By? && s.command == c) && !(s.WritesOutput? && s.command == c)
    ensures c in Do(w, s).fs.sessions <==> c in w.fs.sessions
    ensures c in w.fs.sessions ==> Do(w, s).fs.sessions[c] == w.fs.sessions[c]
    ensures SeenBy(Do(w, s), c) == SeenBy(w, c)
  {
  }

  /** Output goes only with a removal that saw none; nothing else takes any of it. */
  lemma OutputGoesOnly(w: World, s: Step, c: string)
    requires HasOutputAt(w.fs, c)
    ensures HasOutputAt(Do(w, s).fs, c) || (s == By(c, RemoveSession) && SeenBy(w, c) == SawNoOutput)
    ensures HasOutputAt(Do(w, s).fs, c) ==>
              w.fs.sessions[c].deliverables.value <= Do(w, s).fs.sessions[c].deliverables.value
  {
  }

  /** A native path goes only as a file, by a removal that saw a link there; no link turns native by itself. */
  lemma NativeGoesOnly(w: World, s: Step, slot: Slot)
    ensures IsNative(w.fs, slot) ==>
              IsNative(Do(w, s).fs, slot)
              || (s.By? && s.act == RemoveSeenLink && SeenBy(w, s.command) == SawLink(slot) && IsFile(w.fs, slot))
    ensures IsNative(Do(w, s).fs, slot) && !IsNative(w.fs, slot) ==> s.Places? && s.slot == slot
    ensures IsFile(Do(w, s).fs, slot) && !IsFile(w.fs, slot) ==> s == Places(slot, true)
  {
  }

  // ---------------------------------------------------------------------------
  // What is lost, exactly
  // ---------------------------------------------------------------------------

  /** Between `i` and `k` the command does nothing else. */
  predicate Idle(steps: seq<Step>, c: string, i: nat, k: nat)
    requires k <= |steps|
  {
    forall m :: i < m < k ==> !(steps[m].By? && steps[m].command == c)
  }

  /** What a command has seen, it saw at its last step. */
  lemma {:induction false} SeenAt(worlds: seq<World>, steps: seq<Step>, k: nat, c: string) returns (i: nat)
    requires IsRun(worlds, steps) && k < |worlds| && SeenBy(worlds[k], c) != Nothing
    ensures i < k && Idle(steps, c, i, k) && steps[i].By? && steps[i].command == c
    ensures SeenBy(worlds[k], c) == Sees(worlds[i].fs, c, steps[i].act)
    decreases k
  {
    assert k > 0;
    assert worlds[k] == Do(worlds[k - 1], steps[k - 1]);
    if steps[k - 1].By? && steps[k - 1].command == c {
      i := k - 1;
    } else {
      assert SeenBy(worlds[k - 1], c) == SeenBy(worlds[k], c);
      i := SeenAt(worlds, steps, k - 1, c);
    }
  }

  /** And what it saw is what it acts upon. */
  lemma {:induction false} SeenUntil(worlds: seq<World>, steps: seq<Step>, i: nat, k: nat, c: string)
    requires IsRun(worlds, steps) && i < k < |worlds| && Idle(steps, c, i, k) && steps[i].By? && steps[i].command == c
    ensures SeenBy(worlds[k], c) == Sees(worlds[i].fs, c, steps[i].act)
    decreases k
  {
    assert worlds[k] == Do(worlds[k - 1], steps[k - 1]);
    if k > i + 1 { SeenUntil(worlds, steps, i, k - 1, c); }
  }

  predicate WritesTo(s: Step, c: string) { s.WritesOutput? && s.command == c }

  /** While its command is idle, a session has output exactly if it had some or some was written. */
  lemma {:induction false} OutputSince(worlds: seq<World>, steps: seq<Step>, i: nat, k: nat, c: string)
    requires IsRun(worlds, steps) && i < k < |worlds| && Idle(steps, c, i, k)
    requires steps[i].By? && steps[i].command == c && steps[i].act.LookForOutput?
    ensures HasOutputAt(worlds[k].fs, c) <==>
            HasOutputAt(worlds[i].fs, c) || exists m :: i < m < k && WritesTo(steps[m], c)
    decreases k
  {
    assert worlds[k] == Do(worlds[k - 1], steps[k - 1]);
    if k > i + 1 {
      OutputSince(worlds, steps, i, k - 1, c);
      if !WritesTo(steps[k - 1], c) { OnlyOwnerTouches(worlds[k - 1], steps[k - 1], c); }
    }
  }

  /**
    The command looked for output at `i` and removes at `k`. Its look failed on a session that
    had some, or output was written after it had failed or found none.
  */
  ghost predicate Overlooked(worlds: seq<World>, steps: seq<Step>, i: nat, k: nat, c: string)
    requires |worlds| == |steps| + 1
  {
    && i < k < |steps| && Idle(steps, c, i, k) && steps[k] == By(c, RemoveSession)
    && steps[i].By? && steps[i].command == c && steps[i].act.LookForOutput?
    && var had := HasOutputAt(worlds[i].fs, c);
       if steps[i].act.works then !had && exists m :: i < m < k && WritesTo(steps[m], c)
       else had || exists m :: i < m < k && WritesTo(steps[m], c)
  }

  /**
    Over every interleaving of commands, providers and users: a step loses the output of a
    session if and only if it is its own command's removal, and the output was written after
    that command had looked and found none, or the look had failed.
  */
  lemma OutputLostIff(worlds: seq<World>, steps: seq<Step>, k: nat, c: string)
    requires IsRun(worlds, steps) && k < |steps|
    ensures HasOutputAt(worlds[k].fs, c) && !HasOutputAt(worlds[k + 1].fs, c) <==>
            exists i: nat :: Overlooked(worlds, steps, i, k, c)
  {
    assert worlds[k + 1] == Do(worlds[k], steps[k]);
    if HasOutputAt(worlds[k].fs, c) && !HasOutputAt(worlds[k + 1].fs, c) {
      OutputGoesOnly(worlds[k], steps[k], c);
      var i := SeenAt(worlds, steps, k, c);
      OutputSince(worlds, steps, i, k, c);
      assert Overlooked(worlds, steps, i, k, c);
    }
    if i: nat :| Overlooked(worlds, steps, i, k, c) {
      SeenUntil(worlds, steps, i, k, c);
      OutputSince(worlds, steps, i, k, c);
    }
  }

  /** A command alone can lose output that was there all the time, when its look fails. */
  lemma FailedLookLosesOutput(w: World, c: string)
    requires HasOutputAt(w.fs, c)
    ensures !HasOutputAt(Do(Do(w, By(c, LookForOutput(false))), By(c, RemoveSession)).fs, c)
    ensures HasOutputAt(Do(Do(w, By(c, LookForOutput(true))), By(c, RemoveSession)).fs, c)
  {
  }

  /** A native file that was not there before was placed, and has been there since. */
  lemma {:induction false} FilePlaced(worlds: seq<World>, steps: seq<Step>, i: nat, k: nat, slot: Slot) returns (m: nat)
    requires IsRun(worlds, steps) && i < k < |worlds| && !IsFile(worlds[i].fs, slot) && IsFile(worlds[k].fs, slot)
    ensures i <= m < k && steps[m] == Places(slot, true) && forall t :: m < t <= k ==> IsFile(worlds[t].fs, slot)
    decreases k
  {
    assert worlds[k] == Do(worlds[k - 1], steps[k - 1]);
    if IsFile(worlds[k - 1].fs, slot) {
      m := FilePlaced(worlds, steps, i, k - 1, slot);
    } else {
      NativeGoesOnly(worlds[k - 1], steps[k - 1], slot);
      m := k - 1;
    }
  }

  /** The command saw a link at `i` and removes it at `k`; at `m`, in between, a file took its place, and stayed. */
  ghost predicate Trampled(worlds: seq<World>, steps: seq<Step>, c: string, i: nat, m: nat, k: nat, slot: Slot)
    requires |worlds| == |steps| + 1
  {
    && i < m < k < |steps| && Idle(steps, c, i, k)
    && steps[i] == By(c, LookAt(slot)) && IsLink(worlds[i].fs, slot)
    && steps[m] == Places(slot, true) && (forall t :: m < t <= k ==> IsFile(worlds[t].fs, slot))
    && steps[k] == By(c, RemoveSeenLink)
  }

  /**
    Over every interleaving: a step loses a native skill path if and only if it is the removal
    of a link by a command that had seen one, and since then the user put a file in its place.
    Directories are never lost.
  */
  lemma NativeLostIff(worlds: seq<World>, steps: seq<Step>, k: nat, slot: Slot)
    requires IsRun(worlds, steps) && k < |steps|
    ensures IsNative(worlds[k].fs, slot) && !IsNative(worlds[k + 1].fs, slot) <==>
            exists c, i: nat, m: nat :: Trampled(worlds, steps, c, i, m, k, slot)
  {
    assert worlds[k + 1] == Do(worlds[k], steps[k]);
    if IsNative(worlds[k].fs, slot) && !IsNative(worlds[k + 1].fs, slot) {
      NativeGoesOnly(worlds[k], steps[k], slot);
      var c := steps[k].command;
      var i := SeenAt(worlds, steps, k, c);
      var m := FilePlaced(worlds, steps, i, k, slot);
      assert Trampled(worlds, steps, c, i, m, k, slot);
    }
    if c, i: nat, m: nat :| Trampled(worlds, steps, c, i, m, k, slot) {
      SeenUntil(worlds, steps, i, k, c);
      assert IsFile(worlds[k].fs, slot);
    }
  }

  ghost predicate NativesKept(a: Fs, b: Fs) {
    forall slot :: IsNative(a, slot) ==> IsNative(b, slot)
  }

  /** Whatever output a session had, it still has. */
  ghost predicate OutputsKept(a: Fs, b: Fs) {
    forall c :: HasOutputAt(a, c) ==>
      HasOutputAt(b, c) && a.sessions[c].deliverables.value <= b.sessions[c].deliverables.value
  }

  /** Sessions of commands outside `commands` are exactly as they were. */
  ghost predicate OthersUntouched(a: Fs, b: Fs, commands: set<string>) {
    forall c :: c !in commands ==>
      (c in b.sessions <==> c in a.sessions) && (c in a.sessions ==> b.sessions[c] == a.sessions[c])
  }

  /** A step of a command whose look for output, if it is one, works. */
  predicate Sound(s: Step) { s.By? && (s.act.LookForOutput? ==> s.act.works) }

  /** One more step among commands. */
  lemma CommandStepSafe(worlds: seq<World>, steps: seq<Step>, k: nat)
    requires IsRun(worlds, steps) && k < |steps| && steps[k].By?
    requires forall i :: 0 <= i < |steps| ==> Sound(steps[i])
    ensures NativesKept(worlds[k].fs, worlds[k + 1].fs) && OutputsKept(worlds[k].fs, worlds[k + 1].fs)
    ensures OthersUntouched(worlds[k].fs, worlds[k + 1].fs, {steps[k].command})
  {
    var s := steps[k];
    assert worlds[k + 1] == Do(worlds[k], s);
    forall slot | IsNative(worlds[k].fs, slot) ensures IsNative(worlds[k + 1].fs, slot) {
      NativeLostIff(worlds, steps, k, slot);
    }
    forall c | HasOutputAt(worlds[k].fs, c)
      ensures HasOutputAt(worlds[k + 1].fs, c)
      ensures worlds[k].fs.sessions[c].deliverables.value <= worlds[k + 1].fs.sessions[c].deliverables.value
    {
      OutputLostIff(worlds, steps, k, c);
      OutputGoesOnly(worlds[k], s, c);
    }
    forall c | c != s.command
      ensures (c in worlds[k + 1].fs.sessions <==> c in worlds[k].fs.sessions)
              && (c in worlds[k].fs.sessions ==> worlds[k + 1].fs.sessions[c] == worlds[k].fs.sessions[c])
    {
      OnlyOwnerTouches(worlds[k], s, c);
    }
  }

  /**
    Among commands alone whose looks work, however these and the removals interleave: no native
    skill path and no output is lost, and a command that does not take part keeps its session.
  */
  lemma {:induction false} InterleavingIsSafe(worlds: seq<World>, steps: seq<Step>, k: nat, commands: set<string>)
    requires IsRun(worlds, steps) && k < |worlds|
    requires forall i :: 0 <= i < |steps| ==> Sound(steps[i]) && steps[i].command in commands
    ensures NativesKept(worlds[0].fs, worlds[k].fs) && OutputsKept(worlds[0].fs, worlds[k].fs)
    ensures OthersUntouched(worlds[0].fs, worlds[k].fs, commands)
    decreases k
  {
    if k > 0 {
      InterleavingIsSafe(worlds, steps, k - 1, commands);
      CommandStepSafe(worlds, steps, k - 1);
    }
  }

  // ---------------------------------------------------------------------------
  // The operations as sequences of steps
  // ---------------------------------------------------------------------------

  function Unlinked(fs: Fs, rel: string, keys: seq<string>): Fs {
    fs.(slots := map slot | slot in fs.slots && !(IsLink(fs, slot) && slot.rel == rel && slot.key in keys) ::
                   fs.slots[slot])
  }

  /** What is left of a session directory: its output, if looking for it works, or nothing. */
  function Cleared(fs: Fs, command: string, works: bool): Fs {
    if command !in fs.sessions then fs
    else if works && HasOutput(fs.sessions[command]) then
      fs.(sessions := fs.sessions[command := Session({}, None, fs.sessions[command].deliverables)])
    else fs.(sessions := fs.sessions - {command})
  }

  /** `unload_project_session`, when it succeeds; `works`: the look for output does. */
  function Unloaded(fs: Fs, command: string, works: bool): Fs {
    var m := SessionOf(fs, command).manifest;
    var u := if m.Some? && m.value.Good? && Rel(m.value.provider).Some?
             then Unlinked(fs, Rel(m.value.provider).value, m.value.keys) else fs;
    Cleared(u, command, works)
  }

  predicate CanUnload(fs: Fs, command: string) {
    var m := SessionOf(fs, command).manifest;
    m.Some? ==> m.value.Good? && (m.value.keys == [] || Rel(m.value.provider).Some?)
  }

  /**
    How an installation goes: projections in order, where it fails, if it does, and whether
    the looks for output work when residue and when a failed installation are unloaded.
  */
  datatype Plan = Plan(
    home: string, provider: string, keys: seq<string>, sources: set<Source>,
    projections: seq<string>, projectionFails: bool, lateFailure: bool,
    looksFirst: bool, looksLast: bool)

  class Workspace {
    var world: World
    /** Every step made so far. */
    ghost var trace: seq<Step>

    /** The steps since `before` are all by `command` and explain the change of the world. */
    ghost predicate Accounts(was: World, before: seq<Step>, command: string)
      reads this
    {
      && before <= trace && world == DoAll(was, trace[|before|..])
      && forall i :: |before| <= i < |trace| ==> trace[i].By? && trace[i].command == command
    }

    method Make(command: string, act: Act, ghost was: World, ghost before: seq<Step>)
      requires Accounts(was, before, command)
      modifies this
      ensures world == Do(old(world), By(command, act)) && trace == old(trace) + [By(command, act)]
      ensures Accounts(was, before, command)
    {
      world := Do(world, By(command, act));
      trace := trace + [By(command, act)];
      var since := trace[|before|..];
      assert since[..|since| - 1] == old(trace)[|before|..];
    }

    /** Looks at a skill path and removes it if a link was seen there. */
    method UnlinkOne(command: string, slot: Slot, ghost was: World, ghost before: seq<Step>)
      requires Accounts(was, before, command)
      modifies this
      ensures Accounts(was, before, command)
      ensures var found := old(world.fs);
              world.fs == if IsLink(found, slot) then found.(slots := found.slots - {slot}) else found
    {
      Make(command, LookAt(slot), was, before);
      if SeenBy(world, command) == SawLink(slot) { Make(command, RemoveSeenLink, was, before); }
    }

    /** `unlink_provider_skills`. */
    method UnlinkSkills(command: string, provider: string, keys: seq<string>, ghost was: World, ghost before: seq<Step>)
      returns (ok: bool)
      requires Accounts(was, before, command)
      modifies this
      ensures Accounts(was, before, command)
      ensures ok == (keys == [] || Rel(provider).Some?)
      ensures var found := old(world.fs);
              world.fs
              == if keys != [] && Rel(provider).Some? then Unlinked(found, Rel(provider).value, keys) else found
    {
      if keys == [] { return true; }
      if Rel(provider).None? { return false; }
      var rel := Rel(provider).value;
      for i := 0 to |keys|
        invariant Accounts(was, before, command)
        invariant world.fs == Unlinked(old(world.fs), rel, keys[..i])
      {
        UnlinkOne(command, Slot(rel, keys[i]), was, before);
        UnlinkedSnoc(old(world.fs), rel, keys, i);
      }
      assert keys[..|keys|] == keys;
      ok := true;
    }

    /** Removes the projections of a session, one by one. */
    method DropProjections(command: string, ghost was: World, ghost before: seq<Step>)
      requires Accounts(was, before, command) && command in world.fs.sessions
      modifies this
      ensures Accounts(was, before, command)
      ensures world.fs == WithSession(old(world.fs), command, old(world.fs).sessions[command].(projections := {}))
    {
      var todo := world.fs.sessions[command].projections;
      ghost var first := world.fs;
      while todo != {}
        invariant Accounts(was, before, command)
        invariant world.fs == WithSession(first, command, first.sessions[command].(projections := todo))
      {
        var name :| name in todo;
        Make(command, DropProjection(name), was, before);
        todo := todo - {name};
      }
    }

    /** `retain_session_deliverables_and_remove_rest`: entry by entry, then, if no output is seen, the directory. */
    method RetainOutput(command: string, works: bool, ghost was: World, ghost before: seq<Step>)
      requires Accounts(was, before, command) && command in world.fs.sessions
      modifies this
      ensures Accounts(was, before, command) && world.fs == Cleared(old(world.fs), command, works)
      ensures var output := old(world.fs).sessions[command].deliverables;
              if works && output.Some? && output.value != {}
              then command in world.fs.sessions && world.fs.sessions[command] == Session({}, None, output)
              else command !in world.fs.sessions
    {
      DropProjections(command, was, before);
      Make(command, DropManifest, was, before);
      ghost var bare := Session({}, None, old(world.fs).sessions[command].deliverables);
      assert world.fs == WithSession(old(world.fs), command, bare);
      Make(command, LookForOutput(works), was, before);
      if SeenBy(world, command) == SawNoOutput {
        Make(command, RemoveSession, was, before);
        assert world.fs.sessions == old(world.fs).sessions - {command};
      }
    }

    /** `unload_project_session`. */
    method Unload(command: string, works: bool, ghost was: World, ghost before: seq<Step>) returns (ok: bool)
      requires Accounts(was, before, command)
      modifies this
      ensures Accounts(was, before, command)
      ensures ok == CanUnload(old(world.fs), command)
      ensures world.fs == if ok then Unloaded(old(world.fs), command, works) else old(world.fs)
    {
      if command in world.fs.sessions && world.fs.sessions[command].manifest.Some? {
        var m := world.fs.sessions[command].manifest.value;
        if m.Unparsable? { return false; }
        ok := UnlinkSkills(command, m.provider, m.keys, was, before);
        if !ok { return false; }
        if m.keys == [] { NoKeysNoUnlink(old(world.fs), m); }
      }
      if command in world.fs.sessions { RetainOutput(command, works, was, before); }
      ok := true;
    }

    /** Creates a link where nothing stands; tells whether it, or the very same link, is there. */
    method LinkOne(command: string, slot: Slot, source: Source, ghost was: World, ghost before: seq<Step>)
      returns (mine: bool)
      requires Accounts(was, before, command)
      modifies this
      ensures Accounts(was, before, command) && world.fs.sessions == old(world.fs).sessions
      ensures world.fs.slots
              == if slot in old(world.fs).slots then old(world.fs).slots else old(world.fs).slots[slot := Link(source)]
      ensures mine <==> world.fs.slots[slot] == Link(source)
    {
      if slot in world.fs.slots { return world.fs.slots[slot] == Link(source); }
      Make(command, AddLink(slot, source), was, before);
      mine := true;
    }

    /** `link_provider_skills`: an existing path wins unless it is already this very link. */
    method LinkSkills(command: string, plan: Plan, ghost was: World, ghost before: seq<Step>)
      returns (ok: bool, linked: seq<string>)
      requires Accounts(was, before, command)
      modifies this
      ensures Accounts(was, before, command)
      ensures world.fs.sessions == old(world.fs).sessions && OnlyLinksAdded(old(world.fs), world.fs, plan)
      ensures ok <==> Linkable(plan)
      ensures ok ==> Occupied(world.fs, plan)
      ensures ok ==> forall k :: k in linked <==> k in plan.keys && LinkedBy(world.fs, plan, k)
      ensures ok && Rel(plan.provider).Some? ==>
                var rel := Rel(plan.provider).value;
                forall k :: k in linked <==>
                  k in plan.keys && Slot(rel, k) in world.fs.slots
                  && world.fs.slots[Slot(rel, k)] == Link(Source(plan.home, rel, k))
    {
      linked := [];
      if plan.keys == [] { return true, []; }
      if Rel(plan.provider).None? { return false, []; }
      var rel := Rel(plan.provider).value;
      for i := 0 to |plan.keys|
        invariant Accounts(was, before, command) && world.fs.sessions == old(world.fs).sessions
        invariant OnlyLinksAdded(old(world.fs), world.fs, plan)
        invariant forall k :: k in linked <==> k in plan.keys[..i] && LinkedBy(world.fs, plan, k)
        invariant forall k :: k in plan.keys[..i] ==>
                    Slot(rel, k) in world.fs.slots && Source(plan.home, rel, k) in plan.sources
      {
        var key := plan.keys[i];
        assert plan.keys[..i + 1] == plan.keys[..i] + [key];
        assert key in plan.keys;
        var source := Source(plan.home, rel, key);
        if source !in plan.sources { return false, linked; }
        var mine := LinkOne(command, Slot(rel, key), source, was, before);
        if mine { linked := linked + [key]; }
      }
      assert plan.keys[..|plan.keys|] == plan.keys;
      ok := true;
    }

    method AddProjections(command: string, names: seq<string>, ghost was: World, ghost before: seq<Step>)
      requires Accounts(was, before, command)
      modifies this
      ensures Accounts(was, before, command) && world.fs.slots == old(world.fs).slots
      ensures SessionOf(world.fs, command).manifest == SessionOf(old(world.fs), command).manifest
      ensures forall i :: 0 <= i < |names| ==> names[i] in SessionOf(world.fs, command).projections
    {
      for i := 0 to |names|
        invariant Accounts(was, before, command) && world.fs.slots == old(world.fs).slots
        invariant SessionOf(world.fs, command).manifest == SessionOf(old(world.fs), command).manifest
        invariant forall j :: 0 <= j < i ==> names[j] in SessionOf(world.fs, command).projections
      {
        Make(command, AddProjection(names[i]), was, before);
      }
    }

    /** The failure path of an installation, before any manifest was saved: exactly the links at requested keys go. */
    method TakeBack(command: string, plan: Plan, ghost was: World, ghost before: seq<Step>)
      requires Accounts(was, before, command) && SessionOf(world.fs, command).manifest == None
      modifies this
      ensures Accounts(was, before, command)
      ensures SessionOf(world.fs, command).projections == {} && SessionOf(world.fs, command).manifest == None
      ensures world.fs.slots == WithoutRequested(old(world.fs), plan)
    {
      var unlinked := UnlinkSkills(command, plan.provider, plan.keys, was, before);
      RequestedUnlinked(old(world.fs), plan);
      var undone := Unload(command, plan.looksLast, was, before);
    }

    /** `install_project_session`: unload residue, install, and on failure take everything back. */
    method Install(command: string, plan: Plan) returns (ok: bool)
      modifies this
      ensures Accounts(old(world), old(trace), command)
      ensures ok <==> CanUnload(old(world.fs), command) && Linkable(plan) && !plan.projectionFails && !plan.lateFailure
      ensures ok ==> Installed(world.fs, command, plan)
      ensures !CanUnload(old(world.fs), command) ==> world.fs == old(world.fs)
      ensures !ok && CanUnload(old(world.fs), command) ==>
                SessionOf(world.fs, command).projections == {} && SessionOf(world.fs, command).manifest == None
      ensures !ok && CanUnload(old(world.fs), command) ==>
                world.fs.slots == WithoutRequested(Unloaded(old(world.fs), command, plan.looksFirst), plan)
    {
      ghost var was, before := world, trace;
      assert trace[|before|..] == [];
      var clean := Unload(command, plan.looksFirst, was, before);
      if !clean { return false; }
      ghost var unloaded := world.fs;
      AddProjections(command, plan.projections, was, before);
      var linked;
      ok := false;
      ghost var projected := world.fs;
      assert OnlyLinksAdded(projected, world.fs, plan);
      if !plan.projectionFails {
        ok, linked := LinkSkills(command, plan, was, before);
        if ok && !plan.lateFailure {
          ghost var linkedFs := world.fs;
          Make(command, SaveManifest(Good(plan.provider, linked)), was, before);
          assert forall k :: LinkedBy(world.fs, plan, k) <==> LinkedBy(linkedFs, plan, k);
          return true;
        }
      }
      AddedAreRequested(projected, world.fs, plan);
      TakeBack(command, plan, was, before);
      ok := false;
    }
  }

  /** Every requested skill is materialized, under a provider that has a skills directory. */
  predicate Linkable(plan: Plan) {
    plan.keys == [] ||
    (Rel(plan.provider).Some?
     && forall k :: k in plan.keys ==> Source(plan.home, Rel(plan.provider).value, k) in plan.sources)
  }

  /** Every requested skill path is taken, by its link or by something that was there before. */
  predicate Occupied(fs: Fs, plan: Plan) {
    forall k :: k in plan.keys ==> Rel(plan.provider).Some? && Slot(Rel(plan.provider).value, k) in fs.slots
  }

  /** The slot of a requested key. */
  predicate Requested(plan: Plan, slot: Slot) {
    Rel(plan.provider).Some? && slot.rel == Rel(plan.provider).value && slot.key in plan.keys
  }

  /** Everything but the links at requested keys, whoever made them. */
  function WithoutRequested(fs: Fs, plan: Plan): map<Slot, Node> {
    map slot | slot in fs.slots && !(fs.slots[slot].Link? && Requested(plan, slot)) :: fs.slots[slot]
  }

  /** Nothing was changed, and only links at requested keys were added. */
  ghost predicate OnlyLinksAdded(before: Fs, after: Fs, plan: Plan) {
    && (forall slot :: slot in before.slots ==> slot in after.slots && after.slots[slot] == before.slots[slot])
    && (forall slot :: slot in after.slots && slot !in before.slots ==>
          after.slots[slot].Link? && Requested(plan, slot))
  }

  lemma AddedAreRequested(before: Fs, after: Fs, plan: Plan)
    requires OnlyLinksAdded(before, after, plan)
    ensures WithoutRequested(after, plan) == WithoutRequested(before, plan)
  {
  }

  lemma RequestedUnlinked(fs: Fs, plan: Plan)
    ensures WithoutRequested(fs, plan)
            == if plan.keys != [] && Rel(plan.provider).Some?
               then Unlinked(fs, Rel(plan.provider).value, plan.keys).slots
               else fs.slots
  {
  }

  lemma UnlinkedSnoc(fs: Fs, rel: string, keys: seq<string>, i: nat)
    requires i < |keys|
    ensures var slot, mid := Slot(rel, keys[i]), Unlinked(fs, rel, keys[..i]);
            Unlinked(fs, rel, keys[..i + 1]) == if IsLink(mid, slot) then mid.(slots := mid.slots - {slot}) else mid
  {
    assert keys[..i + 1] == keys[..i] + [keys[i]];
    var slot, mid := Slot(rel, keys[i]), Unlinked(fs, rel, keys[..i]);
    assert Unlinked(fs, rel, keys[..i + 1]).slots == if IsLink(mid, slot) then mid.slots - {slot} else mid.slots;
  }

  /** The slot is listed by the manifest that a call finds. */
  predicate Residual(fs: Fs, command: string, slot: Slot) {
    var m := SessionOf(fs, command).manifest;
    && m.Some? && m.value.Good? && Rel(m.value.provider).Some?
    && slot.rel == Rel(m.value.provider).value && slot.key in m.value.keys
  }

  /**
    What a failed installation leaves: a link survives if and only if it stands neither at a
    requested key nor at one that the residual manifest lists; native paths all survive, and
    nothing is added.
  */
  lemma FailedInstallLeaves(fs: Fs, command: string, plan: Plan, slot: Slot)
    ensures var after := WithoutRequested(Unloaded(fs, command, plan.looksFirst), plan);
            && (slot in after ==> slot in fs.slots && after[slot] == fs.slots[slot])
            && (IsNative(fs, slot) ==> slot in after)
            && (IsLink(fs, slot) ==> (slot in after <==> !Requested(plan, slot) && !Residual(fs, command, slot)))
  {
  }

  predicate LinkedBy(fs: Fs, plan: Plan, key: string) {
    Rel(plan.provider).Some? &&
    var rel := Rel(plan.provider).value;
    Slot(rel, key) in fs.slots && fs.slots[Slot(rel, key)] == Link(Source(plan.home, rel, key))
  }

  /** The manifest names exactly the requested keys that are linked to their sources. */
  ghost predicate Installed(fs: Fs, command: string, plan: Plan) {
    && command in fs.sessions
    && (var m := fs.sessions[command].manifest;
        && m.Some? && m.value.Good? && m.value.provider == plan.provider
        && (forall k :: k in m.value.keys <==> k in plan.keys && LinkedBy(fs, plan, k)))
    && Occupied(fs, plan)
    && forall i :: 0 <= i < |plan.projections| ==> plan.projections[i] in fs.sessions[command].projections
  }

  lemma NoKeysNoUnlink(fs: Fs, m: Manifest)
    requires m.Good? && m.keys == []
    ensures Rel(m.provider).Some? ==> Unlinked(fs, Rel(m.provider).value, m.keys) == fs
  {
    if Rel(m.provider).Some? { assert Unlinked(fs, Rel(m.provider).value, m.keys).slots == fs.slots; }
  }

  /**
    From any state whatsoever, and so after a crash anywhere in an earlier installation:
    once an installation has succeeded, unloading it leaves none of its links, nothing of
    its session directory but output, if looking for it works, and every native path.
  */
  lemma InstallThenUnloadIsClean(installed: Fs, command: string, plan: Plan, works: bool)
    requires Installed(installed, command, plan)
    ensures CanUnload(installed, command)
    ensures var g := Unloaded(installed, command, works);
            && (forall k :: k in plan.keys ==> !LinkedBy(g, plan, k))
            && SessionOf(g, command).projections == {} && SessionOf(g, command).manifest == None
            && (command in g.sessions <==> works && HasOutput(installed.sessions[command]))
            && (works ==> OutputsKept(installed, g))
            && NativesKept(installed, g) && OthersUntouched(installed, g, {command})
  {
    var m := installed.sessions[command].manifest.value;
    if m.keys != [] { assert m.keys[0] in m.keys; }
    var g := Unloaded(installed, command, works);
    forall k | k in plan.keys ensures !LinkedBy(g, plan, k) {
      if LinkedBy(installed, plan, k) { assert k in m.keys; }
    }
  }

  /** A link left by a crashed installation from another home is not this command's: it stays. */
  lemma ForeignLinkStays(installed: Fs, command: string, plan: Plan, works: bool, key: string)
    requires Installed(installed, command, plan) && Rel(plan.provider).Some? && key in plan.keys
    ensures var slot := Slot(Rel(plan.provider).value, key);
            IsLink(Unloaded(installed, command, works), slot) <==>
            IsLink(installed, slot) && !LinkedBy(installed, plan, key)
  {
    var m := installed.sessions[command].manifest.value;
    assert key in m.keys <==> LinkedBy(installed, plan, key);
  }
}
