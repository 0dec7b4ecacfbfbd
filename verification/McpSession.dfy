/**
  Session-scoped injection of MCP servers into a provider's home configuration, as
  write-ahead undo logging: a manifest with the previous content is made durable
  before the configuration is touched, and residue is rolled back before anything
  new is injected.
*/
module McpSession {
  import opened Wrappers

  datatype Provider = Codex | ClaudeCode | Opencode | Unsupported(name: string)

  /** One file per supported provider, below the agent home. */
  datatype Path = CodexToml | ClaudeMcpJson | OpencodeJson

  function TargetOf(p: Provider): Option<Path> {
    match p
    case Codex => Some(CodexToml)
    case ClaudeCode => Some(ClaudeMcpJson)
    case Opencode => Some(OpencodeJson)
    case Unsupported(_) => None
  }

  /** `previous` is present for files that existed; both fields are stored. */
  datatype Entry<Text> = Entry(path: Path, existed: bool, previous: Option<Text>)

  /** What survives a crash: the configuration files and the manifest, if any. */
  datatype Disk<Text> = Disk(files: map<Path, Text>, manifest: Option<seq<Entry<Text>>>)

  /** Undoes one recorded file; the outcome does not depend on its current content. */
  function Undo<Text>(files: map<Path, Text>, e: Entry<Text>): map<Path, Text> {
    if e.existed then (if e.previous.Some? then files[e.path := e.previous.value] else files)
    else files - {e.path}
  }

  function UndoAll<Text>(files: map<Path, Text>, entries: seq<Entry<Text>>): map<Path, Text> {
    if entries == [] then files
    else Undo(UndoAll(files, entries[..|entries| - 1]), entries[|entries| - 1])
  }

  /** The files a completed rollback leaves: the user's own configuration. */
  function Baseline<Text>(d: Disk<Text>): map<Path, Text> {
    if d.manifest.None? then d.files else UndoAll(d.files, d.manifest.value)
  }

  // ---------------------------------------------------------------------------
  // Interrupted rollbacks
  // ---------------------------------------------------------------------------

  /** The content `entries` force at `path`, if they say anything about it. */
  function Forced<Text>(entries: seq<Entry<Text>>, path: Path): Option<Option<Text>> {
    if entries == [] then None
    else
      var e := entries[|entries| - 1];
      if e.path == path && (!e.existed || e.previous.Some?)
      then Some(if e.existed then e.previous else None)
      else Forced(entries[..|entries| - 1], path)
  }

  function Lookup<Text>(files: map<Path, Text>, path: Path): Option<Text> {
    if path in files then Some(files[path]) else None
  }

  lemma {:induction false} UndoAllLookup<Text>(files: map<Path, Text>, entries: seq<Entry<Text>>, path: Path)
    ensures Lookup(UndoAll(files, entries), path)
            == if Forced(entries, path).Some? then Forced(entries, path).value else Lookup(files, path)
  {
    if entries != [] { UndoAllLookup(files, entries[..|entries| - 1], path); }
  }

  lemma SameFiles<Text>(f: map<Path, Text>, g: map<Path, Text>)
    requires forall p :: Lookup(f, p) == Lookup(g, p)
    ensures f == g
  {
    assert forall p :: p in f <==> Lookup(f, p).Some?;
    assert forall p :: p in g <==> Lookup(g, p).Some?;
    assert forall p :: p in f ==> Some(f[p]) == Lookup(f, p);
    assert forall p :: p in g ==> Some(g[p]) == Lookup(g, p);
  }

  lemma {:induction false} ForcedPrefix<Text>(entries: seq<Entry<Text>>, n: nat, path: Path)
    requires n <= |entries| && Forced(entries[..n], path).Some?
    ensures Forced(entries, path).Some?
    decreases |entries|
  {
    if n == |entries| {
      assert entries[..n] == entries;
    } else {
      assert entries[..|entries| - 1][..n] == entries[..n];
      ForcedPrefix(entries[..|entries| - 1], n, path);
    }
  }

  /** Rolling back after an interrupted rollback gives what the first one would have given. */
  lemma RollbackRestartable<Text>(files: map<Path, Text>, entries: seq<Entry<Text>>, n: nat)
    requires n <= |entries|
    ensures UndoAll(UndoAll(files, entries[..n]), entries) == UndoAll(files, entries)
  {
    var g := UndoAll(files, entries[..n]);
    forall p ensures Lookup(UndoAll(g, entries), p) == Lookup(UndoAll(files, entries), p) {
      UndoAllLookup(g, entries, p);
      UndoAllLookup(files, entries, p);
      UndoAllLookup(files, entries[..n], p);
      if Forced(entries[..n], p).Some? { ForcedPrefix(entries, n, p); }
    }
    SameFiles(UndoAll(g, entries), UndoAll(files, entries));
  }

  /** Whatever was done to a recorded file is undone with it. */
  lemma RecordedFileIsFree<Text>(files: map<Path, Text>, g: map<Path, Text>, entries: seq<Entry<Text>>)
    requires forall p :: Forced(entries, p).None? ==> Lookup(g, p) == Lookup(files, p)
    ensures UndoAll(g, entries) == UndoAll(files, entries)
  {
    forall p ensures Lookup(UndoAll(g, entries), p) == Lookup(UndoAll(files, entries), p) {
      UndoAllLookup(g, entries, p);
      UndoAllLookup(files, entries, p);
    }
    SameFiles(UndoAll(g, entries), UndoAll(files, entries));
  }

  // ---------------------------------------------------------------------------
  // The durable steps of rollback and injection
  // ---------------------------------------------------------------------------

  /** The disk after each durable step of a rollback, oldest first. */
  function RollbackTrail<Text>(d: Disk<Text>): seq<Disk<Text>> {
    if d.manifest.None? then []
    else
      var entries := d.manifest.value;
      seq(|entries|, i requires 0 <= i < |entries| => Disk(UndoAll(d.files, entries[..i + 1]), d.manifest))
      + [Disk(UndoAll(d.files, entries), None)]
  }

  /**
    What injecting does once the residue is gone. `rendered` is the merged content the
    materializer would write, or None when the servers are invalid or the existing
    file cannot be read or merged.
  */
  function InjectTrail<Text>(d: Disk<Text>, provider: Provider, noServers: bool, readable: bool, rendered: Option<Text>)
    : seq<Disk<Text>>
  {
    var target := TargetOf(provider);
    if target.None? || noServers || (target.value in d.files && !readable) then []
    else
      var logged := Disk(d.files, Some([Entry(target.value, target.value in d.files, Lookup(d.files, target.value))]));
      if rendered.None? then [logged]
      else [logged, logged.(files := d.files[target.value := rendered.value])]
  }

  function Last<Text>(d: Disk<Text>, trail: seq<Disk<Text>>): Disk<Text> {
    if trail == [] then d else trail[|trail| - 1]
  }

  /** Every point of a rollback, finished or not, has the baseline it started with. */
  lemma RollbackKeepsBaseline<Text>(d: Disk<Text>, k: nat)
    requires k < |RollbackTrail(d)|
    ensures Baseline(RollbackTrail(d)[k]) == Baseline(d)
  {
    var entries := d.manifest.value;
    if k < |entries| { RollbackRestartable(d.files, entries, k + 1); }
  }

  lemma RollbackEnds<Text>(d: Disk<Text>)
    ensures Last(d, RollbackTrail(d)) == Disk(Baseline(d), None)
  {
  }

  /** Logging and injecting keep the baseline, whatever is rendered. */
  lemma InjectKeepsBaseline<Text>(
    d: Disk<Text>, provider: Provider, noServers: bool, readable: bool, rendered: Option<Text>, k: nat)
    requires d.manifest.None? && k < |InjectTrail(d, provider, noServers, readable, rendered)|
    ensures Baseline(InjectTrail(d, provider, noServers, readable, rendered)[k]) == Baseline(d)
  {
    var target := TargetOf(provider).value;
    var e := Entry(target, target in d.files, Lookup(d.files, target));
    var now := InjectTrail(d, provider, noServers, readable, rendered)[k];
    assert [e][..0] == [];
    assert UndoAll(now.files, [e]) == Undo(UndoAll(now.files, [e][..0]), e);
    SameFiles(Undo(now.files, e), d.files);
  }

  // ---------------------------------------------------------------------------
  // Runs with crashes
  // ---------------------------------------------------------------------------

  /**
    One event of a run. A call may be cut short after `upTo` of its durable steps; a
    provider process or its user may rewrite or remove any configuration file at any time.
  */
  datatype Event<Text> =
    | Inject(provider: Provider, noServers: bool, readable: bool, rendered: Option<Text>, upTo: nat)
    | Rollback(upTo: nat)
    | ProviderWrites(path: Path, text: Option<Text>)

  function CallTrail<Text>(d: Disk<Text>, ev: Event<Text>): seq<Disk<Text>>
    requires !ev.ProviderWrites?
  {
    match ev
    case Rollback(_) => RollbackTrail(d)
    case Inject(provider, noServers, readable, rendered, _) =>
      var first := RollbackTrail(d);
      first + InjectTrail(Last(d, first), provider, noServers, readable, rendered)
  }

  function Put<Text>(files: map<Path, Text>, path: Path, text: Option<Text>): map<Path, Text> {
    if text.None? then files - {path} else files[path := text.value]
  }

  /** The manifest of `d` decides what a rollback makes of `path`. */
  predicate Recorded<Text>(d: Disk<Text>, path: Path) {
    d.manifest.Some? && Forced(d.manifest.value, path).Some?
  }

  function Step<Text>(d: Disk<Text>, ev: Event<Text>): Disk<Text> {
    if ev.ProviderWrites? then d.(files := Put(d.files, ev.path, ev.text))
    else
      var trail := CallTrail(d, ev);
      Last(d, trail[..if ev.upTo < |trail| then ev.upTo else |trail|])
  }

  function Run<Text>(d: Disk<Text>, events: seq<Event<Text>>): Disk<Text> {
    if events == [] then d else Step(Run(d, events[..|events| - 1]), events[|events| - 1])
  }

  lemma WriteMovesBaseline<Text>(d: Disk<Text>, path: Path, text: Option<Text>)
    ensures Baseline(d.(files := Put(d.files, path, text)))
            == if Recorded(d, path) then Baseline(d) else Put(Baseline(d), path, text)
  {
    var written := d.(files := Put(d.files, path, text));
    var expected := if Recorded(d, path) then Baseline(d) else Put(Baseline(d), path, text);
    if d.manifest.Some? {
      forall p ensures Lookup(Baseline(written), p) == Lookup(expected, p) {
        UndoAllLookup(written.files, d.manifest.value, p);
        UndoAllLookup(d.files, d.manifest.value, p);
      }
      SameFiles(Baseline(written), expected);
    }
  }

  /** What an event makes of the files a rollback would leave: calls and edits of recorded files leave them alone. */
  function BaselineAfter<Text>(d: Disk<Text>, ev: Event<Text>): map<Path, Text> {
    if ev.ProviderWrites? && !Recorded(d, ev.path) then Put(Baseline(d), ev.path, ev.text) else Baseline(d)
  }

  /** Injections and rollbacks stopped anywhere keep the baseline; an edit moves it exactly for an unrecorded file. */
  lemma StepKeepsBaseline<Text>(d: Disk<Text>, ev: Event<Text>)
    ensures Baseline(Step(d, ev)) == BaselineAfter(d, ev)
  {
    if ev.ProviderWrites? {
      WriteMovesBaseline(d, ev.path, ev.text);
    } else {
      var trail := CallTrail(d, ev);
      var n := if ev.upTo < |trail| then ev.upTo else |trail|;
      var first := RollbackTrail(d);
      if n > 0 {
        assert Step(d, ev) == trail[n - 1];
        RollbackEnds(d);
        if n <= |first| {
          RollbackKeepsBaseline(d, n - 1);
        } else {
          var clean := Last(d, first);
          InjectKeepsBaseline(clean, ev.provider, ev.noServers, ev.readable, ev.rendered, n - 1 - |first|);
        }
      }
    }
  }

  /** The files as their user left them: the first ones, with the edits made outside any injection. */
  function OwnFiles<Text>(d: Disk<Text>, events: seq<Event<Text>>): map<Path, Text> {
    if events == [] then Baseline(d)
    else
      var n := |events| - 1;
      var own := OwnFiles(d, events[..n]);
      if events[n].ProviderWrites? && !Recorded(Run(d, events[..n]), events[n].path)
      then Put(own, events[n].path, events[n].text) else own
  }

  /**
    For every run of injections, rollbacks, crashes inside either and edits at any time: the
    baseline is what the user's own edits have made of the first one.
  */
  lemma {:induction false} RunKeepsBaseline<Text>(d: Disk<Text>, events: seq<Event<Text>>)
    ensures Baseline(Run(d, events)) == OwnFiles(d, events)
  {
    if events != [] {
      RunKeepsBaseline(d, events[..|events| - 1]);
      StepKeepsBaseline(Run(d, events[..|events| - 1]), events[|events| - 1]);
    }
  }

  /** Nobody edited `path` while no manifest recorded it. */
  predicate Unedited<Text>(d: Disk<Text>, events: seq<Event<Text>>, path: Path) {
    events == [] ||
    var n := |events| - 1;
    && Unedited(d, events[..n], path)
    && (events[n].ProviderWrites? && events[n].path == path ==> Recorded(Run(d, events[..n]), path))
  }

  /** Such a file is the user's first one. */
  lemma {:induction false} UneditedFile<Text>(d: Disk<Text>, events: seq<Event<Text>>, path: Path)
    requires Unedited(d, events, path)
    ensures Lookup(OwnFiles(d, events), path) == Lookup(Baseline(d), path)
    decreases |events|
  {
    if events != [] { UneditedFile(d, events[..|events| - 1], path); }
  }

  /**
    One completed rollback after any run leaves no manifest and the user's own files; from a
    clean disk, every file that was edited only while injected is exactly the first one.
  */
  lemma RollbackRestores<Text>(d: Disk<Text>, events: seq<Event<Text>>, upTo: nat)
    requires d.manifest.None? && upTo >= |RollbackTrail(Run(d, events))|
    ensures Step(Run(d, events), Rollback(upTo)) == Disk(OwnFiles(d, events), None)
    ensures forall path :: Unedited(d, events, path) ==> Lookup(OwnFiles(d, events), path) == Lookup(d.files, path)
    ensures (forall path :: Unedited(d, events, path)) ==> Step(Run(d, events), Rollback(upTo)) == d
  {
    RunKeepsBaseline(d, events);
    RollbackEnds(Run(d, events));
    var trail := RollbackTrail(Run(d, events));
    assert trail[..|trail|] == trail;
    forall path | Unedited(d, events, path) ensures Lookup(OwnFiles(d, events), path) == Lookup(d.files, path) {
      UneditedFile(d, events, path);
    }
    if forall path :: Unedited(d, events, path) { SameFiles(OwnFiles(d, events), d.files); }
  }

  /** A second completed rollback finds nothing to do. */
  lemma RollbackIdempotent<Text>(d: Disk<Text>, upTo: nat, again: nat)
    requires upTo >= |RollbackTrail(d)|
    ensures Step(Step(d, Rollback(upTo)), Rollback(again)) == Step(d, Rollback(upTo))
  {
    RollbackEnds(d);
    var trail := RollbackTrail(d);
    assert trail[..|trail|] == trail;
  }

  // ---------------------------------------------------------------------------
  // The calls themselves
  // ---------------------------------------------------------------------------

  class Home<Text> {
    var files: map<Path, Text>
    var manifest: Option<seq<Entry<Text>>>
    /** The disk after every durable step so far: each element is a possible crash point. */
    ghost var trail: seq<Disk<Text>>

    ghost function Now(): Disk<Text>
      reads this
    {
      Disk(files, manifest)
    }

    /** `rollback_session_mcp_config`. */
    method RollbackSession()
      modifies this
      ensures trail == old(trail) + RollbackTrail(old(Now()))
      ensures Now() == Disk(Baseline(old(Now())), None)
    {
      if manifest.None? { return; }
      var entries := manifest.value;
      ghost var start := files;
      for i := 0 to |entries|
        invariant manifest == old(manifest) == Some(entries)
        invariant files == UndoAll(start, entries[..i])
        invariant trail == old(trail) + RollbackTrail(old(Now()))[..i]
      {
        assert entries[..i + 1][..i] == entries[..i];
        var e := entries[i];
        if e.existed {
          if e.previous.Some? { files := files[e.path := e.previous.value]; }
        } else {
          files := files - {e.path};
        }
        trail := trail + [Now()];
      }
      assert entries[..|entries|] == entries;
      manifest := None;
      trail := trail + [Now()];
    }

    /** `inject_session_mcp_config`, with the renderer's outcome as input. */
    method InjectSession(provider: Provider, noServers: bool, readable: bool, rendered: Option<Text>)
      returns (r: Result<Option<Path>, string>)
      modifies this
      ensures var first := RollbackTrail(old(Now()));
              var second := InjectTrail(Last(old(Now()), first), provider, noServers, readable, rendered);
              trail == old(trail) + first + second
      ensures var clean := Disk(Baseline(old(Now())), None);
              && Now() == Last(clean, InjectTrail(clean, provider, noServers, readable, rendered))
              && (r.Ok? <==> TargetOf(provider).Some?
                             && (noServers || |InjectTrail(clean, provider, noServers, readable, rendered)| == 2))
      ensures Baseline(Now()) == Baseline(old(Now()))
      ensures r.Ok? && r.value.Some? ==>
                Some(r.value.value) == TargetOf(provider) && Lookup(files, r.value.value) == rendered
      ensures r.Ok? && r.value.None? <==> noServers && TargetOf(provider).Some?
      ensures noServers ==> Now() == Disk(Baseline(old(Now())), None)
      ensures TargetOf(provider).Some? && !noServers ==>
                var target, own := TargetOf(provider).value, Baseline(old(Now()));
                (target in own ==> readable) ==> manifest == Some([Entry(target, target in own, Lookup(own, target))])
      ensures forall p :: Some(p) != TargetOf(provider) ==> Lookup(files, p) == Lookup(Baseline(old(Now())), p)
    {
      RollbackSession();
      ghost var clean := Now();
      RollbackEnds(old(Now()));
      var target := TargetOf(provider);
      if target.None? { return Err("unsupported provider_type for mcp config"); }
      if noServers { return Ok(None); }
      var existed := target.value in files;
      if existed && !readable { return Err("snapshot existing mcp config"); }
      manifest := Some([Entry(target.value, existed, Lookup(files, target.value))]);
      trail := trail + [Now()];
      InjectKeepsBaseline(clean, provider, noServers, readable, rendered, 0);
      if rendered.None? { return Err("materialize mcp config"); }
      files := files[target.value := rendered.value];
      trail := trail + [Now()];
      InjectKeepsBaseline(clean, provider, noServers, readable, rendered, 1);
      r := Ok(target);
    }
  }
}
