/**
  The guarded read-modify-write of one configuration file: a write goes through
  only if the caller's hash names the content it is applied to.
*/
module ConfigFile {
  import opened Wrappers
  import opened DottedKeys
  import opened Json
  import Toml
  import opened ConfigTree
  import opened ProviderConfig
  import ConfigView
  import CodexConfig

  /**
    File text, up to what the parsers make of it. `layout` stands for everything a
    parser ignores: spacing, member order, comments.
  */
  datatype Content =
    | Blank(spaces: nat)
    | JsonText(root: Value, layout: int)
    | TomlText(doc: Toml.Items, layout: int)
    | Garbage(n: int)
    | NotUtf8(n: int)

  /** SHA-256 of a text, injective by construction. */
  datatype Hash = Sha256(of: Content)

  type File = Option<Content>

  datatype ConfigError =
    | Validation(message: string)
    | Conflict(actual: Hash)
    | Unmanageable(reason: string)
    | Io

  /** `keyring`: the codex credentials store is `keyring` or `auto`. `order` lists the keys of `values`. */
  datatype Request = Request(surface: Surface, keyring: bool, values: Fields, order: seq<string>, expected: Hash)

  ghost predicate WellFormed(req: Request) { Enumerates(req.order, req.values.Keys) }

  /** A missing file reads as the empty text. */
  function TextOf(file: File): Content { if file.None? then Blank(0) else file.value }

  function PrettyJson(fields: Fields): Content { JsonText(Obj(fields), 0) }

  /** An empty document without comments prints as the empty text. */
  function PrettyToml(doc: Toml.Items, layout: int): Content {
    if doc == map[] && layout == 0 then Blank(0) else TomlText(doc, layout)
  }

  /** `apply_values`: parse, apply, print. */
  function NewContent(req: Request, file: File): Result<Content, ConfigError>
    requires forall k :: k in req.order ==> k in req.values
  {
    var text := TextOf(file);
    if req.surface == CodexProfile then
      if !text.Blank? && !text.TomlText? then Err(Validation("invalid toml"))
      else
        var doc, layout := if text.TomlText? then text.doc else map[], if text.TomlText? then text.layout else 0;
        match CodexConfig.ApplyAll(doc, req.values, req.order)
        case Err(e) => Err(Validation(e))
        case Ok(after) => Ok(PrettyToml(after, layout))
    else if !text.Blank? && !text.JsonText? then Err(Validation("invalid json"))
    else if text.JsonText? && !text.root.Obj? then Err(Validation("json root must be object"))
    else
      match ApplyAll(req.surface, if text.JsonText? then text.root.fields else map[], req.values, req.order)
      case Err(e) => Err(Validation(e))
      case Ok(after) => Ok(PrettyJson(after))
  }

  /** Everything up to the file write, in the order the checks are made. */
  function Prepare(req: Request, file: File): Result<Content, ConfigError>
    requires forall k :: k in req.order ==> k in req.values
  {
    if req.surface == ClaudeAuth then Err(Unmanageable("oauth_session_protected"))
    else if req.surface == CodexAuth && req.keyring then Err(Unmanageable("credentials_store_keyring"))
    else if exists k :: k in req.values && !IsManagedKey(req.surface, k) then Err(Validation("key not in allowlist"))
    else if TextOf(file).NotUtf8? then Err(Io)
    else if Sha256(TextOf(file)) != req.expected then Err(Conflict(Sha256(TextOf(file))))
    else NewContent(req, file)
  }

  // ---------------------------------------------------------------------------
  // Which requests go through
  // ---------------------------------------------------------------------------

  predicate Manageable(req: Request) {
    req.surface != ClaudeAuth && !(req.surface == CodexAuth && req.keyring)
  }

  /** The parsed document: a blank file is an empty one. */
  function JsonRoot(text: Content): Option<Fields> {
    if text.Blank? then Some(map[])
    else if text.JsonText? && text.root.Obj? then Some(text.root.fields)
    else None
  }

  function TomlRoot(text: Content): Option<Toml.Items> {
    if text.Blank? then Some(map[]) else if text.TomlText? then Some(text.doc) else None
  }

  /** Everything a caller must get right, said of the request and the file alone. */
  ghost predicate Acceptable(req: Request, file: File) {
    && Manageable(req) && (forall k :: k in req.values ==> IsManagedKey(req.surface, k))
    && req.expected == Sha256(TextOf(file))
    && if req.surface == CodexProfile
       then TomlRoot(TextOf(file)).Some?
            && forall k :: k in req.values ==> CodexConfig.Writable(TomlRoot(TextOf(file)).value, k, req.values[k])
       else JsonRoot(TextOf(file)).Some?
            && forall k :: k in req.values ==> !Blocked(JsonRoot(TextOf(file)).value, Split(k))
  }

  lemma JsonApplies(req: Request, file: File)
    requires WellFormed(req) && req.surface != CodexProfile && PrefixFree(req.values.Keys)
    ensures NewContent(req, file).Ok? <==>
            JsonRoot(TextOf(file)).Some?
            && forall k :: k in req.values ==>
                 Accepts(req.surface, k) && !Blocked(JsonRoot(TextOf(file)).value, Split(k))
  {
    var root := JsonRoot(TextOf(file));
    if root.Some? {
      EnumerationSpread(req.order, req.values.Keys);
      ApplyAllSucceeds(req.surface, root.value, req.values, req.order);
    }
  }

  lemma TomlApplies(req: Request, file: File)
    requires WellFormed(req) && req.surface == CodexProfile
    ensures NewContent(req, file).Ok? <==>
            TomlRoot(TextOf(file)).Some?
            && forall k :: k in req.values ==> CodexConfig.Writable(TomlRoot(TextOf(file)).value, k, req.values[k])
  {
    var root := TomlRoot(TextOf(file));
    if root.Some? { CodexConfig.ApplyAllSucceeds(root.value, req.values, req.order); }
  }

  /** A request whose keys do not overlap is carried out exactly when it is acceptable. */
  lemma PrepareSucceeds(req: Request, file: File)
    requires WellFormed(req) && (req.surface == CodexProfile || PrefixFree(req.values.Keys))
    ensures Prepare(req, file).Ok? <==> Acceptable(req, file)
  {
    if req.surface == CodexProfile { TomlApplies(req, file); } else { JsonApplies(req, file); }
  }

  /** Which error a call gets before anything is written; the keys are judged before the file is read. */
  lemma ErrorsTell(req: Request, file: File)
    requires WellFormed(req)
    ensures var allowed := forall k :: k in req.values ==> IsManagedKey(req.surface, k);
            var p := Prepare(req, file);
            && (p.Err? && p.error.Unmanageable? <==> !Manageable(req))
            && (Manageable(req) && !allowed ==> p.Err? && p.error.Validation?)
            && (p.Err? && p.error.Io? <==> Manageable(req) && allowed && file.Some? && file.value.NotUtf8?)
            && (p.Err? && p.error.Conflict? <==>
                && Manageable(req) && allowed && !(file.Some? && file.value.NotUtf8?)
                && req.expected != Sha256(TextOf(file)))
            && (p.Err? && p.error.Conflict? ==> p.error.actual == Sha256(TextOf(file)))
  {
  }

  // ---------------------------------------------------------------------------
  // What is written
  // ---------------------------------------------------------------------------

  function LayoutOf(text: Content): int { if text.TomlText? then text.layout else 0 }

  /** The documents before and after a write that goes through. */
  lemma TomlRoots(req: Request, file: File)
    requires WellFormed(req) && req.surface == CodexProfile && Prepare(req, file).Ok?
    ensures TomlRoot(TextOf(file)).Some? && TomlRoot(Prepare(req, file).value).Some?
    ensures CodexConfig.ApplyAll(TomlRoot(TextOf(file)).value, req.values, req.order)
            == Ok(TomlRoot(Prepare(req, file).value).value)
    ensures LayoutOf(Prepare(req, file).value) == LayoutOf(TextOf(file))
  {
  }

  lemma JsonRoots(req: Request, file: File)
    requires WellFormed(req) && req.surface != CodexProfile && Prepare(req, file).Ok?
    ensures JsonRoot(TextOf(file)).Some? && Prepare(req, file).value.JsonText?
    ensures JsonRoot(Prepare(req, file).value).Some?
    ensures ApplyAll(req.surface, JsonRoot(TextOf(file)).value, req.values, req.order)
            == Ok(JsonRoot(Prepare(req, file).value).value)
  {
  }

  /**
    A TOML write, read off the texts before and after: written keys show their converted
    values, all others what they showed, items apart from the written places and the layout
    are kept.
  */
  lemma TomlWriteMeans(req: Request, file: File, key: string, r: Path)
    requires WellFormed(req) && req.surface == CodexProfile && Prepare(req, file).Ok?
    ensures var before, after := TomlRoot(TextOf(file)), TomlRoot(Prepare(req, file).value);
            && before.Some? && after.Some? && LayoutOf(Prepare(req, file).value) == LayoutOf(TextOf(file))
            && CodexConfig.ViewAt(after.value, key)
               == (if key in req.values then CodexConfig.Stored(req.values[key])
                   else CodexConfig.ViewAt(before.value, key))
            && (r != [] && (forall k :: k in req.values ==>
                  CodexConfig.PlaceOf(k).Some? && Apart(CodexConfig.PlaceOf(k).value, r)) ==>
                  CodexConfig.ItemAt(after.value, r) == CodexConfig.ItemAt(before.value, r))
  {
    TomlRoots(req, file);
    var before := TomlRoot(TextOf(file)).value;
    CodexConfig.ViewAfterAll(before, req.values, req.order, key);
    if r != [] && forall k :: k in req.values ==>
         CodexConfig.PlaceOf(k).Some? && Apart(CodexConfig.PlaceOf(k).value, r)
    {
      CodexConfig.UnmanagedItemsSurvive(before, req.values, req.order, r);
    }
  }

  /** A JSON write: below a written path stand the leaves of the value, elsewhere those of the old document. */
  lemma JsonWriteMeans(req: Request, file: File, r: Path)
    requires WellFormed(req) && req.surface != CodexProfile && PrefixFree(req.values.Keys) && Prepare(req, file).Ok?
    ensures var before, after := JsonRoot(TextOf(file)), JsonRoot(Prepare(req, file).value);
            && before.Some? && after.Some? && Prepare(req, file).value.JsonText?
            && (forall k :: k in req.values && Split(k) <= r ==>
                  LeafAt(Obj(after.value), r)
                  == if req.values[k].Null? then None else LeafAt(req.values[k], r[|Split(k)|..]))
            && ((forall k :: k in req.values ==> !(Split(k) <= r)) ==>
                  LeafAt(Obj(after.value), r) == LeafAt(Obj(before.value), r))
  {
    JsonRoots(req, file);
    EnumerationSpread(req.order, req.values.Keys);
    ApplyAllLeaves(req.surface, JsonRoot(TextOf(file)).value, req.values, req.order, r);
  }

  // ---------------------------------------------------------------------------
  // Reading back
  // ---------------------------------------------------------------------------

  /** The text can be read and parsed; only the empty text passes unparsed. */
  predicate Legible(surface: Surface, text: Content) {
    match text
    case Blank(n) => n == 0 || surface == CodexProfile
    case JsonText(root, _) => surface != CodexProfile && root.Obj?
    case TomlText(_, _) => surface == CodexProfile
    case Garbage(_) => false
    case NotUtf8(_) => false
  }

  /** `read_config` succeeds: there is no file, or it is read and parsed. `readable`: the read itself works. */
  predicate ReadsOk(surface: Surface, file: File, readable: bool) {
    file.None? || (readable && Legible(surface, file.value))
  }

  /** What a call prepares can be read back. */
  lemma PreparedIsLegible(req: Request, file: File)
    requires WellFormed(req) && Prepare(req, file).Ok?
    ensures Legible(req.surface, Prepare(req, file).value)
  {
  }

  /**
    What can be read can be written to, and the other way round, but for one case: a JSON file
    of nothing but white space counts as empty for a write and is malformed for a read.
  */
  lemma LegibleOrOnlySpace(req: Request, text: Content)
    ensures var root := if req.surface == CodexProfile then TomlRoot(text).Some? else JsonRoot(text).Some?;
            root <==> Legible(req.surface, text) || (req.surface != CodexProfile && text.Blank? && text.spaces > 0)
    ensures Legible(req.surface, text) ==> !(req.surface != CodexProfile && text.Blank? && text.spaces > 0)
  {
  }

  class ConfigSurface {
    var file: File

    /** Reading, comparing and preparing; nothing is written. */
    method Look(req: Request) returns (r: Result<Content, ConfigError>)
      requires WellFormed(req)
      ensures r == Prepare(req, file)
      ensures r.Ok? ==> req.expected == Sha256(TextOf(file))
    {
      r := Prepare(req, file);
    }

    /** `fs::write`: in place, so a failure may leave anything behind. */
    method Commit(content: Content, torn: Option<File>) returns (ok: bool)
      modifies this
      ensures ok <==> torn.None?
      ensures file == if ok then Some(content) else torn.value
    {
      ok := torn.None?;
      file := if torn.Some? then torn.value else Some(content);
    }

    /** `read_config`: the managed view of the file as it is now. */
    method ReadBack(surface: Surface, readable: bool) returns (r: Result<Fields, ConfigError>)
      ensures r.Ok? <==> ReadsOk(surface, file, readable)
      ensures r.Ok? && (file.None? || file.value.Blank?) ==> r.value == map[]
      ensures r.Ok? && file.Some? && file.value.TomlText? ==>
                forall key :: ConfigView.Get(r.value, key) == CodexConfig.ViewAt(file.value.doc, key)
      ensures r.Ok? && file.Some? && file.value.JsonText?
              && (surface == ClaudeProfile || DotFreeNames(file.value.root)) ==>
                forall key :: ConfigView.Get(r.value, key) == ConfigView.ViewAt(surface, file.value.root.fields, key)
    {
      if file.None? { return Ok(map[]); }
      if !readable { return Err(Io); }
      match file.value
      case Blank(n) => r := if n == 0 || surface == CodexProfile then Ok(map[]) else Err(Validation("invalid json"));
      case TomlText(doc, _) =>
        if surface != CodexProfile { return Err(Validation("invalid json")); }
        var view := CodexConfig.ExtractTomlManaged(doc);
        r := Ok(view);
      case JsonText(root, _) =>
        if surface == CodexProfile { return Err(Validation("invalid toml")); }
        if !root.Obj? { return Err(Validation("json root must be object")); }
        var view := ConfigView.ExtractJsonManaged(surface, root.fields);
        r := Ok(view);
      case Garbage(_) => r := Err(Validation("cannot be parsed"));
      case NotUtf8(_) => r := Err(Io);
    }

    /**
      `write_config`. The comparison, the write and the reading back are three steps with no
      lock around them: `meanwhile` and `afterwards` are what other writers have made of the
      file before and after the write, if anything. The result is that of the reading back.
    */
    method WriteConfig(
      req: Request, meanwhile: Option<File>, torn: Option<File>, afterwards: Option<File>, readable: bool)
      returns (r: Result<Fields, ConfigError>)
      requires WellFormed(req)
      modifies this
      ensures Prepare(req, old(file)).Err? ==> file == old(file) && r.Err? && r.error == Prepare(req, old(file)).error
      ensures Prepare(req, old(file)).Ok? && torn.Some? ==> file == torn.value && r == Err(Io)
      ensures Prepare(req, old(file)).Ok? && torn.None? ==>
                && file == (if afterwards.Some? then afterwards.value else Some(Prepare(req, old(file)).value))
                && (r.Ok? <==> ReadsOk(req.surface, file, readable))
      ensures r.Ok? ==> Sha256(TextOf(old(file))) == req.expected
      ensures r.Ok? && (file.None? || file.value.Blank?) ==> r.value == map[]
      ensures r.Ok? && file.Some? && file.value.TomlText? ==>
                forall key :: ConfigView.Get(r.value, key) == CodexConfig.ViewAt(file.value.doc, key)
      ensures r.Ok? && file.Some? && file.value.JsonText?
              && (req.surface == ClaudeProfile || DotFreeNames(file.value.root)) ==>
                forall key ::
                  ConfigView.Get(r.value, key) == ConfigView.ViewAt(req.surface, file.value.root.fields, key)
    {
      var prepared := Look(req);
      if prepared.Err? { return Err(prepared.error); }
      if meanwhile.Some? { file := meanwhile.value; }
      var written := Commit(prepared.value, torn);
      if !written { return Err(Io); }
      if afterwards.Some? { file := afterwards.value; }
      r := ReadBack(req.surface, readable);
    }
  }

  // ---------------------------------------------------------------------------
  // Runs of many writers
  // ---------------------------------------------------------------------------

  /** A call that has compared its hash; `written` once its write has gone through. */
  datatype Pending = Pending(req: Request, content: Content, written: bool)

  datatype World = World(file: File, pending: map<nat, Pending>)

  /** The three steps of a call, each on some task, or an edit by the provider's own tooling. */
  datatype Step =
    | Looks(id: nat, req: Request)
    | Writes(id: nat, torn: Option<File>)
    | ReadsBack(id: nat, readable: bool)
    | Edit(to: File)

  ghost predicate Enabled(w: World, s: Step) {
    match s
    case Looks(id, req) => id !in w.pending && WellFormed(req)
    case Writes(id, _) => id in w.pending && !w.pending[id].written
    case ReadsBack(id, _) => id in w.pending && w.pending[id].written
    case Edit(_) => true
  }

  /** What a writing step leaves in the file. */
  ghost function Puts(w: World, s: Step): File
    requires Enabled(w, s) && (s.Writes? || s.Edit?)
  {
    match s
    case Writes(id, torn) => if torn.Some? then torn.value else Some(w.pending[id].content)
    case Edit(to) => to
  }

  ghost function Next(w: World, s: Step): World
    requires Enabled(w, s)
  {
    match s
    case Looks(id, req) =>
      if Prepare(req, w.file).Err? then w
      else w.(pending := w.pending[id := Pending(req, Prepare(req, w.file).value, false)])
    case Writes(id, torn) =>
      var pending := if torn.Some? then w.pending - {id} else w.pending[id := w.pending[id].(written := true)];
      World(Puts(w, s), pending)
    case ReadsBack(id, _) => w.(pending := w.pending - {id})
    case Edit(to) => w.(file := to)
  }

  ghost predicate IsRun(worlds: seq<World>, steps: seq<Step>) {
    && |worlds| == |steps| + 1
    && forall i :: 0 <= i < |steps| ==> Enabled(worlds[i], steps[i]) && worlds[i + 1] == Next(worlds[i], steps[i])
  }

  function TextAt(worlds: seq<World>, i: nat): Content
    requires i < |worlds|
  {
    TextOf(worlds[i].file)
  }

  /** A step of the call `id` other than its comparison. */
  predicate Own(s: Step, id: nat) { (s.Writes? || s.ReadsBack?) && s.id == id }

  /** A step that writes the file and is not the call's own. */
  predicate Foreign(s: Step, id: nat) { s.Edit? || (s.Writes? && s.id != id) }

  /** The call that compared at `i` wrote at `j`, and the write went through. */
  ghost predicate Wrote(worlds: seq<World>, steps: seq<Step>, i: nat, j: nat) {
    && |worlds| == |steps| + 1 && i < j < |steps|
    && steps[i].Looks? && WellFormed(steps[i].req) && Prepare(steps[i].req, worlds[i].file).Ok?
    && steps[j] == Writes(steps[i].id, None)
    && forall k :: i < k < j ==> !Own(steps[k], steps[i].id)
  }

  /** Step `k` is the last foreign write after step `i` and before step `j`. */
  predicate LastForeign(steps: seq<Step>, id: nat, i: nat, j: nat, k: nat) {
    i < k < j <= |steps| && Foreign(steps[k], id) && forall m :: k < m < j ==> !Foreign(steps[m], id)
  }

  lemma {:induction false} LookIsRemembered(worlds: seq<World>, steps: seq<Step>, i: nat, j: nat, m: nat)
    requires IsRun(worlds, steps) && Wrote(worlds, steps, i, j) && i < m <= j
    ensures var req := steps[i].req;
            steps[i].id in worlds[m].pending
            && worlds[m].pending[steps[i].id] == Pending(req, Prepare(req, worlds[i].file).value, false)
    decreases m
  {
    if m > i + 1 { LookIsRemembered(worlds, steps, i, j, m - 1); }
  }

  /** A write that went through left what had been prepared from the content its hash names. */
  lemma WritesWhatItPrepared(worlds: seq<World>, steps: seq<Step>, i: nat, j: nat)
    requires IsRun(worlds, steps) && Wrote(worlds, steps, i, j)
    ensures steps[i].req.expected == Sha256(TextAt(worlds, i))
    ensures worlds[j + 1].file.Some? && NewContent(steps[i].req, worlds[i].file) == Ok(TextAt(worlds, j + 1))
    ensures worlds[i + 1].file == worlds[i].file
  {
    LookIsRemembered(worlds, steps, i, j, j);
  }

  /** While a call takes no step, the file holds what it held, or what was put there last. */
  lemma {:induction false} FileSince(worlds: seq<World>, steps: seq<Step>, id: nat, i: nat, j: nat)
    requires IsRun(worlds, steps) && i < j < |worlds| && forall k :: i < k < j ==> !Own(steps[k], id)
    ensures forall k: nat :: LastForeign(steps, id, i, j, k) ==> worlds[j].file == Puts(worlds[k], steps[k])
    ensures worlds[j].file == worlds[i + 1].file || exists k: nat :: LastForeign(steps, id, i, j, k)
    decreases j
  {
    if j > i + 1 {
      var m := j - 1;
      FileSince(worlds, steps, id, i, m);
      assert worlds[j] == Next(worlds[m], steps[m]);
      if Foreign(steps[m], id) {
        assert LastForeign(steps, id, i, j, m);
        assert forall k: nat :: LastForeign(steps, id, i, j, k) ==> k == m;
      } else {
        assert worlds[j].file == worlds[m].file;
        assert forall k: nat :: LastForeign(steps, id, i, j, k) <==> LastForeign(steps, id, i, m, k);
        if k: nat :| LastForeign(steps, id, i, m, k) { assert LastForeign(steps, id, i, j, k); }
      }
    }
  }

  /**
    A write overwrote the content its hash names if and only if the last foreign write
    between its comparison and itself, if there was any, put that same content.
  */
  lemma OverwritesWhatItNames(worlds: seq<World>, steps: seq<Step>, i: nat, j: nat)
    requires IsRun(worlds, steps) && Wrote(worlds, steps, i, j)
    ensures steps[i].req.expected == Sha256(TextAt(worlds, j)) <==>
            forall k: nat :: LastForeign(steps, steps[i].id, i, j, k) ==>
              TextOf(Puts(worlds[k], steps[k])) == TextAt(worlds, i)
  {
    WritesWhatItPrepared(worlds, steps, i, j);
    FileSince(worlds, steps, steps[i].id, i, j);
  }

  /** Somewhere between a content and its recurrence, a step brings it back. */
  lemma {:induction false} Restored(worlds: seq<World>, i: nat, j: nat, text: Content) returns (k: nat)
    requires i <= j < |worlds| && TextAt(worlds, i) != text && TextAt(worlds, j) == text
    ensures i <= k < j && TextAt(worlds, k) != text && TextAt(worlds, k + 1) == text
    decreases j - i
  {
    if TextAt(worlds, i + 1) == text { k := i; } else { k := Restored(worlds, i + 1, j, text); }
  }

  /**
    Two writes with one expected hash, the first of which left another content than the hash
    names: either the second call had compared before the first one wrote, or in between,
    and before the second comparison, a step brought the content back.
  */
  lemma OneWinnerPerHash(worlds: seq<World>, steps: seq<Step>, i1: nat, j1: nat, i2: nat, j2: nat) returns (k: nat)
    requires IsRun(worlds, steps) && Wrote(worlds, steps, i1, j1) && Wrote(worlds, steps, i2, j2) && j1 < j2
    requires steps[i1].req.expected == steps[i2].req.expected
    requires TextAt(worlds, j1 + 1) != TextAt(worlds, i1)
    ensures || i2 < j1
            || (j1 < k < i2 && (steps[k].Writes? || steps[k].Edit?)
                && TextAt(worlds, k) != TextAt(worlds, i1) && TextAt(worlds, k + 1) == TextAt(worlds, i1))
  {
    WritesWhatItPrepared(worlds, steps, i1, j1);
    WritesWhatItPrepared(worlds, steps, i2, j2);
    k := j2;
    if i2 > j1 {
      k := Restored(worlds, j1 + 1, i2, TextAt(worlds, i1));
      assert worlds[k + 1] == Next(worlds[k], steps[k]);
    }
  }

  /** The call that compared at `i` and wrote at `j` reads back at `l`. */
  ghost predicate Reports(worlds: seq<World>, steps: seq<Step>, i: nat, j: nat, l: nat) {
    && Wrote(worlds, steps, i, j) && j < l < |steps| && steps[l].ReadsBack? && steps[l].id == steps[i].id
    && forall k :: j < k < l ==> !Own(steps[k], steps[i].id)
  }

  /**
    A whole write is reported as an error if and only if the read fails on a file that is
    there, or the last foreign write since put a text that cannot be parsed.
  */
  lemma ReadBackFailsIff(worlds: seq<World>, steps: seq<Step>, i: nat, j: nat, l: nat)
    requires IsRun(worlds, steps) && Reports(worlds, steps, i, j, l)
    ensures var req := steps[i].req;
            !ReadsOk(req.surface, worlds[l].file, steps[l].readable) <==>
            || (worlds[l].file.Some? && !steps[l].readable)
            || exists k: nat :: LastForeign(steps, steps[i].id, j, l, k) && Puts(worlds[k], steps[k]).Some?
                                && !Legible(req.surface, Puts(worlds[k], steps[k]).value)
  {
    LookIsRemembered(worlds, steps, i, j, j);
    PreparedIsLegible(steps[i].req, worlds[i].file);
    FileSince(worlds, steps, steps[i].id, j, l);
  }

  // ---------------------------------------------------------------------------
  // What can go wrong
  // ---------------------------------------------------------------------------

  /** Both calls compare before either writes. */
  function Overlapping(r1: Request, r2: Request): seq<Step> {
    [Looks(0, r1), Looks(1, r2), Writes(0, None), Writes(1, None), ReadsBack(0, true), ReadsBack(1, true)]
  }

  /** Both calls of such a run report success. */
  ghost predicate BothSucceed(worlds: seq<World>, r1: Request, r2: Request) {
    var steps := Overlapping(r1, r2);
    && IsRun(worlds, steps) && Reports(worlds, steps, 0, 2, 4) && Reports(worlds, steps, 1, 3, 5)
    && ReadsOk(r1.surface, worlds[4].file, true) && ReadsOk(r2.surface, worlds[5].file, true)
  }

  /** Any two acceptable requests for one surface can overlap: both succeed, and the first leaves no trace. */
  lemma OverlappingCallsBothSucceed(file: File, r1: Request, r2: Request) returns (worlds: seq<World>)
    requires WellFormed(r1) && WellFormed(r2) && r1.surface == r2.surface
    requires Prepare(r1, file).Ok? && Prepare(r2, file).Ok?
    ensures BothSucceed(worlds, r1, r2) && worlds[0] == World(file, map[])
    ensures r1.expected == r2.expected && worlds[6].file == Some(Prepare(r2, file).value)
  {
    var steps := Overlapping(r1, r2);
    var w0 := World(file, map[]);
    var w1 := Next(w0, steps[0]);
    var w2 := Next(w1, steps[1]);
    var w3 := Next(w2, steps[2]);
    var w4 := Next(w3, steps[3]);
    var w5 := Next(w4, steps[4]);
    worlds := [w0, w1, w2, w3, w4, w5, Next(w5, steps[5])];
    PreparedIsLegible(r2, file);
    assert forall i :: 0 <= i < |steps| ==> Enabled(worlds[i], steps[i]) && worlds[i + 1] == Next(worlds[i], steps[i]);
  }

  /** The request that sets one key of a fresh credentials file. */
  function SetOne(key: string): Request {
    Request(CodexAuth, false, map[key := Bool(true)], [key], Sha256(Blank(0)))
  }

  lemma SetOnePrepares(key: string)
    requires key != "" && '.' !in key && key[0] != '/'
    ensures WellFormed(SetOne(key)) && Prepare(SetOne(key), None) == Ok(PrettyJson(map[key := Bool(true)]))
  {
    var req := SetOne(key);
    SplitOfDotFree(key);
    assert IsManagedKey(CodexAuth, key);
    assert req.order[..0] == [];
    assert ApplyAll(CodexAuth, map[], req.values, req.order[..0]) == Ok(map[]);
    assert SplitOnce(key).None?;
    assert ApplyOne(CodexAuth, map[], key, Bool(true)) == Ok(map[key := Bool(true)]);
    assert ApplyAll(CodexAuth, map[], req.values, req.order) == Ok(map[key := Bool(true)]);
  }

  /** A lost update: two keys set by overlapping calls, both reported as set, one of them gone. */
  lemma UpdateLost() returns (worlds: seq<World>)
    ensures BothSucceed(worlds, SetOne("a"), SetOne("b")) && worlds[0] == World(None, map[])
    ensures worlds[6].file == Some(PrettyJson(map["b" := Bool(true)]))
  {
    SetOnePrepares("a");
    SetOnePrepares("b");
    worlds := OverlappingCallsBothSucceed(None, SetOne("a"), SetOne("b"));
  }

  /** The file after a call that nothing overlaps, and whether it reports an error. */
  ghost function Alone(req: Request, torn: Option<File>, readable: bool, file: File): (File, bool)
    requires WellFormed(req)
  {
    var looked := Next(World(file, map[]), Looks(0, req));
    if 0 !in looked.pending then (looked.file, true)
    else
      var wrote := Next(looked, Writes(0, torn));
      if 0 !in wrote.pending then (wrote.file, true)
      else (Next(wrote, ReadsBack(0, readable)).file, !ReadsOk(req.surface, wrote.file, readable))
  }

  /**
    Such a call reports an error and still changes the file exactly when the request was
    acceptable, so that the write was attempted, and either the write was torn to something
    new, or it was whole, made a difference, and could not be read back.
  */
  lemma FailureChangesFileIff(req: Request, torn: Option<File>, readable: bool, file: File)
    requires WellFormed(req) && (req.surface == CodexProfile || PrefixFree(req.values.Keys))
    ensures var (after, error) := Alone(req, torn, readable, file);
            error && after != file <==>
            && Acceptable(req, file)
            && if torn.Some? then torn.value != file
               else !readable && NewContent(req, file).Ok? && Some(NewContent(req, file).value) != file
  {
    PrepareSucceeds(req, file);
    if Prepare(req, file).Ok? { PreparedIsLegible(req, file); }
  }

  /** A torn write can lose everything: a credentials file emptied by a call that reports an error. */
  lemma TornWriteLosesFile(fields: Fields)
    requires "a" !in fields
    ensures var file := Some(PrettyJson(fields));
            var req := SetOne("a").(expected := Sha256(TextOf(file)));
            && WellFormed(req) && Acceptable(req, file)
            && Alone(req, Some(Some(Blank(0))), true, file) == (Some(Blank(0)), true)
  {
    var file := Some(PrettyJson(fields));
    var req := SetOne("a").(expected := Sha256(TextOf(file)));
    SetOnePrepares("a");
    SplitOfDotFree("a");
    assert PrefixFree(req.values.Keys);
    assert Acceptable(req, file);
    PrepareSucceeds(req, file);
  }

  /** A whole write can be reported as an error: the key is set, and the read fails. */
  lemma UnreadWriteReportsError()
    ensures WellFormed(SetOne("a"))
    ensures Alone(SetOne("a"), None, false, None) == (Some(PrettyJson(map["a" := Bool(true)])), true)
  {
    SetOnePrepares("a");
  }

  /** The managed view a successful JSON write reports, from the content it replaced. */
  lemma ReportedView(req: Request, file: File, before: Fields, view: Fields)
    requires WellFormed(req) && req.surface != CodexProfile && Prepare(req, file).Ok?
    requires var obj := if TextOf(file).JsonText? then TextOf(file).root.fields else map[];
             && ConfigView.CleanBatch(req.surface, obj, req.values)
             && (forall key :: ConfigView.Get(before, key) == ConfigView.ViewAt(req.surface, obj, key))
    requires forall key :: ConfigView.Get(view, key)
               == ConfigView.ViewAt(req.surface, Prepare(req, file).value.root.fields, key)
    ensures forall key :: ConfigView.Get(view, key) == ConfigView.Overwritten(before, req.values, key)
  {
    var obj := if TextOf(file).JsonText? then TextOf(file).root.fields else map[];
    ConfigView.WriteThenRead(req.surface, obj, req.values, req.order, before, view);
  }
}
