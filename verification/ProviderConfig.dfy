/**
  Managed keys of the provider-native JSON configuration files: which keys may be
  written, how a batch of writes is applied, and how the managed view is read back.
*/
module ProviderConfig {
  import opened Wrappers
  import opened DottedKeys
  import opened Json
  import opened ConfigTree

  /** The supported (provider_type, config_key) pairs. */
  datatype Surface =
    | ClaudeProfile | ClaudeAuth
    | CodexProfile | CodexAuth
    | OpencodeProfile | OpencodeAuth
  {
    predicate IsAuth() { ClaudeAuth? || CodexAuth? || OpencodeAuth? }
  }

  const CLAUDE_ENV_ALLOW: set<string> := {
    "ANTHROPIC_BASE_URL", "ANTHROPIC_AUTH_TOKEN", "ANTHROPIC_API_KEY",
    "ANTHROPIC_MODEL", "ANTHROPIC_SMALL_FAST_MODEL"
  }

  const CODEX_PROVIDER_FIELDS: set<string> := {
    "name", "base_url", "wire_api", "env_key", "requires_openai_auth",
    "experimental_bearer_token", "query_params", "http_headers"
  }

  predicate NonEmptyTail(s: string, prefix: string) {
    StripPrefix(s, prefix).Some? && StripPrefix(s, prefix).value != ""
  }

  /** Data-only fields under `provider.<name>.`; package-loading fields stay out. */
  predicate IsOpencodeProviderKey(rest: string) {
    match SplitOnce(rest)
    case None => false
    case Some((_, path)) =>
      if path == "name" || NonEmptyTail(path, "options.") then true
      else
        match StripPrefix(path, "models.")
        case None => false
        case Some(modelRest) =>
          match SplitOnce(modelRest)
          case None => false
          case Some((_, field)) => field == "name" || NonEmptyTail(field, "limit.")
  }

  predicate HasDotDot(s: string) {
    exists i :: 0 <= i < |s| - 1 && s[i] == '.' && s[i + 1] == '.'
  }

  predicate IsManagedKey(surface: Surface, key: string) {
    match surface
    case ClaudeProfile =>
      key == "model" || key == "fallbackModel"
      || (StripPrefix(key, "env.").Some? && StripPrefix(key, "env.").value in CLAUDE_ENV_ALLOW)
    case ClaudeAuth => false
    case CodexProfile =>
      key == "model" || key == "model_provider" || CodexField(key).Some?
    case CodexAuth | OpencodeAuth => key != "" && !HasDotDot(key) && !("/" <= key)
    case OpencodeProfile =>
      key == "model" || key == "small_model"
      || (StripPrefix(key, "provider.").Some? && IsOpencodeProviderKey(StripPrefix(key, "provider.").value))
  }

  /** `model_providers.<name>.<field>` with an allowed field: its name and field. */
  function CodexField(key: string): Option<(string, string)> {
    match StripPrefix(key, "model_providers.")
    case None => None
    case Some(rest) =>
      match SplitOnce(rest)
      case None => None
      case Some((name, field)) => if field in CODEX_PROVIDER_FIELDS then Some((name, field)) else None
  }

  /** One iteration of the write loop: the branch taken for `key`. */
  function ApplyOne(surface: Surface, obj: Fields, key: string, val: Value): Result<Fields, string> {
    match surface
    case ClaudeProfile =>
      if key == "model" || key == "fallbackModel" then Ok(SetOrRemove(obj, key, val))
      else if StripPrefix(key, "env.").Some? then
        var name := StripPrefix(key, "env.").value;
        if name !in CLAUDE_ENV_ALLOW then Err("env subkey not allowed: " + name)
        else WriteEnv(obj, name, val)
      else Err("key not in allowlist: " + key)
    case OpencodeProfile =>
      if key == "model" || key == "small_model" then Ok(SetOrRemove(obj, key, val))
      else if StripPrefix(key, "provider.").Some? && IsOpencodeProviderKey(StripPrefix(key, "provider.").value) then
        WriteAt(obj, ["provider"] + Split(StripPrefix(key, "provider.").value), val)
      else Err("key not in allowlist: " + key)
    case ClaudeAuth | CodexAuth | OpencodeAuth =>
      match SplitOnce(key) {
        case Some((head, rest)) => WriteAt(obj, [head] + Split(rest), val)
        case None => Ok(SetOrRemove(obj, key, val))
      }
    case CodexProfile => Err("write not supported for this surface")
  }

  /** The write loop over `order`, a listing of the keys of `values`. */
  function ApplyAll(surface: Surface, obj: Fields, values: Fields, order: seq<string>): Result<Fields, string>
    requires forall k :: k in order ==> k in values
  {
    if order == [] then Ok(obj)
    else
      var n := |order| - 1;
      match ApplyAll(surface, obj, values, order[..n])
      case Err(e) => Err(e)
      case Ok(mid) => ApplyOne(surface, mid, order[n], values[order[n]])
  }

  /** `apply_json_values` on a parsed root object. */
  method ApplyJsonValues(surface: Surface, root: Fields, values: Fields, order: seq<string>)
    returns (r: Result<Fields, string>)
    requires forall k :: k in order ==> k in values
    ensures r == ApplyAll(surface, root, values, order)
  {
    var obj := root;
    for i := 0 to |order|
      invariant ApplyAll(surface, root, values, order[..i]) == Ok(obj)
    {
      assert order[..i + 1][..i] == order[..i];
      var step := ApplyOne(surface, obj, order[i], values[order[i]]);
      if step.Err? {
        ErrorSticks(surface, root, values, order, i + 1);
        return step;
      }
      obj := step.value;
    }
    assert order[..|order|] == order;
    r := Ok(obj);
  }

  /** The first error of the loop is its result. */
  lemma {:induction false} ErrorSticks(surface: Surface, obj: Fields, values: Fields, order: seq<string>, n: nat)
    requires forall k :: k in order ==> k in values
    requires n <= |order| && ApplyAll(surface, obj, values, order[..n]).Err?
    ensures ApplyAll(surface, obj, values, order) == ApplyAll(surface, obj, values, order[..n])
    decreases |order|
  {
    if n == |order| {
      assert order[..n] == order;
    } else {
      var m := |order| - 1;
      assert order[..m][..n] == order[..n];
      ErrorSticks(surface, obj, values, order[..m], n);
    }
  }

  // ---------------------------------------------------------------------------
  // The allowlist below `provider`
  // ---------------------------------------------------------------------------

  /** A dot-free prefix and its dot are one segment in front. */
  lemma PrefixIsSegment(s: string, head: string)
    requires DotFree(head)
    ensures StripPrefix(s, head + ".").Some? <==> |Split(s)| > 1 && Split(s)[0] == head
    ensures StripPrefix(s, head + ".").Some? ==>
              Split(s)[1..] == Split(StripPrefix(s, head + ".").value)
              && StripPrefix(s, head + ".").value == Join(Split(s)[1..])
  {
    JoinOfSplit(s);
    if StripPrefix(s, head + ".").Some? {
      var tail := StripPrefix(s, head + ".").value;
      assert s == head + "." + tail;
      SplitOfCons(head, tail);
      JoinOfSplit(tail);
      assert ([head] + Split(tail))[1..] == Split(tail);
    }
  }

  /** A path names something below: more than one empty segment. */
  predicate NamesSomething(p: Path) { |p| > 1 || (|p| == 1 && p[0] != "") }

  lemma JoinNonEmpty(p: Path)
    requires |p| >= 1
    ensures Join(p) != "" <==> NamesSomething(p)
  {
  }

  /** What may be written below `provider.<name>`: its name, its options, and name and limits of its models. */
  predicate AllowedShape(p: Path) {
    || p == ["name"]
    || (|p| > 1 && p[0] == "options" && NamesSomething(p[1..]))
    || (|p| == 3 && p[0] == "models" && p[2] == "name")
    || (|p| > 3 && p[0] == "models" && p[2] == "limit" && NamesSomething(p[3..]))
  }

  lemma IsOneSegment(s: string, name: string)
    requires DotFree(name)
    ensures s == name <==> Split(s) == [name]
  {
    SplitOfDotFree(name);
    if Split(s) == [name] { SplitInjective(s, name); }
  }

  lemma TailAllowed(s: string, head: string)
    requires DotFree(head)
    ensures NonEmptyTail(s, head + ".") <==> |Split(s)| > 1 && Split(s)[0] == head && NamesSomething(Split(s)[1..])
  {
    PrefixIsSegment(s, head);
    if StripPrefix(s, head + ".").Some? { JoinNonEmpty(Split(s)[1..]); }
  }

  /** A key below `provider` is allowed exactly if what follows the provider's name has one of the four shapes. */
  lemma OpencodeKeyShapes(rest: string)
    ensures IsOpencodeProviderKey(rest) <==> |Split(rest)| > 1 && AllowedShape(Split(rest)[1..])
  {
    SplitOnceThenSplit(rest);
    if SplitOnce(rest).Some? {
      var path := SplitOnce(rest).value.1;
      assert Split(rest)[1..] == Split(path);
      IsOneSegment(path, "name");
      TailAllowed(path, "options");
      assert "options" + "." == "options." && "models" + "." == "models." && "limit" + "." == "limit.";
      PrefixIsSegment(path, "models");
      if StripPrefix(path, "models.").Some? {
        var modelRest := StripPrefix(path, "models.").value;
        SplitOnceThenSplit(modelRest);
        if SplitOnce(modelRest).Some? {
          var field := SplitOnce(modelRest).value.1;
          IsOneSegment(field, "name");
          TailAllowed(field, "limit");
          assert Split(path)[1..][1..] == Split(field) && Split(path)[2..] == Split(field);
          assert Split(path)[3..] == Split(field)[1..];
        }
      }
    }
  }

  lemma ProviderRest(rest: string)
    ensures IsManagedKey(OpencodeProfile, "provider." + rest) <==> IsOpencodeProviderKey(rest)
  {
    var key := "provider." + rest;
    assert key[0] == 'p' && key[9..] == rest;
    assert StripPrefix(key, "provider.") == Some(rest);
  }

  /** Said of the path below `provider`: the provider's name, and then one of the four shapes. */
  lemma ProviderPathManaged(p: Path)
    requires |p| >= 1 && DotFreePath(p)
    ensures IsManagedKey(OpencodeProfile, "provider." + Join(p)) <==> |p| > 1 && AllowedShape(p[1..])
  {
    SplitOfJoin(p);
    ProviderRest(Join(p));
    OpencodeKeyShapes(Join(p));
  }

  /** Keys that could make the provider load code are refused: the provider itself, its package, a model's provider. */
  lemma CodeLoadingRefused(name: string, model: string, below: Path)
    requires DotFree(name) && DotFree(model) && DotFreePath(below)
    ensures !IsManagedKey(OpencodeProfile, "provider." + Join([name]))
    ensures !IsManagedKey(OpencodeProfile, "provider." + Join([name, "npm"]))
    ensures !IsManagedKey(OpencodeProfile, "provider." + Join([name, "models", model, "provider"] + below))
  {
    assert DotFree("npm") && DotFree("models") && DotFree("provider");
    ProviderPathManaged([name]);
    ProviderPathManaged([name, "npm"]);
    ModelProviderRefused(name, model, below);
  }

  lemma ModelProviderRefused(name: string, model: string, below: Path)
    requires DotFree(name) && DotFree(model) && DotFreePath(below)
    ensures !IsManagedKey(OpencodeProfile, "provider." + Join([name, "models", model, "provider"] + below))
  {
    var p := [name, "models", model, "provider"] + below;
    assert DotFree("models") && DotFree("provider");
    ProviderPathManaged(p);
    assert p[1..][0] == "models" && p[1..][2] == "provider";
  }

  // ---------------------------------------------------------------------------
  // The keys of credentials files
  // ---------------------------------------------------------------------------

  predicate EmptyInside(p: Path) { exists i :: 0 < i < |p| - 1 && p[i] == "" }

  /** Two dots in a row are an empty segment between two others. */
  lemma {:induction false} DotDotIsEmptySegment(s: string)
    ensures HasDotDot(s) <==> EmptyInside(Split(s))
    ensures s != "" && s[0] == '.' ==> Split(s)[0] == ""
    ensures Split(s)[0] == "" && |Split(s)| > 1 ==> s != "" && s[0] == '.'
  {
    if s != "" {
      var rest := s[1..];
      DotDotIsEmptySegment(rest);
      var p, q := Split(s), Split(rest);
      assert forall i :: 0 <= i < |rest| ==> rest[i] == s[i + 1];
      if i :| 0 <= i < |rest| - 1 && rest[i] == '.' && rest[i + 1] == '.' { assert s[i + 1] == '.' && s[i + 2] == '.'; }
      if i :| 0 <= i < |s| - 1 && s[i] == '.' && s[i + 1] == '.' {
        if i > 0 { assert rest[i - 1] == '.' && rest[i] == '.'; }
      }
      if s[0] == '.' {
        assert forall i :: 0 <= i < |q| ==> p[i + 1] == q[i];
        if i :| 0 < i < |q| - 1 && q[i] == "" { assert p[i + 1] == ""; }
        if i :| 0 < i < |p| - 1 && p[i] == "" { assert q[i - 1] == ""; }
        if |q| > 1 && q[0] == "" { assert p[1] == ""; }
      } else {
        assert forall i :: 0 < i < |q| ==> p[i] == q[i];
        if i :| 0 < i < |q| - 1 && q[i] == "" { assert p[i] == ""; }
        if i :| 0 < i < |p| - 1 && p[i] == "" { assert q[i] == ""; }
      }
    }
  }

  /** A key of a credentials file is allowed if it is not empty, not rooted, and passes no member with an empty name. */
  lemma AuthKeysAllowed(key: string)
    ensures IsManagedKey(CodexAuth, key) <==> key != "" && key[0] != '/' && !EmptyInside(Split(key))
    ensures IsManagedKey(OpencodeAuth, key) <==> IsManagedKey(CodexAuth, key)
    ensures !IsManagedKey(ClaudeAuth, key)
  {
    DotDotIsEmptySegment(key);
  }

  // ---------------------------------------------------------------------------
  // What a batch of writes does
  // ---------------------------------------------------------------------------

  /** `order` lists every element of `keys` exactly once. */
  ghost predicate Enumerates(order: seq<string>, keys: set<string>) {
    && (forall k :: k in order <==> k in keys)
    && (forall i, j :: 0 <= i < j < |order| ==> order[i] != order[j])
  }

  /** No key's path is a prefix of another key's path. */
  ghost predicate PrefixFree(keys: set<string>) {
    forall k, l :: k in keys && l in keys && k != l ==> !(Split(k) <= Split(l))
  }

  /** Auth files take any key; the profiles check their allowlist once more. */
  predicate Accepts(surface: Surface, key: string) {
    surface.IsAuth() || (surface != CodexProfile && IsManagedKey(surface, key))
  }

  lemma EnvNamesDotFree(name: string)
    requires name in CLAUDE_ENV_ALLOW
    ensures DotFree(name)
  {
    if name == "ANTHROPIC_BASE_URL" {
    } else if name == "ANTHROPIC_AUTH_TOKEN" {
    } else if name == "ANTHROPIC_API_KEY" {
    } else if name == "ANTHROPIC_MODEL" {
    } else {
      assert name == "ANTHROPIC_SMALL_FAST_MODEL";
    }
  }

  /** Whatever branch is taken, the written path is the key split at its dots. */
  lemma BranchPath(surface: Surface, key: string)
    ensures surface == ClaudeProfile && StripPrefix(key, "env.").Some?
            && StripPrefix(key, "env.").value in CLAUDE_ENV_ALLOW ==>
              Split(key) == ["env", StripPrefix(key, "env.").value]
    ensures StripPrefix(key, "provider.").Some? ==>
              Split(key) == ["provider"] + Split(StripPrefix(key, "provider.").value)
    ensures key == "model" || key == "fallbackModel" || key == "small_model" ==> Split(key) == [key]
  {
    if StripPrefix(key, "env.").Some? {
      var name := StripPrefix(key, "env.").value;
      assert key == "env" + "." + name;
      SplitOfCons("env", name);
      if name in CLAUDE_ENV_ALLOW { EnvNamesDotFree(name); SplitOfDotFree(name); }
    }
    if StripPrefix(key, "provider.").Some? {
      assert key == "provider" + "." + StripPrefix(key, "provider.").value;
      SplitOfCons("provider", StripPrefix(key, "provider.").value);
    }
    if key == "model" || key == "fallbackModel" || key == "small_model" { SplitOfDotFree(key); }
  }

  /** One iteration succeeds exactly for an accepted key whose path is not blocked. */
  lemma ApplyOneSucceeds(surface: Surface, obj: Fields, key: string, val: Value)
    ensures ApplyOne(surface, obj, key, val).Ok? <==> Accepts(surface, key) && !Blocked(obj, Split(key))
  {
    BranchPath(surface, key);
    SplitOnceThenSplit(key);
    WriteAtSucceedsIffUnblocked(obj, Split(key), val);
  }

  /** One iteration changes the leaves at and below its own path and no other. */
  lemma ApplyOneLeaves(surface: Surface, obj: Fields, key: string, val: Value, r: Path)
    requires ApplyOne(surface, obj, key, val).Ok?
    ensures LeafAt(Obj(ApplyOne(surface, obj, key, val).value), r) == LeafAfter(obj, Split(key), val, r)
  {
    BranchPath(surface, key);
    SplitOnceThenSplit(key);
    if surface == ClaudeProfile && key != "model" && key != "fallbackModel" {
      WriteEnvLeaves(obj, StripPrefix(key, "env.").value, val, r);
    } else {
      WriteAtLeaves(obj, Split(key), val, r);
    }
  }

  /** Whole subtrees, not only leaves, survive next to the written path. */
  lemma ApplyOneFrame(surface: Surface, obj: Fields, key: string, val: Value, r: Path)
    requires ApplyOne(surface, obj, key, val).Ok? && Apart(Split(key), r) && r != ["env"]
    ensures At(Obj(ApplyOne(surface, obj, key, val).value), r) == At(Obj(obj), r)
  {
    BranchPath(surface, key);
    SplitOnceThenSplit(key);
    WriteAtSucceedsIffUnblocked(obj, Split(key), val);
    ApplyOneSucceeds(surface, obj, key, val);
    WriteAtFrame(obj, Split(key), val, r);
    if surface == ClaudeProfile && key != "model" && key != "fallbackModel" {
      var mid := WriteAt(obj, Split(key), val).value;
      if mid["env"] == Obj(map[]) && r[0] == "env" {
        assert At(Obj(mid), r) == At(Obj(map[]), r[1..]);
      }
    }
  }

  lemma ApplyOneEffect(surface: Surface, obj: Fields, key: string, val: Value)
    requires ApplyOne(surface, obj, key, val).Ok?
    ensures At(Obj(ApplyOne(surface, obj, key, val).value), Split(key)) == if val.Null? then None else Some(val)
  {
    BranchPath(surface, key);
    SplitOnceThenSplit(key);
    ApplyOneSucceeds(surface, obj, key, val);
    WriteAtSucceedsIffUnblocked(obj, Split(key), val);
    WriteAtEffect(obj, Split(key), val);
  }

  lemma ApplyOneKeepsDotFree(surface: Surface, obj: Fields, key: string, val: Value)
    requires ApplyOne(surface, obj, key, val).Ok? && DotFreeNames(Obj(obj)) && DotFreeNames(val)
    ensures DotFreeNames(Obj(ApplyOne(surface, obj, key, val).value))
  {
    BranchPath(surface, key);
    SplitOnceThenSplit(key);
    SplitSegmentsDotFree(key);
    ApplyOneSucceeds(surface, obj, key, val);
    WriteAtSucceedsIffUnblocked(obj, Split(key), val);
    WriteAtKeepsDotFree(obj, Split(key), val);
  }

  /** A write never blocks or unblocks a path it is not a prefix of. */
  lemma BlockedUnchanged(surface: Surface, obj: Fields, key: string, val: Value, q: Path)
    requires ApplyOne(surface, obj, key, val).Ok? && !(Split(key) <= q)
    ensures Blocked(ApplyOne(surface, obj, key, val).value, q) <==> Blocked(obj, q)
  {
    var after := ApplyOne(surface, obj, key, val).value;
    forall n | 0 < n < |q| ensures LeafAt(Obj(after), q[..n]) == LeafAt(Obj(obj), q[..n]) {
      assert Split(key) <= q[..n] ==> Split(key) <= q;
      ApplyOneLeaves(surface, obj, key, val, q[..n]);
    }
  }

  /** The listed keys are distinct and no path among them is a prefix of another. */
  ghost predicate Spread(order: seq<string>) {
    order == [] ||
    var n := |order| - 1;
    && (forall k :: k in order[..n] ==> Apart(Split(k), Split(order[n])))
    && Spread(order[..n])
  }

  lemma {:induction false} EnumerationSpread(order: seq<string>, keys: set<string>)
    requires Enumerates(order, keys) && PrefixFree(keys)
    ensures Spread(order)
    decreases |order|
  {
    if order != [] {
      var n := |order| - 1;
      assert order == order[..n] + [order[n]];
      assert PrefixFree(keys - {order[n]});
      EnumerationSpread(order[..n], keys - {order[n]});
    }
  }

  /**
    A prefix-free batch succeeds exactly when every key is accepted and no written
    path runs through an existing leaf. Neither condition depends on the order.
  */
  lemma {:induction false} ApplyAllSucceeds(surface: Surface, obj: Fields, values: Fields, order: seq<string>)
    requires forall k :: k in order ==> k in values
    requires Spread(order)
    ensures ApplyAll(surface, obj, values, order).Ok? <==>
            forall k :: k in order ==> Accepts(surface, k) && !Blocked(obj, Split(k))
    decreases |order|
  {
    if order != [] {
      var n := |order| - 1;
      var last := order[n];
      assert order == order[..n] + [last];
      ApplyAllSucceeds(surface, obj, values, order[..n]);
      var before := ApplyAll(surface, obj, values, order[..n]);
      if before.Ok? {
        ApplyOneSucceeds(surface, before.value, last, values[last]);
        BatchKeepsBlocked(surface, obj, values, order[..n], Split(last));
      }
    }
  }

  lemma {:induction false} BatchKeepsBlocked(surface: Surface, obj: Fields, values: Fields, order: seq<string>, q: Path)
    requires forall k :: k in order ==> k in values && !(Split(k) <= q)
    requires ApplyAll(surface, obj, values, order).Ok?
    ensures Blocked(ApplyAll(surface, obj, values, order).value, q) <==> Blocked(obj, q)
    decreases |order|
  {
    if order != [] {
      var n := |order| - 1;
      BatchKeepsBlocked(surface, obj, values, order[..n], q);
      BlockedUnchanged(surface, ApplyAll(surface, obj, values, order[..n]).value, order[n], values[order[n]], q);
    }
  }

  /**
    The leaves after a prefix-free batch: below a written path stands the written
    value, and every other leaf is untouched.
  */
  lemma {:induction false} ApplyAllLeaves(surface: Surface, obj: Fields, values: Fields, order: seq<string>, r: Path)
    requires forall k :: k in order ==> k in values
    requires Spread(order)
    requires ApplyAll(surface, obj, values, order).Ok?
    ensures forall k :: k in order && Split(k) <= r ==>
              LeafAt(Obj(ApplyAll(surface, obj, values, order).value), r)
              == if values[k].Null? then None else LeafAt(values[k], r[|Split(k)|..])
    ensures (forall k :: k in order ==> !(Split(k) <= r)) ==>
              LeafAt(Obj(ApplyAll(surface, obj, values, order).value), r) == LeafAt(Obj(obj), r)
    decreases |order|
  {
    if order != [] {
      var n := |order| - 1;
      var last := order[n];
      assert order == order[..n] + [last];
      ApplyAllLeaves(surface, obj, values, order[..n], r);
      ApplyOneLeaves(surface, ApplyAll(surface, obj, values, order[..n]).value, last, values[last], r);
      forall k | k in order[..n] && Split(k) <= r ensures !(Split(last) <= r) {
        if Split(last) <= r { ComparablePrefixes(Split(k), Split(last), r); assert false; }
      }
    }
  }

  lemma ComparablePrefixes(p: Path, q: Path, r: Path)
    requires p <= r && q <= r
    ensures p <= q || q <= p
  {
    assert p == r[..|p|] && q == r[..|q|];
  }

  /** Two listings of the same batch: same success, same leaves everywhere. */
  lemma ApplyOrderIrrelevant(surface: Surface, obj: Fields, values: Fields, order1: seq<string>, order2: seq<string>)
    requires Enumerates(order1, values.Keys) && Enumerates(order2, values.Keys) && PrefixFree(values.Keys)
    ensures var r1, r2 := ApplyAll(surface, obj, values, order1), ApplyAll(surface, obj, values, order2);
            && (r1.Ok? <==> r2.Ok?)
            && (r1.Ok? ==> forall r :: LeafAt(Obj(r1.value), r) == LeafAt(Obj(r2.value), r))
  {
    EnumerationSpread(order1, values.Keys);
    EnumerationSpread(order2, values.Keys);
    ApplyAllSucceeds(surface, obj, values, order1);
    ApplyAllSucceeds(surface, obj, values, order2);
    var r1, r2 := ApplyAll(surface, obj, values, order1), ApplyAll(surface, obj, values, order2);
    if r1.Ok? {
      forall r ensures LeafAt(Obj(r1.value), r) == LeafAt(Obj(r2.value), r) {
        ApplyAllLeaves(surface, obj, values, order1, r);
        ApplyAllLeaves(surface, obj, values, order2, r);
        if k :| k in values && Split(k) <= r { assert k in order1 && k in order2; }
      }
    }
  }

  // ---------------------------------------------------------------------------
  // Overlapping keys
  // ---------------------------------------------------------------------------

  predicate PlainValue(v: Value) { !v.Null? && !v.Obj? }

  /** Where one path is a prefix of another, both keys are removed. */
  ghost predicate OverlapsOnlyRemoved(values: Fields) {
    forall k, l :: k in values && l in values && k != l && Split(k) <= Split(l) ==> values[k].Null? && values[l].Null?
  }

  /** Every key may be written to `obj` on its own. */
  ghost predicate EachWritable(surface: Surface, obj: Fields, values: Fields) {
    forall k :: k in values ==> Accepts(surface, k) && !Blocked(obj, Split(k))
  }

  /** All orders of the batch agree on success and on every leaf. */
  ghost predicate OrdersAgree(surface: Surface, obj: Fields, values: Fields) {
    forall o1, o2 :: Enumerates(o1, values.Keys) && Enumerates(o2, values.Keys) ==>
      var r1, r2 := ApplyAll(surface, obj, values, o1), ApplyAll(surface, obj, values, o2);
      && (r1.Ok? <==> r2.Ok?)
      && (r1.Ok? ==> forall r :: LeafAt(Obj(r1.value), r) == LeafAt(Obj(r2.value), r))
  }

  /** A plain value leaves every path blocked that was, and blocks every path below it. */
  lemma PlainWriteBlocks(surface: Surface, obj: Fields, key: string, val: Value, q: Path)
    requires PlainValue(val) && ApplyOne(surface, obj, key, val).Ok?
    requires Blocked(obj, q) || (Split(key) <= q && Split(key) != q)
    ensures Blocked(ApplyOne(surface, obj, key, val).value, q)
  {
    var after, p := ApplyOne(surface, obj, key, val).value, Split(key);
    if p <= q {
      ApplyOneSucceeds(surface, obj, key, val);
      assert p == q ==> Blocked(obj, p);
      ApplyOneEffect(surface, obj, key, val);
      assert q[..|p|] == p && LeafAt(Obj(after), q[..|p|]).Some?;
    } else {
      BlockedUnchanged(surface, obj, key, val, q);
    }
  }

  /** A key that cannot be written on its own fails the batch in every order. */
  lemma {:induction false} HopelessKeyFails(
    surface: Surface, obj: Fields, values: Fields, order: seq<string>, key: string)
    requires forall k :: k in order ==> k in values && PlainValue(values[k])
    requires !(Accepts(surface, key) && !Blocked(obj, Split(key)))
    ensures key in order ==> ApplyAll(surface, obj, values, order).Err?
    ensures ApplyAll(surface, obj, values, order).Ok? && Blocked(obj, Split(key)) ==>
              Blocked(ApplyAll(surface, obj, values, order).value, Split(key))
    decreases |order|
  {
    if order != [] {
      var n := |order| - 1;
      assert order == order[..n] + [order[n]];
      HopelessKeyFails(surface, obj, values, order[..n], key);
      var before := ApplyAll(surface, obj, values, order[..n]);
      if before.Ok? {
        ApplyOneSucceeds(surface, before.value, order[n], values[order[n]]);
        if Blocked(obj, Split(key)) && ApplyOne(surface, before.value, order[n], values[order[n]]).Ok? {
          PlainWriteBlocks(surface, before.value, order[n], values[order[n]], Split(key));
        }
      }
    }
  }

  /** No later key's path lies strictly below an earlier one's. */
  ghost predicate DeepestFirst(order: seq<string>) {
    order == [] ||
    var n := |order| - 1;
    (forall k :: k in order[..n] ==> !(Split(k) <= Split(order[n]))) && DeepestFirst(order[..n])
  }

  lemma {:induction false} DeepestFirstSucceeds(surface: Surface, obj: Fields, values: Fields, order: seq<string>)
    requires forall k :: k in order ==> k in values && Accepts(surface, k) && !Blocked(obj, Split(k))
    requires DeepestFirst(order)
    ensures ApplyAll(surface, obj, values, order).Ok?
    decreases |order|
  {
    if order != [] {
      var n := |order| - 1;
      assert order == order[..n] + [order[n]];
      DeepestFirstSucceeds(surface, obj, values, order[..n]);
      BatchKeepsBlocked(surface, obj, values, order[..n], Split(order[n]));
      ApplyOneSucceeds(surface, ApplyAll(surface, obj, values, order[..n]).value, order[n], values[order[n]]);
    }
  }

  /** One of the shortest paths among `keys`. */
  lemma {:induction false} Shortest(keys: set<string>) returns (k: string)
    requires keys != {}
    ensures k in keys && forall l :: l in keys ==> |Split(k)| <= |Split(l)|
    decreases |keys|
  {
    k :| k in keys;
    if keys != {k} {
      var m := Shortest(keys - {k});
      if |Split(m)| < |Split(k)| { k := m; }
    }
  }

  lemma {:induction false} ListDeepestFirst(keys: set<string>) returns (order: seq<string>)
    ensures Enumerates(order, keys) && DeepestFirst(order)
    decreases |keys|
  {
    if keys == {} {
      order := [];
    } else {
      var k := Shortest(keys);
      var rest := ListDeepestFirst(keys - {k});
      order := rest + [k];
      assert order[..|rest|] == rest;
      forall l | l in rest ensures !(Split(l) <= Split(k)) {
        if Split(l) <= Split(k) {
          assert |Split(l)| == |Split(k)|;
          SplitInjective(l, k);
          assert false;
        }
      }
    }
  }

  /** With `k` first and a path below it second, the batch fails. */
  lemma ParentFirstFails(surface: Surface, obj: Fields, values: Fields, k: string, l: string, rest: seq<string>)
    requires k in values && l in values && k != l && Split(k) <= Split(l) && PlainValue(values[k])
    requires forall m :: m in rest ==> m in values
    ensures ApplyAll(surface, obj, values, [k, l] + rest).Err?
  {
    var order := [k, l] + rest;
    assert order[..1] == [k] && order[..2] == [k, l] && [k, l][..1] == [k] && [k][..0] == [];
    assert Split(k) != Split(l) by { if Split(k) == Split(l) { SplitInjective(k, l); } }
    var one := ApplyAll(surface, obj, values, [k]);
    assert ApplyAll(surface, obj, values, [k][..0]) == Ok(obj);
    assert one == ApplyOne(surface, obj, k, values[k]);
    if one.Ok? {
      PlainWriteBlocks(surface, obj, k, values[k], Split(l));
      ApplyOneSucceeds(surface, one.value, l, values[l]);
    }
    assert ApplyAll(surface, obj, values, [k, l]).Err?;
    ErrorSticks(surface, obj, values, order, 2);
  }

  /** A removal leaves no blocked path below it. */
  lemma RemovalUnblocks(surface: Surface, obj: Fields, key: string, q: Path)
    requires ApplyOne(surface, obj, key, Null).Ok? && Split(key) <= q
    ensures !Blocked(ApplyOne(surface, obj, key, Null).value, q)
  {
    var after, p := ApplyOne(surface, obj, key, Null).value, Split(key);
    ApplyOneSucceeds(surface, obj, key, Null);
    forall n | 0 < n < |q| ensures LeafAt(Obj(after), q[..n]).None? {
      ApplyOneLeaves(surface, obj, key, Null, q[..n]);
      if n < |p| {
        assert q[..n] == p[..n];
      } else {
        assert p <= q[..n];
      }
    }
  }

  lemma {:induction false} CompatibleSucceeds(
    surface: Surface, obj: Fields, values: Fields, order: seq<string>, q: Path)
    requires forall k :: k in order ==> k in values && Accepts(surface, k) && !Blocked(obj, Split(k))
    requires OverlapsOnlyRemoved(values) && forall i, j :: 0 <= i < j < |order| ==> order[i] != order[j]
    ensures ApplyAll(surface, obj, values, order).Ok?
    ensures !Blocked(obj, q) && (forall k :: k in order && Split(k) <= q ==> values[k].Null?) ==>
              !Blocked(ApplyAll(surface, obj, values, order).value, q)
    decreases |order|
  {
    if order != [] {
      var n := |order| - 1;
      var last := order[n];
      assert order == order[..n] + [last];
      CompatibleSucceeds(surface, obj, values, order[..n], q);
      CompatibleSucceeds(surface, obj, values, order[..n], Split(last));
      var before := ApplyAll(surface, obj, values, order[..n]).value;
      ApplyOneSucceeds(surface, before, last, values[last]);
      if Split(last) <= q {
        if values[last].Null? { RemovalUnblocks(surface, before, last, q); }
      } else {
        BlockedUnchanged(surface, before, last, values[last], q);
      }
    }
  }

  /** The leaf at `r`, whichever key at or above it is asked. */
  lemma {:induction false} CompatibleLeaves(surface: Surface, obj: Fields, values: Fields, order: seq<string>, r: Path)
    requires forall k :: k in order ==> k in values
    requires OverlapsOnlyRemoved(values) && forall i, j :: 0 <= i < j < |order| ==> order[i] != order[j]
    requires ApplyAll(surface, obj, values, order).Ok?
    ensures forall k :: k in order && Split(k) <= r ==>
              LeafAt(Obj(ApplyAll(surface, obj, values, order).value), r)
              == if values[k].Null? then None else LeafAt(values[k], r[|Split(k)|..])
    ensures (forall k :: k in order ==> !(Split(k) <= r)) ==>
              LeafAt(Obj(ApplyAll(surface, obj, values, order).value), r) == LeafAt(Obj(obj), r)
    decreases |order|
  {
    if order != [] {
      var n := |order| - 1;
      var last := order[n];
      assert order == order[..n] + [last];
      CompatibleLeaves(surface, obj, values, order[..n], r);
      ApplyOneLeaves(surface, ApplyAll(surface, obj, values, order[..n]).value, last, values[last], r);
      forall k | k in order[..n] && Split(k) <= r && Split(last) <= r ensures values[k].Null? && values[last].Null? {
        ComparablePrefixes(Split(k), Split(last), r);
        assert k != last;
      }
    }
  }

  lemma CompatibleAgree(surface: Surface, obj: Fields, values: Fields)
    requires EachWritable(surface, obj, values) && OverlapsOnlyRemoved(values)
    ensures OrdersAgree(surface, obj, values)
  {
    forall o1, o2 | Enumerates(o1, values.Keys) && Enumerates(o2, values.Keys)
      ensures var r1, r2 := ApplyAll(surface, obj, values, o1), ApplyAll(surface, obj, values, o2);
              r1.Ok? && r2.Ok? && forall r :: LeafAt(Obj(r1.value), r) == LeafAt(Obj(r2.value), r)
    {
      CompatibleSucceeds(surface, obj, values, o1, []);
      CompatibleSucceeds(surface, obj, values, o2, []);
      var r1, r2 := ApplyAll(surface, obj, values, o1), ApplyAll(surface, obj, values, o2);
      forall r ensures LeafAt(Obj(r1.value), r) == LeafAt(Obj(r2.value), r) {
        CompatibleLeaves(surface, obj, values, o1, r);
        CompatibleLeaves(surface, obj, values, o2, r);
        if k :| k in values && Split(k) <= r { assert k in o1 && k in o2; }
      }
    }
  }

  /** Deepest first, a removed key hides everything below it in the end. */
  lemma {:induction false} RemovedLast(
    surface: Surface, obj: Fields, values: Fields, order: seq<string>, k: string, r: Path)
    requires forall m :: m in order ==> m in values && !values[m].Obj?
    requires DeepestFirst(order) && ApplyAll(surface, obj, values, order).Ok?
    requires k in order && values[k].Null? && Split(k) <= r && Split(k) != r
    ensures LeafAt(Obj(ApplyAll(surface, obj, values, order).value), r).None?
    decreases |order|
  {
    var n := |order| - 1;
    var last := order[n];
    assert order == order[..n] + [last];
    ApplyOneLeaves(surface, ApplyAll(surface, obj, values, order[..n]).value, last, values[last], r);
    if k in order[..n] {
      RemovedLast(surface, obj, values, order[..n], k, r);
      if Split(last) <= r {
        ComparablePrefixes(Split(k), Split(last), r);
        assert |Split(last)| < |r|;
      }
    }
  }

  /** Written last, a plain value shows. */
  lemma LastShows(surface: Surface, obj: Fields, values: Fields, order: seq<string>, l: string)
    requires forall m :: m in order ==> m in values
    requires l in values && PlainValue(values[l])
    ensures var r := ApplyAll(surface, obj, values, order + [l]);
            r.Ok? ==> LeafAt(Obj(r.value), Split(l)).Some?
  {
    var all := order + [l];
    assert all[..|order|] == order;
    if ApplyAll(surface, obj, values, all).Ok? {
      ApplyOneEffect(surface, ApplyAll(surface, obj, values, order).value, l, values[l]);
    }
  }

  lemma EnumerateWithPair(keys: set<string>, k: string, l: string, rest: seq<string>)
    requires k in keys && l in keys && k != l && Enumerates(rest, keys - {k, l})
    ensures Enumerates([k, l] + rest, keys) && Enumerates(rest + [k] + [l], keys)
  {
  }

  lemma Disagree(surface: Surface, obj: Fields, values: Fields, o1: seq<string>, o2: seq<string>, r: Path)
    requires Enumerates(o1, values.Keys) && Enumerates(o2, values.Keys)
    requires var r1, r2 := ApplyAll(surface, obj, values, o1), ApplyAll(surface, obj, values, o2);
             r1.Ok? && (r2.Ok? ==> LeafAt(Obj(r1.value), r) != LeafAt(Obj(r2.value), r))
    ensures !OrdersAgree(surface, obj, values)
  {
  }

  /** Some order fails, or disagrees with the deepest-first one about the leaf of `l`. */
  lemma OverlapDisagrees(surface: Surface, obj: Fields, values: Fields, k: string, l: string)
    requires forall m :: m in values ==> !values[m].Obj?
    requires EachWritable(surface, obj, values)
    requires k in values && l in values && k != l && Split(k) <= Split(l) && !(values[k].Null? && values[l].Null?)
    ensures !OrdersAgree(surface, obj, values)
  {
    var good := ListDeepestFirst(values.Keys);
    DeepestFirstSucceeds(surface, obj, values, good);
    var rest := ListDeepestFirst(values.Keys - {k, l});
    EnumerateWithPair(values.Keys, k, l, rest);
    if PlainValue(values[k]) {
      ParentFirstFails(surface, obj, values, k, l, rest);
      Disagree(surface, obj, values, good, [k, l] + rest, Split(l));
    } else {
      assert Split(k) != Split(l) by { if Split(k) == Split(l) { SplitInjective(k, l); } }
      RemovedLast(surface, obj, values, good, k, Split(l));
      LastShows(surface, obj, values, rest + [k], l);
      Disagree(surface, obj, values, good, rest + [k] + [l], Split(l));
    }
  }

  /**
    Exactly when a batch of keys, each of which could be written on its own, does not
    depend on its order: wherever one key's path is a prefix of another's, both are removed.
  */
  lemma OrdersAgreeIff(surface: Surface, obj: Fields, values: Fields)
    requires forall k :: k in values ==> !values[k].Obj?
    requires EachWritable(surface, obj, values)
    ensures OrdersAgree(surface, obj, values) <==> OverlapsOnlyRemoved(values)
  {
    if OverlapsOnlyRemoved(values) {
      CompatibleAgree(surface, obj, values);
    } else {
      var k, l :| k in values && l in values && k != l && Split(k) <= Split(l) && !(values[k].Null? && values[l].Null?);
      OverlapDisagrees(surface, obj, values, k, l);
    }
  }

  /** Without removals that is prefix-freeness. */
  lemma PlainOrdersAgreeIff(surface: Surface, obj: Fields, values: Fields)
    requires forall k :: k in values ==> PlainValue(values[k])
    ensures EachWritable(surface, obj, values) ==> (OrdersAgree(surface, obj, values) <==> PrefixFree(values.Keys))
    ensures !EachWritable(surface, obj, values) ==>
              forall order :: Enumerates(order, values.Keys) ==> ApplyAll(surface, obj, values, order).Err?
  {
    if EachWritable(surface, obj, values) {
      OrdersAgreeIff(surface, obj, values);
    } else {
      var key :| key in values && !(Accepts(surface, key) && !Blocked(obj, Split(key)));
      forall order | Enumerates(order, values.Keys) ensures ApplyAll(surface, obj, values, order).Err? {
        HopelessKeyFails(surface, obj, values, order, key);
      }
    }
  }

  /** Without prefix-freeness the listing order decides between error and success. */
  lemma OverlappingKeysDependOnOrder()
    ensures var values: Fields := map["a" := Bool(true), "a.b" := Bool(false)];
            && ApplyAll(CodexAuth, map[], values, ["a", "a.b"]).Err?
            && ApplyAll(CodexAuth, map[], values, ["a.b", "a"]).Ok?
            && LeafAt(Obj(ApplyAll(CodexAuth, map[], values, ["a.b", "a"]).value), ["a"]) == Some(Bool(true))
  {
    var values: Fields := map["a" := Bool(true), "a.b" := Bool(false)];
    SplitOfDotFree("a");
    SplitOfDotFree("b");
    SplitOfCons("a", "b");
    assert "a.b" == "a" + "." + "b";
    SplitOnceThenSplit("a.b");
    SplitOnceThenSplit("a");
    assert Split("a.b") == ["a", "b"];
    var o1, o2 := ["a", "a.b"], ["a.b", "a"];
    assert o1[..1] == ["a"] && o1[..1][..0] == [] && o2[..1] == ["a.b"] && o2[..1][..0] == [];
    var m1 := ApplyAll(CodexAuth, map[], values, o1[..1]);
    assert ApplyAll(CodexAuth, map[], values, []) == Ok(map[]);
    assert m1 == Ok(SetOrRemove(map[], "a", Bool(true)));
    assert LeafAt(Obj(m1.value), ["a"]) == Some(Bool(true)) by { assert ["a"][1..] == []; }
    assert Split("a.b")[..1] == ["a"];
    ApplyOneSucceeds(CodexAuth, m1.value, "a.b", Bool(false));
    ApplyOneSucceeds(CodexAuth, map[], "a.b", Bool(false));
    assert At(Obj(map[]), ["a"]) == None;
    var m2 := ApplyAll(CodexAuth, map[], values, o2[..1]);
    ApplyOneSucceeds(CodexAuth, m2.value, "a", Bool(true));
    ApplyOneEffect(CodexAuth, m2.value, "a", Bool(true));
  }
}
