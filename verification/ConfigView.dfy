/**
  Reading the managed view of a JSON configuration file, and its agreement with
  the write path of module ProviderConfig.
*/
module ConfigView {
  import opened Wrappers
  import opened DottedKeys
  import opened Json
  import opened ConfigTree
  import opened ProviderConfig

  function Get(m: Fields, k: string): Option<Value> {
    if k in m then Some(m[k]) else None
  }

  /** The flattened name of the node at `q` below a node named `prefix`. */
  function JoinBelow(prefix: string, q: Path): string {
    if q == [] then prefix else prefix + "." + Join(q)
  }

  lemma JoinBelowCons(prefix: string, k: string, q: Path)
    ensures JoinBelow(prefix, [k] + q) == JoinBelow(prefix + "." + k, q)
  {
    assert ([k] + q)[1..] == q;
    if q != [] { assert prefix + "." + (k + "." + Join(q)) == prefix + "." + k + "." + Join(q); }
  }

  /** Some leaf of `value` has flattened name `key` and value `v`. */
  ghost predicate Flat(prefix: string, value: Value, key: string, v: Value) {
    exists q: Path :: LeafAt(value, q) == Some(v) && JoinBelow(prefix, q) == key
  }

  lemma FlatChild(prefix: string, value: Value, k: string, key: string, v: Value)
    requires value.Obj? && k in value.fields && Flat(prefix + "." + k, value.fields[k], key, v)
    ensures Flat(prefix, value, key, v)
  {
    var q: Path :| LeafAt(value.fields[k], q) == Some(v) && JoinBelow(prefix + "." + k, q) == key;
    JoinBelowCons(prefix, k, q);
    assert ([k] + q)[1..] == q;
    assert LeafAt(value, [k] + q) == Some(v);
  }

  /**
    `flatten_json_prefix`. The members of an object are visited in no particular
    order, so for documents with dots in their names colliding flattened names may
    keep either value; nothing is invented and no leaf is lost.
  */
  method FlattenPrefix(prefix: string, value: Value, out0: Fields) returns (out: Fields)
    ensures forall key :: key in out ==> Get(out0, key) == Some(out[key]) || Flat(prefix, value, key, out[key])
    ensures forall key :: key in out0 ==> key in out
    ensures forall q :: LeafAt(value, q).Some? ==>
              JoinBelow(prefix, q) in out && Flat(prefix, value, JoinBelow(prefix, q), out[JoinBelow(prefix, q)])
    decreases value
  {
    out := out0;
    if value.Obj? {
      var todo := value.fields.Keys;
      while todo != {}
        invariant todo <= value.fields.Keys
        invariant forall key :: key in out ==> Get(out0, key) == Some(out[key]) || Flat(prefix, value, key, out[key])
        invariant forall key :: key in out0 ==> key in out
        invariant forall k, q :: k in value.fields && k !in todo && LeafAt(value.fields[k], q).Some? ==>
                    JoinBelow(prefix + "." + k, q) in out
                    && Flat(prefix, value, JoinBelow(prefix + "." + k, q), out[JoinBelow(prefix + "." + k, q)])
      {
        var k :| k in todo;
        var key := prefix + "." + k;
        var v := value.fields[k];
        ghost var before := out;
        if v.Obj? {
          out := FlattenPrefix(key, v, out);
        } else {
          assert LeafAt(v, []) == Some(v) && JoinBelow(key, []) == key;
          out := out[key := v];
        }
        assert forall x :: x in out ==> Get(before, x) == Some(out[x]) || Flat(key, v, x, out[x]);
        assert forall q :: LeafAt(v, q).Some? ==>
            JoinBelow(key, q) in out && Flat(key, v, JoinBelow(key, q), out[JoinBelow(key, q)]);
        forall x, y | Flat(key, v, x, y) ensures Flat(prefix, value, x, y) { FlatChild(prefix, value, k, x, y); }
        todo := todo - {k};
      }
      forall q: Path | LeafAt(value, q).Some?
        ensures JoinBelow(prefix, q) in out && Flat(prefix, value, JoinBelow(prefix, q), out[JoinBelow(prefix, q)])
      {
        assert q != [];
        assert q == [q[0]] + q[1..];
        JoinBelowCons(prefix, q[0], q[1..]);
        assert LeafAt(value.fields[q[0]], q[1..]).Some?;
      }
    } else {
      out := out[prefix := value];
      assert LeafAt(value, []) == Some(value) && JoinBelow(prefix, []) == prefix;
      assert forall q: Path :: LeafAt(value, q).Some? ==> q == [];
    }
  }

  /** Some leaf of the document has dotted name `key` and value `v`. */
  ghost predicate Named(obj: Fields, key: string, v: Value) {
    exists p: Path :: p != [] && LeafAt(Obj(obj), p) == Some(v) && Join(p) == key
  }

  lemma FlatIsNamed(obj: Fields, k: string, key: string, v: Value)
    requires k in obj && Flat(k, obj[k], key, v)
    ensures Named(obj, key, v)
  {
    var q: Path :| LeafAt(obj[k], q) == Some(v) && JoinBelow(k, q) == key;
    assert ([k] + q)[1..] == q;
    assert LeafAt(Obj(obj), [k] + q) == Some(v) && Join([k] + q) == key;
  }

  /** In a dot-free document a dotted name has at most one owner: the leaf it spells. */
  lemma NamedIsLeaf(obj: Fields, key: string, v: Value)
    requires DotFreeNames(Obj(obj))
    ensures Named(obj, key, v) <==> LeafAt(Obj(obj), Split(key)) == Some(v)
  {
    if Named(obj, key, v) {
      var p: Path :| p != [] && LeafAt(Obj(obj), p) == Some(v) && Join(p) == key;
      DotFreeNamesPath(Obj(obj), p);
      SplitOfJoin(p);
    }
    JoinOfSplit(key);
  }

  /** The managed value of `key`: the whole member for plain settings, the leaf elsewhere. */
  function ViewAt(surface: Surface, obj: Fields, key: string): Option<Value> {
    match surface
    case ClaudeProfile => if IsManagedKey(surface, key) then At(Obj(obj), Split(key)) else None
    case OpencodeProfile =>
      if key == "model" || key == "small_model" then Get(obj, key)
      else if IsManagedKey(surface, key) then LeafAt(Obj(obj), Split(key))
      else None
    case ClaudeAuth | CodexAuth | OpencodeAuth => LeafAt(Obj(obj), Split(key))
    case CodexProfile => None
  }

  method ExtractAuth(obj: Fields) returns (out: Fields)
    ensures forall key :: key in out ==> Named(obj, key, out[key])
    ensures forall p: Path :: p != [] && LeafAt(Obj(obj), p).Some? ==> Join(p) in out
  {
    out := map[];
    var todo := obj.Keys;
    while todo != {}
      invariant todo <= obj.Keys
      invariant forall key :: key in out ==> Named(obj, key, out[key])
      invariant forall k, q :: k in obj && k !in todo && LeafAt(obj[k], q).Some? ==> JoinBelow(k, q) in out
    {
      var k :| k in todo;
      out := FlattenPrefix(k, obj[k], out);
      forall x, y | Flat(k, obj[k], x, y) ensures Named(obj, x, y) { FlatIsNamed(obj, k, x, y); }
      todo := todo - {k};
    }
    forall p: Path | p != [] && LeafAt(Obj(obj), p).Some? ensures Join(p) in out {
      assert LeafAt(obj[p[0]], p[1..]).Some?;
      assert JoinBelow(p[0], p[1..]) == Join(p);
    }
  }

  /** Adds the allowlisted names of a flattened `provider` subtree. */
  method AddManaged(plain: Fields, flattened: Fields) returns (out: Fields)
    requires forall key :: key in flattened ==> key !in {"model", "small_model"}
    ensures Get(out, "model") == Get(plain, "model") && Get(out, "small_model") == Get(plain, "small_model")
    ensures forall key :: key in out && key !in plain ==>
              IsManagedKey(OpencodeProfile, key) && Get(flattened, key) == Some(out[key])
    ensures forall key :: key in flattened && IsManagedKey(OpencodeProfile, key) ==> key in out
  {
    out := plain;
    var todo := flattened.Keys;
    while todo != {}
      invariant todo <= flattened.Keys
      invariant Get(out, "model") == Get(plain, "model") && Get(out, "small_model") == Get(plain, "small_model")
      invariant forall key :: key in out && key !in plain ==>
                  IsManagedKey(OpencodeProfile, key) && Get(flattened, key) == Some(out[key])
      invariant forall key :: key in flattened && key !in todo && IsManagedKey(OpencodeProfile, key) ==> key in out
    {
      var key :| key in todo;
      if IsManagedKey(OpencodeProfile, key) { out := out[key := flattened[key]]; }
      todo := todo - {key};
    }
  }

  lemma ProviderNames(obj: Fields, key: string, v: Value)
    requires "provider" in obj && Flat("provider", obj["provider"], key, v)
    ensures Named(obj, key, v) && key !in {"model", "small_model"}
  {
    FlatIsNamed(obj, "provider", key, v);
    assert key[0] == 'p';
  }

  /** Flattens `provider` and keeps only the allowlisted names. */
  method ExtractOpencode(obj: Fields) returns (out: Fields)
    ensures forall key :: key in out && key != "model" && key != "small_model" ==>
              IsManagedKey(OpencodeProfile, key) && Named(obj, key, out[key])
    ensures Get(out, "model") == Get(obj, "model") && Get(out, "small_model") == Get(obj, "small_model")
    ensures forall p: Path ::
              p != [] && p[0] == "provider" && LeafAt(Obj(obj), p).Some? && IsManagedKey(OpencodeProfile, Join(p)) ==>
                Join(p) in out
  {
    out := map[];
    if "model" in obj { out := out["model" := obj["model"]]; }
    if "small_model" in obj { out := out["small_model" := obj["small_model"]]; }
    if "provider" in obj {
      var flattened := FlattenPrefix("provider", obj["provider"], map[]);
      forall key | key in flattened ensures Named(obj, key, flattened[key]) && key !in {"model", "small_model"} {
        ProviderNames(obj, key, flattened[key]);
      }
      out := AddManaged(out, flattened);
      forall p: Path | p != [] && p[0] == "provider" && LeafAt(Obj(obj), p).Some? ensures Join(p) in flattened {
        assert LeafAt(obj["provider"], p[1..]).Some?;
        assert JoinBelow("provider", p[1..]) == Join(p);
      }
    }
  }

  const CLAUDE_ENV_NAMES: seq<string> := [
    "ANTHROPIC_BASE_URL", "ANTHROPIC_AUTH_TOKEN", "ANTHROPIC_API_KEY",
    "ANTHROPIC_MODEL", "ANTHROPIC_SMALL_FAST_MODEL"
  ]

  function Setting(obj: Fields, key: string): Option<Value> {
    if key == "model" || key == "fallbackModel" then Get(obj, key)
    else
      match StripPrefix(key, "env.")
      case None => None
      case Some(name) =>
        if name in CLAUDE_ENV_ALLOW && "env" in obj && obj["env"].Obj? then Get(obj["env"].fields, name) else None
  }

  method ExtractClaude(obj: Fields) returns (out: Fields)
    ensures forall key :: Get(out, key) == Setting(obj, key)
  {
    out := map[];
    if "model" in obj { out := out["model" := obj["model"]]; }
    if "fallbackModel" in obj { out := out["fallbackModel" := obj["fallbackModel"]]; }
    if "env" in obj && obj["env"].Obj? {
      var env := obj["env"].fields;
      for i := 0 to |CLAUDE_ENV_NAMES|
        invariant Get(out, "model") == Get(obj, "model") && Get(out, "fallbackModel") == Get(obj, "fallbackModel")
        invariant forall key :: key in out && key != "model" && key != "fallbackModel" ==>
                    StripPrefix(key, "env.").Some? && StripPrefix(key, "env.").value in CLAUDE_ENV_NAMES[..i]
                    && Get(env, StripPrefix(key, "env.").value) == Some(out[key])
        invariant forall name :: name in CLAUDE_ENV_NAMES[..i] && name in env ==> "env." + name in out
      {
        var name := CLAUDE_ENV_NAMES[i];
        assert CLAUDE_ENV_NAMES[..i + 1] == CLAUDE_ENV_NAMES[..i] + [name];
        if name in env {
          assert StripPrefix("env." + name, "env.") == Some(name);
          assert ("env." + name)[0] == 'e';
          out := out["env." + name := env[name]];
        }
      }
      assert CLAUDE_ENV_NAMES[..|CLAUDE_ENV_NAMES|] == CLAUDE_ENV_NAMES;
    }
    forall key ensures Get(out, key) == Setting(obj, key) {
      if StripPrefix(key, "env.").Some? { assert key == "env." + StripPrefix(key, "env.").value; }
    }
  }

  lemma AtOne(obj: Fields, k: string)
    ensures At(Obj(obj), [k]) == Get(obj, k)
  {
    assert [k][1..] == [];
    if k in obj { assert At(obj[k], []) == Some(obj[k]); }
  }

  lemma AtTwo(obj: Fields, k: string, l: string)
    ensures At(Obj(obj), [k, l]) == if k in obj && obj[k].Obj? then Get(obj[k].fields, l) else None
  {
    assert [k, l][1..] == [l];
    if k in obj && obj[k].Obj? {
      AtOne(obj[k].fields, l);
      assert At(Obj(obj), [k, l]) == At(obj[k], [l]) && obj[k] == Obj(obj[k].fields);
    }
  }

  lemma SettingIsView(obj: Fields, key: string)
    ensures Setting(obj, key) == ViewAt(ClaudeProfile, obj, key)
  {
    BranchPath(ClaudeProfile, key);
    if key == "model" || key == "fallbackModel" {
      AtOne(obj, key);
    } else if StripPrefix(key, "env.").Some? {
      AtTwo(obj, "env", StripPrefix(key, "env.").value);
    }
  }

  /** A managed provider key spells a path below `provider`. */
  lemma ProviderKeyPath(key: string)
    requires IsManagedKey(OpencodeProfile, key) && key != "model" && key != "small_model"
    ensures Split(key)[0] == "provider" && |Split(key)| > 1
  {
    BranchPath(OpencodeProfile, key);
  }

  /** `extract_json_managed` returns the managed view of every document without dotted names. */
  method ExtractJsonManaged(surface: Surface, obj: Fields) returns (out: Fields)
    ensures surface == ClaudeProfile || DotFreeNames(Obj(obj)) ==>
              forall key :: Get(out, key) == ViewAt(surface, obj, key)
  {
    match surface
    case ClaudeProfile =>
      out := ExtractClaude(obj);
      forall key ensures Get(out, key) == ViewAt(surface, obj, key) { SettingIsView(obj, key); }
    case OpencodeProfile =>
      out := ExtractOpencode(obj);
      if DotFreeNames(Obj(obj)) {
        forall key ensures Get(out, key) == ViewAt(surface, obj, key) { OpencodeViewUnique(obj, out, key); }
      }
    case ClaudeAuth | CodexAuth | OpencodeAuth =>
      out := ExtractAuth(obj);
      if DotFreeNames(Obj(obj)) {
        forall key ensures Get(out, key) == LeafAt(Obj(obj), Split(key)) { AuthViewUnique(obj, out, key); }
      }
    case CodexProfile => out := map[];
  }

  lemma AuthViewUnique(obj: Fields, out: Fields, key: string)
    requires DotFreeNames(Obj(obj))
    requires forall k :: k in out ==> Named(obj, k, out[k])
    requires forall p: Path :: p != [] && LeafAt(Obj(obj), p).Some? ==> Join(p) in out
    ensures Get(out, key) == LeafAt(Obj(obj), Split(key))
  {
    JoinOfSplit(key);
    if key in out { NamedIsLeaf(obj, key, out[key]); }
  }

  lemma OpencodeViewUnique(obj: Fields, out: Fields, key: string)
    requires DotFreeNames(Obj(obj))
    requires forall k :: k in out && k != "model" && k != "small_model" ==>
               IsManagedKey(OpencodeProfile, k) && Named(obj, k, out[k])
    requires Get(out, "model") == Get(obj, "model") && Get(out, "small_model") == Get(obj, "small_model")
    requires forall p: Path ::
               p != [] && p[0] == "provider" && LeafAt(Obj(obj), p).Some? && IsManagedKey(OpencodeProfile, Join(p)) ==>
                 Join(p) in out
    ensures Get(out, key) == ViewAt(OpencodeProfile, obj, key)
  {
    JoinOfSplit(key);
    if key != "model" && key != "small_model" && IsManagedKey(OpencodeProfile, key) {
      ProviderKeyPath(key);
      if key in out { NamedIsLeaf(obj, key, out[key]); }
    }
  }

  // ---------------------------------------------------------------------------
  // Reading back what was written
  // ---------------------------------------------------------------------------

  /** `key` shows a whole member, which may itself be an object. */
  predicate WholeMember(surface: Surface, key: string) {
    surface == ClaudeProfile || (surface == OpencodeProfile && (key == "model" || key == "small_model"))
  }

  /** The managed value of `key` after one write of `val` to `written`. */
  function ViewAfter(surface: Surface, obj: Fields, written: string, val: Value, key: string): Option<Value> {
    if key == written then (if val.Null? then None else Some(val))
    else if Split(written) <= Split(key) then None
    else ViewAt(surface, obj, key)
  }

  /** The two shapes of a managed profile path: one plain setting, or a longer path. */
  lemma ManagedPath(surface: Surface, key: string)
    requires IsManagedKey(surface, key)
    ensures surface == ClaudeProfile ==>
              (Split(key) == [key] && key != "env") || (|Split(key)| == 2 && Split(key)[0] == "env")
    ensures surface == OpencodeProfile && (key == "model" || key == "small_model") ==> Split(key) == [key]
    ensures surface == OpencodeProfile && key != "model" && key != "small_model" ==>
              |Split(key)| > 1 && Split(key)[0] == "provider"
  {
    BranchPath(surface, key);
  }

  /** Keys that show whole members are never above or below another managed key. */
  lemma WholeMembersApart(surface: Surface, written: string, key: string)
    requires IsManagedKey(surface, written) && IsManagedKey(surface, key) && written != key
    requires WholeMember(surface, key) || WholeMember(surface, written)
    ensures Apart(Split(written), Split(key)) && Split(key) != ["env"]
  {
    var p, q := Split(written), Split(key);
    ManagedPath(surface, written);
    ManagedPath(surface, key);
    assert p != q by { if p == q { SplitInjective(written, key); } }
    assert p[0] == q[0] || !(p <= q || q <= p);
    assert (p <= q || q <= p) && |p| == |q| ==> p == q;
  }

  lemma {:induction false} ViewAfterOne(surface: Surface, obj: Fields, written: string, val: Value, key: string)
    requires IsManagedKey(surface, written) && ApplyOne(surface, obj, written, val).Ok?
    requires WholeMember(surface, written) || !val.Obj?
    ensures ViewAt(surface, ApplyOne(surface, obj, written, val).value, key)
            == ViewAfter(surface, obj, written, val, key)
  {
    var after := ApplyOne(surface, obj, written, val).value;
    if key == written {
      ApplyOneEffect(surface, obj, written, val);
      MemberIsAt(surface, after, key);
    } else if WholeMember(surface, key) && IsManagedKey(surface, key) {
      WholeMembersApart(surface, written, key);
      ApplyOneFrame(surface, obj, written, val, Split(key));
      MemberIsAt(surface, obj, key);
      MemberIsAt(surface, after, key);
    } else {
      ApplyOneLeaves(surface, obj, written, val, Split(key));
      if Split(written) <= Split(key) {
        var below := Split(key)[|Split(written)|..];
        if below == [] { assert Split(key) == Split(written); SplitInjective(written, key); assert false; }
        if WholeMember(surface, written) && IsManagedKey(surface, key) {
          WholeMembersApart(surface, written, key);
          assert false;
        }
      }
    }
  }

  lemma MemberIsAt(surface: Surface, obj: Fields, key: string)
    requires IsManagedKey(surface, key) && surface != CodexProfile
    ensures WholeMember(surface, key) ==> ViewAt(surface, obj, key) == At(Obj(obj), Split(key))
    ensures !WholeMember(surface, key) ==> ViewAt(surface, obj, key) == LeafAt(Obj(obj), Split(key))
  {
    BranchPath(surface, key);
    if key == "model" || key == "small_model" { assert Split(key)[1..] == []; }
  }

  /** Every listed key is managed, and written with a value its view shows in one piece. */
  ghost predicate Readable(surface: Surface, values: Fields, order: seq<string>)
    requires forall k :: k in order ==> k in values
  {
    order == [] ||
    var n := |order| - 1;
    && IsManagedKey(surface, order[n])
    && (WholeMember(surface, order[n]) || !values[order[n]].Obj?)
    && Readable(surface, values, order[..n])
  }

  lemma {:induction false} AllReadable(surface: Surface, values: Fields, order: seq<string>)
    requires forall k :: k in order ==> k in values && IsManagedKey(surface, k)
    requires forall k :: k in order ==> WholeMember(surface, k) || !values[k].Obj?
    ensures Readable(surface, values, order)
    decreases |order|
  {
    if order != [] { AllReadable(surface, values, order[..|order| - 1]); }
  }

  /**
    The managed view after a batch: written keys show their value or are gone, keys
    below a written key are gone, and every other managed key shows what it did.
  */
  lemma {:induction false} ViewAfterAll(surface: Surface, obj: Fields, values: Fields, order: seq<string>, key: string)
    requires forall k :: k in order ==> k in values
    requires Readable(surface, values, order)
    requires Spread(order)
    requires ApplyAll(surface, obj, values, order).Ok?
    ensures var after := ApplyAll(surface, obj, values, order).value;
            && (key in order ==> ViewAt(surface, after, key) == if values[key].Null? then None else Some(values[key]))
            && (key !in order && (exists k :: k in order && Split(k) <= Split(key)) ==>
                  ViewAt(surface, after, key) == None)
            && ((forall k :: k in order ==> !(Split(k) <= Split(key))) ==>
                  ViewAt(surface, after, key) == ViewAt(surface, obj, key))
    decreases |order|
  {
    if order != [] {
      var n := |order| - 1;
      var last := order[n];
      assert order == order[..n] + [last];
      ViewAfterAll(surface, obj, values, order[..n], key);
      var before := ApplyAll(surface, obj, values, order[..n]).value;
      ViewAfterOne(surface, before, last, values[last], key);
      assert key in order ==> Split(key) <= Split(key);
    }
  }

  lemma {:induction false} ApplyAllKeepsDotFree(surface: Surface, obj: Fields, values: Fields, order: seq<string>)
    requires forall k :: k in order ==> k in values && DotFreeNames(values[k])
    requires DotFreeNames(Obj(obj)) && ApplyAll(surface, obj, values, order).Ok?
    ensures DotFreeNames(Obj(ApplyAll(surface, obj, values, order).value))
    decreases |order|
  {
    if order != [] {
      var n := |order| - 1;
      ApplyAllKeepsDotFree(surface, obj, values, order[..n]);
      ApplyOneKeepsDotFree(surface, ApplyAll(surface, obj, values, order[..n]).value, order[n], values[order[n]]);
    }
  }

  /** `view` with the keys of `values` overwritten or deleted, and the keys below them gone. */
  ghost function Overwritten(view: Fields, values: Fields, key: string): Option<Value> {
    if key in values then (if values[key].Null? then None else Some(values[key]))
    else if exists k :: k in values && Split(k) <= Split(key) then None
    else Get(view, key)
  }

  /** Managed keys apart from each other, with values and a document that read back in one piece. */
  ghost predicate CleanBatch(surface: Surface, obj: Fields, values: Fields) {
    && surface != CodexProfile && PrefixFree(values.Keys)
    && (forall k :: k in values ==> IsManagedKey(surface, k) && (WholeMember(surface, k) || !values[k].Obj?))
    && (surface == ClaudeProfile || (DotFreeNames(Obj(obj)) && forall k :: k in values ==> DotFreeNames(values[k])))
  }

  /**
    Write, then read: extracting before and after a clean batch differs in exactly the
    written keys and the keys below them, whatever the order of the writes.
  */
  lemma WriteThenRead(surface: Surface, obj: Fields, values: Fields, order: seq<string>, before: Fields, view: Fields)
    requires Enumerates(order, values.Keys) && CleanBatch(surface, obj, values)
    requires forall key :: Get(before, key) == ViewAt(surface, obj, key)
    requires ApplyAll(surface, obj, values, order).Ok?
    requires forall key :: Get(view, key) == ViewAt(surface, ApplyAll(surface, obj, values, order).value, key)
    ensures surface == ClaudeProfile || DotFreeNames(Obj(ApplyAll(surface, obj, values, order).value))
    ensures forall key :: Get(view, key) == Overwritten(before, values, key)
  {
    EnumerationSpread(order, values.Keys);
    AllReadable(surface, values, order);
    if surface != ClaudeProfile { ApplyAllKeepsDotFree(surface, obj, values, order); }
    forall key ensures Get(view, key) == Overwritten(before, values, key) {
      ViewAfterAll(surface, obj, values, order, key);
    }
  }

  /** A clean batch succeeds exactly when no written path runs through an existing leaf. */
  lemma CleanBatchSucceeds(surface: Surface, obj: Fields, values: Fields, order: seq<string>)
    requires Enumerates(order, values.Keys) && CleanBatch(surface, obj, values)
    ensures ApplyAll(surface, obj, values, order).Ok? <==> forall k :: k in values ==> !Blocked(obj, Split(k))
  {
    EnumerationSpread(order, values.Keys);
    ApplyAllSucceeds(surface, obj, values, order);
  }
}
