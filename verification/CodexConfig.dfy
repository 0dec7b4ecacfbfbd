/**
  The TOML profile of the codex provider: `model`, `model_provider` and
  `model_providers.<name>.<field>`, written and read on parsed documents.
*/
module CodexConfig {
  import opened Wrappers
  import opened DottedKeys
  import opened Json
  import opened Toml
  import ProviderConfig
  import ConfigView

  const PROVIDERS: string := "model_providers"

  /** The item at `p`, descending through tables only (inline tables are values). */
  function ItemAt(items: Items, p: Path): Option<Item>
    requires p != []
    decreases |p|
  {
    if p[0] !in items then None
    else if |p| == 1 then Some(items[p[0]])
    else if items[p[0]].Table? then ItemAt(items[p[0]].items, p[1..])
    else None
  }

  /** Sets or removes the item at `p`, creating missing tables on the way. */
  function WriteItem(items: Items, p: Path, w: Option<TomlValue>): Result<Items, string>
    requires p != []
    decreases |p|
  {
    if |p| == 1 then Ok(if w.None? then items - {p[0]} else items[p[0] := Leaf(w.value)])
    else
      var child := if p[0] in items then items[p[0]] else Table(map[]);
      if !child.Table? then Err(p[0] + " must be table")
      else
        match WriteItem(child.items, p[1..], w)
        case Err(e) => Err(e)
        case Ok(below) => Ok(items[p[0] := Table(below)])
  }

  lemma {:induction false} WriteItemFrame(items: Items, p: Path, w: Option<TomlValue>, r: Path)
    requires p != [] && r != [] && WriteItem(items, p, w).Ok? && Apart(p, r)
    ensures ItemAt(WriteItem(items, p, w).value, r) == ItemAt(items, r)
    decreases |p|
  {
    if r[0] == p[0] {
      assert p == [p[0]] + p[1..] && r == [r[0]] + r[1..];
      assert |p| == 1 ==> p <= r;
      assert |r| == 1 ==> r <= p;
      var child := if p[0] in items then items[p[0]] else Table(map[]);
      WriteItemFrame(child.items, p[1..], w, r[1..]);
    }
  }

  lemma {:induction false} WriteItemEffect(items: Items, p: Path, w: Option<TomlValue>)
    requires p != [] && WriteItem(items, p, w).Ok?
    ensures ItemAt(WriteItem(items, p, w).value, p) == if w.None? then None else Some(Leaf(w.value))
    decreases |p|
  {
    if |p| > 1 {
      var child := if p[0] in items then items[p[0]] else Table(map[]);
      WriteItemEffect(child.items, p[1..], w);
    }
  }

  /** Some proper ancestor of `p` is there and is not a table. */
  predicate Obstructed(items: Items, p: Path) {
    exists n :: 0 < n < |p| && ItemAt(items, p[..n]).Some? && !ItemAt(items, p[..n]).value.Table?
  }

  lemma ItemBelow(items: Items, p: Path, n: nat)
    requires 1 < n <= |p|
    ensures ItemAt(items, p[..n]) ==
            if p[0] in items && items[p[0]].Table? then ItemAt(items[p[0]].items, p[1..][..n - 1]) else None
  {
    assert p[..n][1..] == p[1..][..n - 1];
  }

  lemma {:induction false} WriteItemSucceeds(items: Items, p: Path, w: Option<TomlValue>)
    requires p != []
    ensures WriteItem(items, p, w).Ok? <==> !Obstructed(items, p)
    decreases |p|
  {
    if |p| > 1 {
      var child := if p[0] in items then items[p[0]] else Table(map[]);
      assert p[..1] == [p[0]] && ItemAt(items, p[..1]) == if p[0] in items then Some(items[p[0]]) else None;
      if child.Table? {
        WriteItemSucceeds(child.items, p[1..], w);
        if Obstructed(child.items, p[1..]) {
          var n :| 0 < n < |p[1..]| && ItemAt(child.items, p[1..][..n]).Some?
                   && !ItemAt(child.items, p[1..][..n]).value.Table?;
          ItemBelow(items, p, n + 1);
          assert p[1..][..n + 1 - 1] == p[1..][..n];
        }
        if Obstructed(items, p) {
          var n :| 0 < n < |p| && ItemAt(items, p[..n]).Some? && !ItemAt(items, p[..n]).value.Table?;
          assert n != 1;
          ItemBelow(items, p, n);
        }
      }
    }
  }

  /** Above the written place there are tables afterwards, and nothing else before. */
  lemma {:induction false} WriteItemAbove(items: Items, p: Path, w: Option<TomlValue>, r: Path)
    requires p != [] && WriteItem(items, p, w).Ok? && r != [] && r <= p && r != p
    ensures ItemAt(WriteItem(items, p, w).value, r).Some? && ItemAt(WriteItem(items, p, w).value, r).value.Table?
    ensures ItemAt(items, r).Some? ==> ItemAt(items, r).value.Table?
    decreases |p|
  {
    var child := if p[0] in items then items[p[0]] else Table(map[]);
    assert p == [p[0]] + p[1..] && r == [r[0]] + r[1..];
    if |r| > 1 {
      assert r[1..] <= p[1..] && r[1..] != p[1..];
      WriteItemAbove(child.items, p[1..], w, r[1..]);
    }
  }

  // ---------------------------------------------------------------------------
  // Keys and paths
  // ---------------------------------------------------------------------------

  lemma FieldsDotFree(field: string)
    requires field in ProviderConfig.CODEX_PROVIDER_FIELDS
    ensures DotFree(field)
  {
    if field == "name" {
    } else if field == "base_url" {
    } else if field == "wire_api" {
    } else if field == "env_key" {
    } else if field == "requires_openai_auth" {
    } else if field == "experimental_bearer_token" {
    } else if field == "query_params" {
    } else {
      assert field == "http_headers";
    }
  }

  /** The place a key shows: provider names may hold dots, field names do not. */
  function PlaceOf(key: string): Option<Path> {
    if key == "model" || key == "model_provider" then Some([key])
    else
      match StripPrefix(key, "model_providers.")
      case None => None
      case Some(rest) =>
        var segments := Split(rest);
        var n := |segments| - 1;
        if n == 0 || segments[n] !in ProviderConfig.CODEX_PROVIDER_FIELDS then None
        else Some([PROVIDERS, Join(segments[..n]), segments[n]])
  }

  function FieldKey(name: string, field: string): string {
    "model_providers." + (name + "." + field)
  }

  lemma {:induction false} SplitOfSnoc(name: string, field: string)
    requires DotFree(field)
    ensures Split(name + "." + field) == Split(name) + [field]
    decreases |name|
  {
    var s := name + "." + field;
    if name == "" {
      SplitOfCons("", field);
      SplitOfDotFree(field);
      assert "" + "." + field == s;
    } else {
      SplitOfSnoc(name[1..], field);
      assert s[1..] == name[1..] + "." + field;
      var rest := Split(name[1..]);
      assert (rest + [field])[1..] == rest[1..] + [field];
    }
  }

  lemma PlaceOfFieldKey(name: string, field: string)
    requires field in ProviderConfig.CODEX_PROVIDER_FIELDS
    ensures PlaceOf(FieldKey(name, field)) == Some([PROVIDERS, name, field])
  {
    FieldsDotFree(field);
    SplitOfSnoc(name, field);
    JoinOfSplit(name);
    var key, rest := FieldKey(name, field), name + "." + field;
    assert |key| > 16 && key[..16] == "model_providers." && key[16..] == rest;
    assert StripPrefix(key, "model_providers.") == Some(rest);
    assert (Split(name) + [field])[..|Split(name)|] == Split(name);
  }

  lemma {:induction false} JoinOfSnoc(p: Path, last: string)
    requires p != []
    ensures Join(p + [last]) == Join(p) + "." + last
    decreases |p|
  {
    if |p| > 1 {
      JoinOfSnoc(p[1..], last);
      assert (p + [last])[1..] == p[1..] + [last];
    } else {
      assert (p + [last])[1..] == [last];
    }
  }

  /** A place determines its key. */
  lemma KeyOfPlace(key: string)
    requires PlaceOf(key).Some?
    ensures var p := PlaceOf(key).value;
            || p == [key]
            || (|p| == 3 && p[0] == PROVIDERS && p[2] in ProviderConfig.CODEX_PROVIDER_FIELDS
                && key == FieldKey(p[1], p[2]))
  {
    if key != "model" && key != "model_provider" {
      var rest := StripPrefix(key, "model_providers.").value;
      var segments := Split(rest);
      var n := |segments| - 1;
      JoinOfSplit(rest);
      JoinOfSnoc(segments[..n], segments[n]);
      assert segments[..n] + [segments[n]] == segments;
    }
  }

  lemma PlacesApart(key: string, other: string)
    requires PlaceOf(key).Some? && PlaceOf(other).Some? && key != other
    ensures Apart(PlaceOf(key).value, PlaceOf(other).value)
  {
    KeyOfPlace(key);
    KeyOfPlace(other);
    var p, q := PlaceOf(key).value, PlaceOf(other).value;
    assert p != q;
    assert p[0] == q[0] || !(p <= q || q <= p);
    assert (p <= q || q <= p) && |p| == |q| ==> p == q;
  }

  /** A writable key is written where it shows. */
  lemma WrittenWhereShown(key: string)
    requires ProviderConfig.IsManagedKey(ProviderConfig.CodexProfile, key) && key != "model" && key != "model_provider"
    ensures var (name, field) := ProviderConfig.CodexField(key).value;
            PlaceOf(key) == Some([PROVIDERS, name, field])
  {
    var rest := StripPrefix(key, "model_providers.").value;
    var (name, field) := ProviderConfig.CodexField(key).value;
    SplitOnceThenSplit(rest);
    assert key == "model_providers." + rest;
    PlaceOfFieldKey(name, field);
  }

  // ---------------------------------------------------------------------------
  // Writing
  // ---------------------------------------------------------------------------

  /** One iteration of the write loop. */
  function ApplyOne(doc: Items, key: string, val: Value): Result<Items, string> {
    var w := FromJson(val);
    if key == "model" || key == "model_provider" then
      if val.Null? then Ok(doc - {key})
      else if w.None? then Err("null cannot convert to toml value")
      else Ok(doc[key := Leaf(w.value)])
    else
      match ProviderConfig.CodexField(key)
      case None => Err("key not in allowlist: " + key)
      case Some((name, field)) =>
        if val.Null? then WriteItem(doc, [PROVIDERS, name, field], None)
        else
          match WriteItem(doc, [PROVIDERS, name, field], w)
          case Err(e) => Err(e)
          case Ok(after) => if w.None? then Err("null cannot convert to toml value") else Ok(after)
  }

  function ApplyAll(doc: Items, values: Fields, order: seq<string>): Result<Items, string>
    requires forall k :: k in order ==> k in values
  {
    if order == [] then Ok(doc)
    else
      var n := |order| - 1;
      match ApplyAll(doc, values, order[..n])
      case Err(e) => Err(e)
      case Ok(mid) => ApplyOne(mid, order[n], values[order[n]])
  }

  /** `apply_toml_values` on a parsed document. */
  method ApplyTomlValues(root: Items, values: Fields, order: seq<string>) returns (r: Result<Items, string>)
    requires forall k :: k in order ==> k in values
    ensures r == ApplyAll(root, values, order)
  {
    var doc := root;
    for i := 0 to |order|
      invariant ApplyAll(root, values, order[..i]) == Ok(doc)
    {
      assert order[..i + 1][..i] == order[..i];
      var step := ApplyOne(doc, order[i], values[order[i]]);
      if step.Err? {
        ErrorSticks(root, values, order, i + 1);
        return step;
      }
      doc := step.value;
    }
    assert order[..|order|] == order;
    r := Ok(doc);
  }

  lemma {:induction false} ErrorSticks(doc: Items, values: Fields, order: seq<string>, n: nat)
    requires forall k :: k in order ==> k in values
    requires n <= |order| && ApplyAll(doc, values, order[..n]).Err?
    ensures ApplyAll(doc, values, order) == ApplyAll(doc, values, order[..n])
    decreases |order|
  {
    if n == |order| {
      assert order[..n] == order;
    } else {
      var m := |order| - 1;
      assert order[..m][..n] == order[..n];
      ErrorSticks(doc, values, order[..m], n);
    }
  }

  /** A successful iteration stores the converted value in the key's place and touches nothing else. */
  lemma ApplyOneEffect(doc: Items, key: string, val: Value, r: Path)
    requires ApplyOne(doc, key, val).Ok? && r != []
    ensures PlaceOf(key).Some? && (val.Null? || NullFree(val))
    ensures r == PlaceOf(key).value ==>
              ItemAt(ApplyOne(doc, key, val).value, r)
              == if val.Null? then None else Some(Leaf(FromJson(val).value))
    ensures Apart(PlaceOf(key).value, r) ==> ItemAt(ApplyOne(doc, key, val).value, r) == ItemAt(doc, r)
  {
    FromJsonDefined(val);
    var w := if val.Null? then None else FromJson(val);
    if key == "model" || key == "model_provider" {
      assert WriteItem(doc, [key], w) == ApplyOne(doc, key, val);
      WriteItemEffect(doc, [key], w);
      if Apart([key], r) { WriteItemFrame(doc, [key], w, r); }
    } else {
      WrittenWhereShown(key);
      var p := PlaceOf(key).value;
      WriteItemEffect(doc, p, w);
      if Apart(p, r) { WriteItemFrame(doc, p, w, r); }
    }
  }

  // ---------------------------------------------------------------------------
  // Reading
  // ---------------------------------------------------------------------------

  function Shown(item: Option<Item>): Option<Value> {
    if item.None? then None else ItemToJson(item.value)
  }

  function ViewAt(doc: Items, key: string): Option<Value> {
    match PlaceOf(key)
    case None => None
    case Some(p) => Shown(ItemAt(doc, p))
  }

  function FieldIn(table: Items, field: string): Option<Value> {
    if field in table then ItemToJson(table[field]) else None
  }

  function FieldShown(doc: Items, name: string, field: string): Option<Value> {
    if PROVIDERS in doc && doc[PROVIDERS].Table? && name in doc[PROVIDERS].items && doc[PROVIDERS].items[name].Table?
    then FieldIn(doc[PROVIDERS].items[name].items, field)
    else None
  }

  lemma FieldPlace(doc: Items, name: string, field: string)
    requires field in ProviderConfig.CODEX_PROVIDER_FIELDS
    ensures ViewAt(doc, FieldKey(name, field)) == FieldShown(doc, name, field)
  {
    PlaceOfFieldKey(name, field);
    var p := [PROVIDERS, name, field];
    assert p[1..] == [name, field] && p[1..][1..] == [field];
    if PROVIDERS in doc && doc[PROVIDERS].Table? {
      var providers := doc[PROVIDERS].items;
      assert ItemAt(doc, p) == ItemAt(providers, p[1..]);
      if name in providers && providers[name].Table? {
        assert ItemAt(providers, p[1..]) == ItemAt(providers[name].items, [field]);
      }
    }
  }

  method ExtractProvider(name: string, table: Items, out0: Fields) returns (out: Fields)
    ensures forall key :: key in out0 ==> key in out
    ensures forall field :: field in ProviderConfig.CODEX_PROVIDER_FIELDS && FieldIn(table, field).Some? ==>
              FieldKey(name, field) in out
    ensures forall key :: key in out ==>
              ConfigView.Get(out0, key) == Some(out[key])
              || exists field :: field in ProviderConfig.CODEX_PROVIDER_FIELDS
                                 && key == FieldKey(name, field) && FieldIn(table, field) == Some(out[key])
  {
    out := out0;
    var todo := ProviderConfig.CODEX_PROVIDER_FIELDS;
    while todo != {}
      invariant todo <= ProviderConfig.CODEX_PROVIDER_FIELDS
      invariant forall key :: key in out0 ==> key in out
      invariant forall field :: field in ProviderConfig.CODEX_PROVIDER_FIELDS - todo && FieldIn(table, field).Some? ==>
                  FieldKey(name, field) in out
      invariant forall key :: key in out ==>
                  ConfigView.Get(out0, key) == Some(out[key])
                  || exists field :: field in ProviderConfig.CODEX_PROVIDER_FIELDS
                                     && key == FieldKey(name, field) && FieldIn(table, field) == Some(out[key])
    {
      var field :| field in todo;
      if field in table {
        var v := ItemToJson(table[field]);
        if v.Some? { out := out[FieldKey(name, field) := v.value]; }
      }
      todo := todo - {field};
    }
  }

  method ExtractPlain(doc: Items, key: string, out0: Fields) returns (out: Fields)
    requires key == "model" || key == "model_provider"
    ensures forall k ::
              ConfigView.Get(out, k)
              == if k == key && ViewAt(doc, key).Some? then ViewAt(doc, key) else ConfigView.Get(out0, k)
  {
    out := out0;
    if key in doc {
      var v := ItemToJson(doc[key]);
      if v.Some? { out := out[key := v.value]; }
    }
  }

  /** The listed fields of the given providers are all in `out`. */
  ghost predicate Collected(doc: Items, names: set<string>, out: Fields) {
    forall name, field ::
      name in names && field in ProviderConfig.CODEX_PROVIDER_FIELDS && FieldShown(doc, name, field).Some? ==>
        FieldKey(name, field) in out
  }

  /** Adds the fields of every provider to a part of the view. */
  method ExtractProviders(doc: Items, providers: Items, before: Fields) returns (out: Fields)
    requires PROVIDERS in doc && doc[PROVIDERS] == Table(providers)
    requires forall key :: key in before ==> ViewAt(doc, key) == Some(before[key])
    ensures before.Keys <= out.Keys && Collected(doc, providers.Keys, out)
    ensures forall key :: key in out ==> ViewAt(doc, key) == Some(out[key])
  {
    out := before;
    var todo := providers.Keys;
    while todo != {}
      invariant todo <= providers.Keys && before.Keys <= out.Keys
      invariant forall key :: key in out ==> ViewAt(doc, key) == Some(out[key])
      invariant Collected(doc, providers.Keys - todo, out)
    {
      var name :| name in todo;
      if providers[name].Table? {
        out := ExtractProvider(name, providers[name].items, out);
        forall field | field in ProviderConfig.CODEX_PROVIDER_FIELDS
          ensures ViewAt(doc, FieldKey(name, field)) == FieldIn(providers[name].items, field)
        {
          FieldPlace(doc, name, field);
        }
      }
      todo := todo - {name};
    }
    assert providers.Keys - todo == providers.Keys;
  }

  /** A part of the view that has both plain keys and all providers is the whole of it. */
  lemma ViewIsWhole(doc: Items, out: Fields)
    requires forall key :: key in out ==> ViewAt(doc, key) == Some(out[key])
    requires forall key :: key in {"model", "model_provider"} && ViewAt(doc, key).Some? ==> key in out
    requires PROVIDERS in doc && doc[PROVIDERS].Table? ==> Collected(doc, doc[PROVIDERS].items.Keys, out)
    ensures forall key :: ConfigView.Get(out, key) == ViewAt(doc, key)
  {
    forall key ensures ConfigView.Get(out, key) == ViewAt(doc, key) {
      if ViewAt(doc, key).Some? {
        KeyOfPlace(key);
        var p := PlaceOf(key).value;
        if p != [key] { FieldPlace(doc, p[1], p[2]); }
      }
    }
  }

  /** `extract_toml_managed`: the managed view, for every document whatsoever. */
  method ExtractTomlManaged(doc: Items) returns (out: Fields)
    ensures forall key :: ConfigView.Get(out, key) == ViewAt(doc, key)
  {
    out := ExtractPlain(doc, "model", map[]);
    out := ExtractPlain(doc, "model_provider", out);
    assert ConfigView.Get(out, "model") == ViewAt(doc, "model");
    assert ConfigView.Get(out, "model_provider") == ViewAt(doc, "model_provider");
    assert forall key :: key in out ==> ConfigView.Get(out, key) == ViewAt(doc, key);
    if PROVIDERS in doc && doc[PROVIDERS].Table? {
      out := ExtractProviders(doc, doc[PROVIDERS].items, out);
    }
    ViewIsWhole(doc, out);
  }

  /** What a written value shows afterwards; null shows nothing. */
  function Stored(val: Value): Option<Value> {
    match FromJson(val)
    case None => None
    case Some(w) => ToJson(w)
  }

  /**
    Write, then read: after a batch in any order, each written key shows its value
    through the TOML conversion, and every other key, and every item outside the
    written places, is as it was.
  */
  lemma {:induction false} ViewAfterAll(doc: Items, values: Fields, order: seq<string>, key: string)
    requires forall k :: k in order ==> k in values
    requires forall i, j :: 0 <= i < j < |order| ==> order[i] != order[j]
    requires ApplyAll(doc, values, order).Ok?
    ensures forall k :: k in order ==> PlaceOf(k).Some? && (values[k].Null? || NullFree(values[k]))
    ensures key in order ==> ViewAt(ApplyAll(doc, values, order).value, key) == Stored(values[key])
    ensures key in order && IntegersFit(values[key]) ==>
              Stored(values[key]) == if values[key].Null? then None else Some(values[key])
    ensures key !in order ==> ViewAt(ApplyAll(doc, values, order).value, key) == ViewAt(doc, key)
    decreases |order|
  {
    if order != [] {
      var n := |order| - 1;
      var last := order[n];
      assert order == order[..n] + [last];
      ViewAfterAll(doc, values, order[..n], key);
      var before := ApplyAll(doc, values, order[..n]).value;
      ApplyOneEffect(before, last, values[last], [last]);
      if PlaceOf(key).Some? {
        ApplyOneEffect(before, last, values[last], PlaceOf(key).value);
        if key != last { PlacesApart(last, key); }
      }
      FromJsonDefined(values[last]);
      if !values[last].Null? { JsonRoundTrip(values[last]); }
    }
  }

  // ---------------------------------------------------------------------------
  // When a batch succeeds
  // ---------------------------------------------------------------------------

  /** `key` may be written with `val`: allowlisted, convertible, and not below something that is no table. */
  predicate Writable(doc: Items, key: string, val: Value) {
    && ProviderConfig.IsManagedKey(ProviderConfig.CodexProfile, key) && (val.Null? || NullFree(val))
    && PlaceOf(key).Some? && !Obstructed(doc, PlaceOf(key).value)
  }

  lemma ManagedHasPlace(key: string)
    requires ProviderConfig.IsManagedKey(ProviderConfig.CodexProfile, key)
    ensures PlaceOf(key).Some?
  {
    if key != "model" && key != "model_provider" { WrittenWhereShown(key); }
  }

  lemma ApplyOneSucceeds(doc: Items, key: string, val: Value)
    ensures ApplyOne(doc, key, val).Ok? <==> Writable(doc, key, val)
  {
    FromJsonDefined(val);
    if ProviderConfig.IsManagedKey(ProviderConfig.CodexProfile, key) {
      ManagedHasPlace(key);
      var p := PlaceOf(key).value;
      WriteItemSucceeds(doc, p, None);
      WriteItemSucceeds(doc, p, FromJson(val));
      if key != "model" && key != "model_provider" { WrittenWhereShown(key); }
    }
  }

  /** A write neither obstructs nor frees the place of another key. */
  lemma ObstructionUnchanged(doc: Items, key: string, val: Value, other: string)
    requires ApplyOne(doc, key, val).Ok? && PlaceOf(other).Some? && key != other
    ensures Obstructed(ApplyOne(doc, key, val).value, PlaceOf(other).value) <==> Obstructed(doc, PlaceOf(other).value)
  {
    var after, q := ApplyOne(doc, key, val).value, PlaceOf(other).value;
    ApplyOneEffect(doc, key, val, q);
    PlacesApart(key, other);
    var p := PlaceOf(key).value;
    forall n | 0 < n < |q|
      ensures (ItemAt(after, q[..n]).Some? && !ItemAt(after, q[..n]).value.Table?)
              <==> (ItemAt(doc, q[..n]).Some? && !ItemAt(doc, q[..n]).value.Table?)
    {
      var r := q[..n];
      assert p <= r ==> p <= q;
      if r <= p {
        assert r != p;
        AboveOne(doc, key, val, r);
      } else {
        ApplyOneEffect(doc, key, val, r);
      }
    }
  }

  lemma AboveOne(doc: Items, key: string, val: Value, r: Path)
    requires ApplyOne(doc, key, val).Ok? && PlaceOf(key).Some?
    requires r != [] && r <= PlaceOf(key).value && r != PlaceOf(key).value
    ensures ItemAt(ApplyOne(doc, key, val).value, r).Some? && ItemAt(ApplyOne(doc, key, val).value, r).value.Table?
    ensures ItemAt(doc, r).Some? ==> ItemAt(doc, r).value.Table?
  {
    var w := if val.Null? then None else FromJson(val);
    ApplyOneSucceeds(doc, key, val);
    assert key != "model" && key != "model_provider";
    WrittenWhereShown(key);
    WriteItemAbove(doc, PlaceOf(key).value, w, r);
  }

  lemma {:induction false} BatchKeepsObstruction(doc: Items, values: Fields, order: seq<string>, other: string)
    requires forall k :: k in order ==> k in values && k != other
    requires PlaceOf(other).Some? && ApplyAll(doc, values, order).Ok?
    ensures Obstructed(ApplyAll(doc, values, order).value, PlaceOf(other).value) <==>
            Obstructed(doc, PlaceOf(other).value)
    decreases |order|
  {
    if order != [] {
      var n := |order| - 1;
      var before := ApplyAll(doc, values, order[..n]);
      assert before.Ok?;
      BatchKeepsObstruction(doc, values, order[..n], other);
      ObstructionUnchanged(before.value, order[n], values[order[n]], other);
    }
  }

  /** A batch succeeds exactly when each of its keys may be written to the original document. */
  lemma {:induction false} ApplyAllSucceeds(doc: Items, values: Fields, order: seq<string>)
    requires forall k :: k in order ==> k in values
    requires forall i, j :: 0 <= i < j < |order| ==> order[i] != order[j]
    ensures ApplyAll(doc, values, order).Ok? <==> forall k :: k in order ==> Writable(doc, k, values[k])
    decreases |order|
  {
    if order != [] {
      var n := |order| - 1;
      var last := order[n];
      assert order == order[..n] + [last];
      ApplyAllSucceeds(doc, values, order[..n]);
      var before := ApplyAll(doc, values, order[..n]);
      if before.Ok? {
        ApplyOneSucceeds(before.value, last, values[last]);
        if PlaceOf(last).Some? { BatchKeepsObstruction(doc, values, order[..n], last); }
      }
    }
  }

  /** Places never overlap, so two orders of one batch always agree: on success, on the view, on everything else. */
  lemma ApplyOrderIrrelevant(doc: Items, values: Fields, o1: seq<string>, o2: seq<string>)
    requires ProviderConfig.Enumerates(o1, values.Keys) && ProviderConfig.Enumerates(o2, values.Keys)
    ensures var r1, r2 := ApplyAll(doc, values, o1), ApplyAll(doc, values, o2);
            && (r1.Ok? <==> r2.Ok?)
            && (r1.Ok? ==> forall key :: ViewAt(r1.value, key) == ViewAt(r2.value, key))
            && (r1.Ok? ==> forall r: Path ::
                  r != [] && (forall k :: k in values && PlaceOf(k).Some? ==> Apart(PlaceOf(k).value, r)) ==>
                    ItemAt(r1.value, r) == ItemAt(doc, r) == ItemAt(r2.value, r))
  {
    ApplyAllSucceeds(doc, values, o1);
    ApplyAllSucceeds(doc, values, o2);
    var r1, r2 := ApplyAll(doc, values, o1), ApplyAll(doc, values, o2);
    if r1.Ok? {
      forall key ensures ViewAt(r1.value, key) == ViewAt(r2.value, key) {
        ViewAfterAll(doc, values, o1, key);
        ViewAfterAll(doc, values, o2, key);
      }
      forall r: Path | r != [] && forall k :: k in values && PlaceOf(k).Some? ==> Apart(PlaceOf(k).value, r)
        ensures ItemAt(r1.value, r) == ItemAt(doc, r) == ItemAt(r2.value, r)
      {
        assert forall k :: k in values ==> Writable(doc, k, values[k]);
        UnmanagedItemsSurvive(doc, values, o1, r);
        UnmanagedItemsSurvive(doc, values, o2, r);
      }
    }
  }

  /** Every item apart from all written places survives the batch. */
  lemma {:induction false} UnmanagedItemsSurvive(doc: Items, values: Fields, order: seq<string>, r: Path)
    requires forall k :: k in order ==> k in values && PlaceOf(k).Some? && Apart(PlaceOf(k).value, r)
    requires r != [] && ApplyAll(doc, values, order).Ok?
    ensures ItemAt(ApplyAll(doc, values, order).value, r) == ItemAt(doc, r)
    decreases |order|
  {
    if order != [] {
      var n := |order| - 1;
      UnmanagedItemsSurvive(doc, values, order[..n], r);
      ApplyOneEffect(ApplyAll(doc, values, order[..n]).value, order[n], values[order[n]], r);
    }
  }
}
