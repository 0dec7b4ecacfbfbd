/** TOML values and items, and their conversion from and to JSON. */
module Toml {
  import opened Wrappers
  import opened Json

  datatype FloatNumber = Finite(r: real) | NotFinite(bits: int)

  datatype TomlValue =
    | TStr(s: string)
    | TInt(i: int)
    | TFloat(f: FloatNumber)
    | TBool(b: bool)
    | TDatetime(text: string)
    | TArray(items: seq<TomlValue>)
    | TInline(fields: map<string, TomlValue>)

  datatype Item =
    | Leaf(value: TomlValue)
    | Table(items: Items)
    | TableArray(tables: seq<Items>)

  type Items = map<string, Item>

  const I64_MIN: int := -0x8000_0000_0000_0000
  const I64_MAX: int := 0x7FFF_FFFF_FFFF_FFFF

  predicate FitsI64(i: int) { I64_MIN <= i <= I64_MAX }

  /** `json_to_toml_value`: the integer form is preferred, then the floating one. */
  function FromJson(v: Value): Option<TomlValue> {
    match v
    case Null => None
    case Bool(b) => Some(TBool(b))
    case Num(Integer(i)) => Some(if FitsI64(i) then TInt(i) else TFloat(Finite(i as real)))
    case Num(Float(f)) => Some(TFloat(Finite(f)))
    case Str(s) => Some(TStr(s))
    case Arr(items) =>
      if forall i :: 0 <= i < |items| ==> FromJson(items[i]).Some?
      then Some(TArray(seq(|items|, i requires 0 <= i < |items| => FromJson(items[i]).value)))
      else None
    case Obj(fields) =>
      if forall k :: k in fields ==> FromJson(fields[k]).Some?
      then Some(TInline(map k | k in fields :: FromJson(fields[k]).value))
      else None
  }

  /** `toml_value_to_json`: an array needs all its items, an inline table drops what does not convert. */
  function ToJson(v: TomlValue): Option<Value> {
    match v
    case TStr(s) => Some(Str(s))
    case TInt(i) => Some(Num(Integer(i)))
    case TFloat(Finite(r)) => Some(Num(Float(r)))
    case TFloat(NotFinite(_)) => None
    case TBool(b) => Some(Bool(b))
    case TDatetime(_) => None
    case TArray(items) =>
      if forall i :: 0 <= i < |items| ==> ToJson(items[i]).Some?
      then Some(Arr(seq(|items|, i requires 0 <= i < |items| => ToJson(items[i]).value)))
      else None
    case TInline(fields) =>
      Some(Obj(map k | k in fields && ToJson(fields[k]).Some? :: ToJson(fields[k]).value))
  }

  /** `toml_item_to_json`. */
  function ItemToJson(item: Item): Option<Value> {
    match item
    case Leaf(v) => ToJson(v)
    case Table(items) =>
      Some(Obj(map k | k in items && ItemToJson(items[k]).Some? :: ItemToJson(items[k]).value))
    case TableArray(_) => None
  }

  /** A value shows unless it is, or holds in an array, a datetime or a float that is not finite. */
  predicate Showable(v: TomlValue) {
    match v
    case TDatetime(_) => false
    case TFloat(f) => f.Finite?
    case TArray(items) => forall i :: 0 <= i < |items| ==> Showable(items[i])
    case _ => true
  }

  /** What shows, and which members of an inline table do. */
  lemma {:induction false} ShowsIff(v: TomlValue)
    ensures ToJson(v).Some? <==> Showable(v)
    ensures v.TInline? ==>
              && ToJson(v).value.Obj?
              && forall k :: k in ToJson(v).value.fields <==> k in v.fields && Showable(v.fields[k])
    decreases v
  {
    match v
    case TArray(items) =>
      forall i | 0 <= i < |items| ensures ToJson(items[i]).Some? <==> Showable(items[i]) { ShowsIff(items[i]); }
    case TInline(fields) =>
      forall k | k in fields ensures ToJson(fields[k]).Some? <==> Showable(fields[k]) { ShowsIff(fields[k]); }
    case _ =>
  }

  /** The same content as a value: a table becomes an inline table, without its table arrays. */
  function AsInline(item: Item): Option<TomlValue> {
    match item
    case Leaf(v) => Some(v)
    case Table(items) => Some(TInline(map k | k in items && AsInline(items[k]).Some? :: AsInline(items[k]).value))
    case TableArray(_) => None
  }

  /** A table shows what the inline table with the same content shows. */
  lemma {:induction false} TableShowsAsInline(item: Item)
    ensures ItemToJson(item) == if AsInline(item).Some? then ToJson(AsInline(item).value) else None
  {
    match item
    case Table(items) =>
      forall k | k in items
        ensures ItemToJson(items[k]) == if AsInline(items[k]).Some? then ToJson(AsInline(items[k]).value) else None
      {
        TableShowsAsInline(items[k]);
      }
      var inline := AsInline(item).value;
      assert ItemToJson(item).value.fields == ToJson(inline).value.fields;
    case _ =>
  }

  /** No null anywhere, at any nesting. */
  predicate NullFree(v: Value) {
    match v
    case Null => false
    case Arr(items) => forall i :: 0 <= i < |items| ==> NullFree(items[i])
    case Obj(fields) => forall k :: k in fields ==> NullFree(fields[k])
    case _ => true
  }

  /** Every integer, at any nesting, fits a signed 64-bit word. */
  predicate IntegersFit(v: Value) {
    match v
    case Num(Integer(i)) => FitsI64(i)
    case Arr(items) => forall i :: 0 <= i < |items| ==> IntegersFit(items[i])
    case Obj(fields) => forall k :: k in fields ==> IntegersFit(fields[k])
    case _ => true
  }

  /** A value converts exactly when it is null-free. */
  lemma {:induction false} FromJsonDefined(v: Value)
    ensures FromJson(v).Some? <==> NullFree(v)
  {
    match v
    case Arr(items) =>
      forall i | 0 <= i < |items| ensures FromJson(items[i]).Some? <==> NullFree(items[i]) {
        FromJsonDefined(items[i]);
      }
    case Obj(fields) =>
      forall k | k in fields ensures FromJson(fields[k]).Some? <==> NullFree(fields[k]) {
        FromJsonDefined(fields[k]);
      }
    case _ =>
  }

  /** Converting back always succeeds, and is the identity exactly when the integers fit. */
  lemma {:induction false} JsonRoundTrip(v: Value)
    requires NullFree(v)
    ensures FromJson(v).Some? && ToJson(FromJson(v).value).Some?
    ensures ToJson(FromJson(v).value).value == v <==> IntegersFit(v)
  {
    FromJsonDefined(v);
    match v
    case Arr(items) =>
      forall i | 0 <= i < |items|
        ensures FromJson(items[i]).Some? && ToJson(FromJson(items[i]).value).Some?
        ensures ToJson(FromJson(items[i]).value).value == items[i] <==> IntegersFit(items[i])
      {
        JsonRoundTrip(items[i]);
      }
      var t := FromJson(v).value;
      assert t.items == seq(|items|, i requires 0 <= i < |items| => FromJson(items[i]).value);
      assert forall i :: 0 <= i < |items| ==> t.items[i] == FromJson(items[i]).value;
      var back := ToJson(t).value;
      assert |back.items| == |items| && forall i :: 0 <= i < |items| ==> back.items[i] == ToJson(t.items[i]).value;
      if IntegersFit(v) { assert back.items == items; }
      if back == v { forall i | 0 <= i < |items| ensures IntegersFit(items[i]) { assert back.items[i] == items[i]; } }
    case Obj(fields) =>
      forall k | k in fields
        ensures FromJson(fields[k]).Some? && ToJson(FromJson(fields[k]).value).Some?
        ensures ToJson(FromJson(fields[k]).value).value == fields[k] <==> IntegersFit(fields[k])
      {
        JsonRoundTrip(fields[k]);
      }
      var t := FromJson(v).value;
      var back := ToJson(t).value;
      assert back.fields.Keys == fields.Keys;
      assert forall k :: k in fields ==> back.fields[k] == ToJson(FromJson(fields[k]).value).value;
      if IntegersFit(v) { assert back.fields == fields; }
      if back == v { forall k | k in fields ensures IntegersFit(fields[k]) { assert back.fields[k] == fields[k]; } }
    case _ =>
  }

  /** An integer beyond 64 bits comes back as a float. */
  lemma BigIntegerChanges(i: int)
    requires !FitsI64(i)
    ensures var v := Num(Integer(i));
            NullFree(v) && FromJson(v).Some? && ToJson(FromJson(v).value) == Some(Num(Float(i as real)))
            && ToJson(FromJson(v).value).value != v
  {
  }

  /** Neither a datetime nor a non-finite float, at any nesting, and 64-bit integers. */
  predicate Portable(v: TomlValue) {
    match v
    case TInt(i) => FitsI64(i)
    case TFloat(f) => f.Finite?
    case TDatetime(_) => false
    case TArray(items) => forall i :: 0 <= i < |items| ==> Portable(items[i])
    case TInline(fields) => forall k :: k in fields ==> Portable(fields[k])
    case _ => true
  }

  /** The other direction: a portable TOML value survives the trip through JSON. */
  lemma {:induction false} TomlRoundTrip(v: TomlValue)
    requires Portable(v)
    ensures ToJson(v).Some? && NullFree(ToJson(v).value) && IntegersFit(ToJson(v).value)
    ensures FromJson(ToJson(v).value) == Some(v)
  {
    match v
    case TArray(items) =>
      forall i | 0 <= i < |items|
        ensures ToJson(items[i]).Some? && NullFree(ToJson(items[i]).value) && IntegersFit(ToJson(items[i]).value)
        ensures FromJson(ToJson(items[i]).value) == Some(items[i])
      {
        TomlRoundTrip(items[i]);
      }
      var j := ToJson(v).value;
      assert forall i :: 0 <= i < |items| ==> j.items[i] == ToJson(items[i]).value;
      assert FromJson(j).value.items == items;
    case TInline(fields) =>
      forall k | k in fields
        ensures ToJson(fields[k]).Some? && NullFree(ToJson(fields[k]).value) && IntegersFit(ToJson(fields[k]).value)
        ensures FromJson(ToJson(fields[k]).value) == Some(fields[k])
      {
        TomlRoundTrip(fields[k]);
      }
      var j := ToJson(v).value;
      assert j.fields.Keys == fields.Keys;
      assert FromJson(j).value.fields == fields;
    case _ =>
  }
}
