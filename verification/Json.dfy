/**
  JSON documents as trees. Objects are maps: the order in which an object's
  members are printed is not part of a document's meaning.
*/
module Json {
  import opened Wrappers
  import opened DottedKeys

  /** An integer literal, or a finite floating-point one. */
  datatype Number = Integer(i: int) | Float(f: real)

  datatype Value =
    | Null
    | Bool(b: bool)
    | Num(n: Number)
    | Str(s: string)
    | Arr(items: seq<Value>)
    | Obj(fields: Fields)

  type Fields = map<string, Value>

  /** The subtree of `v` at path `p`. */
  function At(v: Value, p: Path): Option<Value>
    decreases |p|
  {
    if p == [] then Some(v)
    else if v.Obj? && p[0] in v.fields then At(v.fields[p[0]], p[1..])
    else None
  }

  /** The non-object value of `v` at path `p`: what a configuration reader sees. */
  function LeafAt(v: Value, p: Path): Option<Value> {
    var w := At(v, p);
    if w.Some? && w.value.Obj? then None else w
  }

  /** No member name on any object path of `v` holds a dot. */
  predicate DotFreeNames(v: Value) {
    v.Obj? ==> forall k :: k in v.fields ==> DotFree(k) && DotFreeNames(v.fields[k])
  }

  /** Neither path is a prefix of the other. */
  predicate Apart(p: Path, q: Path) { !(p <= q) && !(q <= p) }

  lemma {:induction false} DotFreeNamesPath(v: Value, p: Path)
    requires DotFreeNames(v) && At(v, p).Some?
    ensures DotFreePath(p)
    decreases |p|
  {
    if p != [] {
      DotFreeNamesPath(v.fields[p[0]], p[1..]);
      forall i | 0 <= i < |p| ensures DotFree(p[i]) {
        if i > 0 { assert p[i] == p[1..][i - 1]; }
      }
    }
  }

  /** `At` follows concatenated paths in two legs. */
  lemma {:induction false} AtConcat(v: Value, p: Path, q: Path)
    ensures At(v, p + q) == if At(v, p).Some? then At(At(v, p).value, q) else None
    decreases |p|
  {
    if p == [] {
      assert p + q == q;
    } else {
      assert (p + q)[1..] == p[1..] + q;
      if v.Obj? && p[0] in v.fields { AtConcat(v.fields[p[0]], p[1..], q); }
    }
  }
}
