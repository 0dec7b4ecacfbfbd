/**
  Key-level surgery on JSON objects: the read-modify-write core of the managed
  provider configuration files.
*/
module ConfigTree {
  import opened Wrappers
  import opened DottedKeys
  import opened Json

  /** A null value removes the member, anything else replaces it. */
  function SetOrRemove(obj: Fields, key: string, val: Value): Fields {
    if val.Null? then obj - {key} else obj[key := val]
  }

  /**
    Walks `p` from `obj`, creating missing objects on the way, and sets or removes
    the last segment. Fails on an ancestor that is not an object.
  */
  function WriteAt(obj: Fields, p: Path, val: Value): Result<Fields, string>
    requires p != []
    decreases |p|
  {
    if |p| == 1 then Ok(SetOrRemove(obj, p[0], val))
    else
      var child := if p[0] in obj then obj[p[0]] else Obj(map[]);
      if !child.Obj? then Err(p[0] + " must be object")
      else
        match WriteAt(child.fields, p[1..], val)
        case Err(e) => Err(e)
        case Ok(fields) => Ok(obj[p[0] := Obj(fields)])
  }

  /** Like `WriteAt` for `env.<name>`, but an emptied `env` object is dropped. */
  function WriteEnv(obj: Fields, name: string, val: Value): Result<Fields, string> {
    match WriteAt(obj, ["env", name], val)
    case Err(e) => Err(e)
    case Ok(fields) => Ok(if fields["env"] == Obj(map[]) then fields - {"env"} else fields)
  }

  /** Some proper ancestor of `p` is a leaf of `obj`, so `p` cannot be written. */
  predicate Blocked(obj: Fields, p: Path) {
    exists n :: 0 < n < |p| && LeafAt(Obj(obj), p[..n]).Some?
  }

  /** What `r` holds after `val` was written at `p`: the frame and the effect in one. */
  function LeafAfter(obj: Fields, p: Path, val: Value, r: Path): Option<Value> {
    if p <= r then (if val.Null? then None else LeafAt(val, r[|p|..]))
    else LeafAt(Obj(obj), r)
  }

  lemma {:induction false} WriteAtSucceedsIffUnblocked(obj: Fields, p: Path, val: Value)
    requires p != []
    ensures WriteAt(obj, p, val).Ok? <==> !Blocked(obj, p)
    decreases |p|
  {
    if |p| > 1 {
      var child := if p[0] in obj then obj[p[0]] else Obj(map[]);
      assert p[..1] == [p[0]];
      assert At(Obj(obj), p[..1]) == if p[0] in obj then At(obj[p[0]], p[..1][1..]) else None;
      if child.Obj? {
        WriteAtSucceedsIffUnblocked(child.fields, p[1..], val);
        forall n | 1 < n < |p|
          ensures LeafAt(Obj(obj), p[..n]) == LeafAt(child, p[1..][..n - 1])
        {
          assert p[..n][1..] == p[1..][..n - 1];
          if p[0] !in obj { assert p[1..][..n - 1] != []; }
        }
        if Blocked(child.fields, p[1..]) {
          var n :| 0 < n < |p[1..]| && LeafAt(child, p[1..][..n]).Some?;
          assert LeafAt(Obj(obj), p[..n + 1]).Some?;
        }
        if Blocked(obj, p) {
          var n :| 0 < n < |p| && LeafAt(Obj(obj), p[..n]).Some?;
          assert n != 1;
          assert LeafAt(child, p[1..][..n - 1]).Some?;
        }
      } else {
        assert LeafAt(Obj(obj), p[..1]).Some?;
      }
    }
  }

  /** Framing: a path apart from the written one keeps its whole subtree. */
  lemma {:induction false} WriteAtFrame(obj: Fields, p: Path, val: Value, r: Path)
    requires p != [] && WriteAt(obj, p, val).Ok? && Apart(p, r)
    ensures At(Obj(WriteAt(obj, p, val).value), r) == At(Obj(obj), r)
    decreases |p|
  {
    var after := WriteAt(obj, p, val).value;
    if r[0] == p[0] {
      assert |p| == 1 ==> p <= r;
      var child := if p[0] in obj then obj[p[0]] else Obj(map[]);
      ApartTail(p, r);
      WriteAtFrame(child.fields, p[1..], val, r[1..]);
      assert |r| == 1 ==> r <= p;
    }
  }

  lemma ApartTail(p: Path, r: Path)
    requires Apart(p, r) && p[0] == r[0]
    ensures Apart(p[1..], r[1..])
  {
    assert p == [p[0]] + p[1..] && r == [r[0]] + r[1..];
  }

  /** Effect: below the written path stands exactly the written value. */
  lemma {:induction false} WriteAtEffect(obj: Fields, p: Path, val: Value)
    requires p != [] && WriteAt(obj, p, val).Ok?
    ensures At(Obj(WriteAt(obj, p, val).value), p) == if val.Null? then None else Some(val)
    decreases |p|
  {
    if |p| > 1 {
      var child := if p[0] in obj then obj[p[0]] else Obj(map[]);
      WriteAtEffect(child.fields, p[1..], val);
    } else {
      assert p[1..] == [];
    }
  }

  /** Above the written path there are only objects, before and after. */
  lemma {:induction false} WriteAtAbove(obj: Fields, p: Path, val: Value, r: Path)
    requires p != [] && WriteAt(obj, p, val).Ok? && r <= p && r != p
    ensures LeafAt(Obj(obj), r).None? && LeafAt(Obj(WriteAt(obj, p, val).value), r).None?
    decreases |p|
  {
    if r != [] {
      var child := if p[0] in obj then obj[p[0]] else Obj(map[]);
      assert p == [p[0]] + p[1..] && r == [r[0]] + r[1..];
      assert r[1..] <= p[1..] && r[1..] != p[1..];
      WriteAtAbove(child.fields, p[1..], val, r[1..]);
    }
  }

  /** The whole effect of one write, on every path. */
  lemma WriteAtLeaves(obj: Fields, p: Path, val: Value, r: Path)
    requires p != [] && WriteAt(obj, p, val).Ok?
    ensures LeafAt(Obj(WriteAt(obj, p, val).value), r) == LeafAfter(obj, p, val, r)
  {
    if p <= r {
      WriteAtEffect(obj, p, val);
      assert r == p + r[|p|..];
      AtConcat(Obj(WriteAt(obj, p, val).value), p, r[|p|..]);
    } else if r <= p {
      WriteAtAbove(obj, p, val, r);
    } else {
      WriteAtFrame(obj, p, val, r);
    }
  }

  lemma {:induction false} WriteAtKeepsDotFree(obj: Fields, p: Path, val: Value)
    requires p != [] && WriteAt(obj, p, val).Ok?
    requires DotFreePath(p) && DotFreeNames(Obj(obj)) && DotFreeNames(val)
    ensures DotFreeNames(Obj(WriteAt(obj, p, val).value))
    decreases |p|
  {
    assert DotFree(p[0]);
    if |p| > 1 {
      var child := if p[0] in obj then obj[p[0]] else Obj(map[]);
      assert DotFreePath(p[1..]) by {
        forall i | 0 <= i < |p[1..]| ensures DotFree(p[1..][i]) { assert p[1..][i] == p[i + 1]; }
      }
      WriteAtKeepsDotFree(child.fields, p[1..], val);
    }
  }

  /** An emptied `env` is dropped, which no reader can see. */
  lemma WriteEnvLeaves(obj: Fields, name: string, val: Value, r: Path)
    requires WriteEnv(obj, name, val).Ok?
    ensures var after := WriteEnv(obj, name, val).value;
            "env" in after ==> after["env"] != Obj(map[])
    ensures LeafAt(Obj(WriteEnv(obj, name, val).value), r) == LeafAfter(obj, ["env", name], val, r)
  {
    var p := ["env", name];
    var mid := WriteAt(obj, p, val).value;
    WriteAtLeaves(obj, p, val, r);
    if mid["env"] == Obj(map[]) && r != [] && r[0] == "env" {
      assert LeafAt(Obj(mid), r) == LeafAt(Obj(map[]), r[1..]);
    }
  }
}
