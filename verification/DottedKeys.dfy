/**
  Dotted configuration keys: `"env.ANTHROPIC_MODEL"` names the path
  `["env", "ANTHROPIC_MODEL"]`. Splitting and joining are inverse to each other
  exactly on paths whose segments hold no dot.
*/
module DottedKeys {
  import opened Wrappers

  type Path = seq<string>

  predicate DotFree(segment: string) { '.' !in segment }

  predicate DotFreePath(p: Path) {
    forall i :: 0 <= i < |p| ==> DotFree(p[i])
  }

  /** `str::split('.')`: always at least one, possibly empty, segment. */
  function Split(s: string): (p: Path)
    ensures |p| >= 1
  {
    if s == "" then [""]
    else
      var rest := Split(s[1..]);
      if s[0] == '.' then [""] + rest else [[s[0]] + rest[0]] + rest[1..]
  }

  function Join(p: Path): string
    requires |p| >= 1
  {
    if |p| == 1 then p[0] else p[0] + "." + Join(p[1..])
  }

  /** `str::split_once('.')`. */
  function SplitOnce(s: string): Option<(string, string)> {
    var p := Split(s);
    if |p| == 1 then None else Some((p[0], Join(p[1..])))
  }

  function StripPrefix(s: string, prefix: string): Option<string> {
    if prefix <= s then Some(s[|prefix|..]) else None
  }

  lemma {:induction false} SplitSegmentsDotFree(s: string)
    ensures DotFreePath(Split(s))
  {
    if s != "" {
      SplitSegmentsDotFree(s[1..]);
      var rest := Split(s[1..]);
      if s[0] != '.' {
        assert DotFree(rest[0]);
        assert DotFree([s[0]] + rest[0]);
      } else {
        assert DotFree("");
      }
    }
  }

  lemma {:induction false} JoinOfSplit(s: string)
    ensures Join(Split(s)) == s
  {
    if s != "" {
      JoinOfSplit(s[1..]);
      var rest := Split(s[1..]);
      if s[0] == '.' {
        assert ([""] + rest)[1..] == rest;
        assert s == "." + s[1..];
      } else {
        var p := [[s[0]] + rest[0]] + rest[1..];
        assert p[1..] == rest[1..];
        assert s == [s[0]] + s[1..];
      }
    }
  }

  /** A dot-free head in front of a dot is exactly one segment. */
  lemma {:induction false} SplitOfCons(head: string, tail: string)
    requires DotFree(head)
    ensures Split(head + "." + tail) == [head] + Split(tail)
  {
    var s := head + "." + tail;
    if head == "" {
      assert s[1..] == tail;
    } else {
      assert forall i :: 0 <= i < |head[1..]| ==> head[1..][i] == head[i + 1];
      SplitOfCons(head[1..], tail);
      assert s[1..] == head[1..] + "." + tail;
      assert head == [head[0]] + head[1..];
    }
  }

  lemma {:induction false} SplitOfDotFree(head: string)
    requires DotFree(head)
    ensures Split(head) == [head]
  {
    if head != "" {
      assert forall i :: 0 <= i < |head[1..]| ==> head[1..][i] == head[i + 1];
      SplitOfDotFree(head[1..]);
      assert head == [head[0]] + head[1..];
    }
  }

  /** The partner of `JoinOfSplit`: dot-free paths survive joining and splitting. */
  lemma {:induction false} SplitOfJoin(p: Path)
    requires |p| >= 1 && DotFreePath(p)
    ensures Split(Join(p)) == p
  {
    assert DotFree(p[0]);
    if |p| == 1 {
      SplitOfDotFree(p[0]);
    } else {
      assert forall i :: 0 <= i < |p[1..]| ==> p[1..][i] == p[i + 1];
      SplitOfJoin(p[1..]);
      SplitOfCons(p[0], Join(p[1..]));
      assert p == [p[0]] + p[1..];
    }
  }

  /** `split_once` then `split` of the remainder walks the same path as one `split`. */
  lemma SplitOnceThenSplit(s: string)
    ensures SplitOnce(s).None? ==> Split(s) == [s]
    ensures SplitOnce(s).Some? ==>
              var (head, rest) := SplitOnce(s).value;
              Split(s) == [head] + Split(rest) && s == head + "." + rest
  {
    JoinOfSplit(s);
    SplitSegmentsDotFree(s);
    var p := Split(s);
    if |p| > 1 {
      assert forall i :: 0 <= i < |p[1..]| ==> p[1..][i] == p[i + 1];
      SplitOfJoin(p[1..]);
      assert p == [p[0]] + p[1..];
    }
  }

  /** Distinct strings name distinct paths. */
  lemma SplitInjective(s: string, t: string)
    requires Split(s) == Split(t)
    ensures s == t
  {
    JoinOfSplit(s);
    JoinOfSplit(t);
  }
}
