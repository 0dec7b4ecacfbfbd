/**
  The local fingerprint of a skill manifest: the SHA-256 of its entries, sorted and
  written one per line as `key:checksum`. The text is modelled; the digest of a text
  is injective.
*/
module SkillFingerprint {
  datatype Skill = Skill(key: string, checksum: string)

  // ---------------------------------------------------------------------------
  // The order of `Vec<(&str, &str)>::sort`
  // ---------------------------------------------------------------------------

  /** Lexicographic order of strings. */
  predicate StrLeq(a: string, b: string) {
    a == "" || (b != "" && (a[0] < b[0] || (a[0] == b[0] && StrLeq(a[1..], b[1..]))))
  }

  predicate Leq(a: Skill, b: Skill) {
    if a.key == b.key then StrLeq(a.checksum, b.checksum) else StrLeq(a.key, b.key)
  }

  lemma {:induction false} StrLeqOrder(a: string, b: string, c: string)
    ensures StrLeq(a, b) || StrLeq(b, a)
    ensures StrLeq(a, b) && StrLeq(b, a) ==> a == b
    ensures StrLeq(a, b) && StrLeq(b, c) ==> StrLeq(a, c)
    decreases |a|
  {
    if a != "" && b != "" {
      StrLeqOrder(a[1..], b[1..], if c == "" then "" else c[1..]);
      if a[0] == b[0] && a[1..] == b[1..] { assert a == [a[0]] + a[1..] && b == [b[0]] + b[1..]; }
    }
  }

  lemma LeqOrder(a: Skill, b: Skill, c: Skill)
    ensures Leq(a, b) || Leq(b, a)
    ensures Leq(a, b) && Leq(b, a) ==> a == b
    ensures Leq(a, b) && Leq(b, c) ==> Leq(a, c)
  {
    StrLeqOrder(a.key, b.key, c.key);
    StrLeqOrder(a.checksum, b.checksum, c.checksum);
    StrLeqOrder(b.key, c.key, a.key);
  }

  predicate Sorted(s: seq<Skill>) {
    forall i, j :: 0 <= i < j < |s| ==> Leq(s[i], s[j])
  }

  function Insert(x: Skill, s: seq<Skill>): (r: seq<Skill>)
    ensures multiset(r) == multiset(s) + multiset{x}
  {
    if s == [] || Leq(x, s[0]) then [x] + s
    else
      assert s == [s[0]] + s[1..];
      [s[0]] + Insert(x, s[1..])
  }

  function Sort(s: seq<Skill>): (r: seq<Skill>)
    ensures multiset(r) == multiset(s)
  {
    if s == [] then []
    else
      assert s == [s[0]] + s[1..];
      Insert(s[0], Sort(s[1..]))
  }

  lemma {:induction false} InsertSorted(x: Skill, s: seq<Skill>)
    requires Sorted(s)
    ensures Sorted(Insert(x, s))
  {
    var r := Insert(x, s);
    if s == [] {
    } else if Leq(x, s[0]) {
      forall j | 0 <= j < |s| ensures Leq(x, s[j]) { LeqOrder(x, s[0], s[j]); LeqOrder(x, x, x); }
    } else {
      InsertSorted(x, s[1..]);
      LeqOrder(x, s[0], s[0]);
      var t := Insert(x, s[1..]);
      forall j | 0 <= j < |t| ensures Leq(s[0], t[j]) {
        assert t[j] in multiset(t);
        assert t[j] == x || t[j] in multiset(s[1..]);
        if t[j] in s[1..] { var i :| 0 <= i < |s[1..]| && s[1..][i] == t[j]; }
      }
    }
  }

  lemma {:induction false} SortSorted(s: seq<Skill>)
    ensures Sorted(Sort(s))
  {
    if s != [] { SortSorted(s[1..]); InsertSorted(s[0], Sort(s[1..])); }
  }

  lemma SortedHead(s: seq<Skill>, x: Skill)
    requires Sorted(s) && x in s
    ensures Leq(s[0], x)
  {
    var j :| 0 <= j < |s| && s[j] == x;
    LeqOrder(s[0], s[0], s[0]);
  }

  lemma SameHead(s: seq<Skill>, t: seq<Skill>)
    requires Sorted(s) && Sorted(t) && s != [] && t != [] && s[0] in t && t[0] in s
    ensures s[0] == t[0]
  {
    SortedHead(s, t[0]);
    SortedHead(t, s[0]);
    LeqOrder(s[0], t[0], t[0]);
  }

  lemma MultisetTail(s: seq<Skill>)
    requires s != []
    ensures multiset(s) == multiset(s[1..]) + multiset{s[0]}
  {
    assert s == [s[0]] + s[1..];
  }

  lemma Uncons(s: seq<Skill>, t: seq<Skill>)
    requires multiset(s) == multiset(t) && s != [] && t != []
    ensures s[0] in t && t[0] in s
    ensures s[0] == t[0] ==> multiset(s[1..]) == multiset(t[1..])
  {
    MultisetTail(s);
    MultisetTail(t);
    assert s[0] in multiset(t) && t[0] in multiset(s);
    if s[0] == t[0] {
      assert multiset(s[1..]) == multiset(s) - multiset{s[0]} == multiset(t[1..]);
    }
  }

  /** A multiset has one sorted listing. */
  lemma {:induction false} SortedUnique(s: seq<Skill>, t: seq<Skill>)
    requires Sorted(s) && Sorted(t) && multiset(s) == multiset(t)
    ensures s == t
  {
    assert |s| == |multiset(s)| == |multiset(t)| == |t|;
    if s != [] {
      Uncons(s, t);
      SameHead(s, t);
      SortedUnique(s[1..], t[1..]);
      assert s == [s[0]] + s[1..] && t == [t[0]] + t[1..];
    }
  }

  // ---------------------------------------------------------------------------
  // The line encoding
  // ---------------------------------------------------------------------------

  function Line(s: Skill): string { s.key + ":" + s.checksum }

  function Encode(entries: seq<Skill>): string {
    if entries == [] then ""
    else Encode(entries[..|entries| - 1]) + Line(entries[|entries| - 1]) + "\n"
  }

  function FingerprintText(skills: seq<Skill>): string { Encode(Sort(skills)) }

  /** `skills_fingerprint` up to the digest: sort, then fill the buffer. */
  method FingerprintBuffer(skills: seq<Skill>) returns (buffer: string)
    ensures buffer == FingerprintText(skills)
  {
    var entries := Sort(skills);
    buffer := "";
    for i := 0 to |entries|
      invariant buffer == Encode(entries[..i])
    {
      assert entries[..i + 1][..i] == entries[..i];
      buffer := buffer + entries[i].key;
      buffer := buffer + ":";
      buffer := buffer + entries[i].checksum;
      buffer := buffer + "\n";
    }
    assert entries[..|entries|] == entries;
  }

  /** Keys without line breaks, checksums without line breaks or colons (hex digests are such). */
  predicate Plain(s: Skill) {
    '\n' !in s.key && '\n' !in s.checksum && ':' !in s.checksum
  }

  ghost predicate AllPlain(skills: seq<Skill>) {
    forall i :: 0 <= i < |skills| ==> Plain(skills[i])
  }

  /** A colon-free suffix fixes where the last colon is. */
  lemma LineInjective(s: Skill, t: Skill)
    requires Plain(s) && Plain(t) && Line(s) == Line(t)
    ensures s == t
  {
    var l := Line(s);
    assert l[|s.key|] == ':' && l[|t.key|] == ':';
    assert forall i :: |s.key| < i < |l| ==> l[i] == s.checksum[i - |s.key| - 1];
    assert forall i :: |t.key| < i < |l| ==> l[i] == t.checksum[i - |t.key| - 1];
    assert |s.key| == |t.key|;
    assert s.key == l[..|s.key|] && t.key == l[..|t.key|];
    assert s.checksum == l[|s.key| + 1..] && t.checksum == l[|t.key| + 1..];
  }

  lemma LinePlain(s: Skill)
    requires Plain(s)
    ensures '\n' !in Line(s)
  {
  }

  /** The last line of a text: what follows the last line break but one. */
  lemma LastLine(a: string, l: string, b: string, m: string)
    requires '\n' !in l && '\n' !in m && a + l + "\n" == b + m + "\n"
    requires a == "" || a[|a| - 1] == '\n'
    requires b == "" || b[|b| - 1] == '\n'
    ensures a == b && l == m
  {
    var s, t := a + l, b + m;
    assert s == (s + "\n")[..|s|] && t == (t + "\n")[..|t|];
    assert s == t;
    assert forall i :: |a| <= i < |s| ==> s[i] == l[i - |a|];
    assert forall i :: |b| <= i < |t| ==> t[i] == m[i - |b|];
    assert b != "" ==> s[|b| - 1] == '\n';
    assert a != "" ==> t[|a| - 1] == '\n';
    assert |a| == |b|;
    assert a == s[..|a|] && b == t[..|b|] && l == s[|a|..] && m == t[|b|..];
  }

  lemma EncodeEnds(entries: seq<Skill>)
    ensures entries != [] ==> Encode(entries) != "" && Encode(entries)[|Encode(entries)| - 1] == '\n'
  {
  }

  lemma {:induction false} EncodeInjective(s: seq<Skill>, t: seq<Skill>)
    requires AllPlain(s) && AllPlain(t) && Encode(s) == Encode(t)
    ensures s == t
    decreases |s|
  {
    EncodeEnds(s);
    EncodeEnds(t);
    if s != [] && t != [] {
      var m, n := |s| - 1, |t| - 1;
      EncodeEnds(s[..m]);
      EncodeEnds(t[..n]);
      LinePlain(s[m]);
      LinePlain(t[n]);
      LastLine(Encode(s[..m]), Line(s[m]), Encode(t[..n]), Line(t[n]));
      LineInjective(s[m], t[n]);
      EncodeInjective(s[..m], t[..n]);
      assert s == s[..m] + [s[m]] && t == t[..n] + [t[n]];
    }
  }

  lemma PlainInMultiset(s: seq<Skill>, t: seq<Skill>)
    requires AllPlain(s) && multiset(s) == multiset(t)
    ensures AllPlain(t)
  {
    forall i | 0 <= i < |t| ensures Plain(t[i]) {
      assert t[i] in multiset(s);
      var j :| 0 <= j < |s| && s[j] == t[i];
    }
  }

  /** Manifests that list the same skills, in any order, have the same text. */
  lemma FingerprintOrderFree(m: seq<Skill>, n: seq<Skill>)
    requires multiset(m) == multiset(n)
    ensures FingerprintText(m) == FingerprintText(n)
  {
    SortSorted(m);
    SortSorted(n);
    SortedUnique(Sort(m), Sort(n));
  }

  /** The text identifies the manifest, as a multiset of entries. */
  lemma FingerprintIdentifies(m: seq<Skill>, n: seq<Skill>)
    requires AllPlain(m) && AllPlain(n)
    ensures FingerprintText(m) == FingerprintText(n) <==> multiset(m) == multiset(n)
  {
    if FingerprintText(m) == FingerprintText(n) {
      PlainInMultiset(m, Sort(m));
      PlainInMultiset(n, Sort(n));
      EncodeInjective(Sort(m), Sort(n));
    }
    if multiset(m) == multiset(n) { FingerprintOrderFree(m, n); }
  }

  /** Skill keys may hold line breaks, and then any two entries in order share a fingerprint with a single one. */
  lemma LineBreakInKeyCollides(a: Skill, b: Skill)
    requires Leq(a, b)
    ensures var m, n := [a, b], [Skill(Line(a) + "\n" + b.key, b.checksum)];
            multiset(m) != multiset(n) && FingerprintText(m) == FingerprintText(n)
  {
    var both := Skill(Line(a) + "\n" + b.key, b.checksum);
    var m, n := [a, b], [both];
    assert |multiset(m)| == 2 && |multiset(n)| == 1;
    SortSorted(m);
    SortSorted(n);
    SortedUnique(Sort(m), m);
    SortedUnique(Sort(n), n);
    assert m[..1] == [a] && [a][..0] == [] && n[..0] == [];
    assert Encode([]) == "";
    assert Encode([a]) == Line(a) + "\n";
    assert Encode(m) == Line(a) + "\n" + Line(b) + "\n";
    assert Encode(n) == Line(both) + "\n";
    assert Line(both) == Line(a) + "\n" + Line(b);
  }
}
