/**
  Segmented capture of a provider transcript: lines are appended to a local file and
  uploaded in segments, cut by size, by time and at the end. An upload may fail after
  its bytes have landed, and the index of a failed segment is used again.
*/
module RawLog {
  import opened Wrappers

  datatype Stream = Stdout | Stderr

  /** One PUT: accepted, or reported as failed with the bytes stored or not. */
  datatype Put = Accepted | Refused(landed: bool)

  /** `wrapped` is the JSON object that carries a stderr line. */
  datatype Event =
    | Line(stream: Stream, line: Bytes, wrapped: Bytes, tries: seq<Put>)
    | Tick(tries: seq<Put>)

  const RETRIES: nat := 3

  /** A segment that was cut off: stored under the next index, or given up. */
  datatype Piece = Uploaded(body: Bytes) | Lost(body: Bytes)

  /**
    What has happened so far. `store` maps part indices to the bytes last stored there;
    `sent` collects every (index, bytes) pair ever put on the wire.
  */
  datatype Log = Log(local: Bytes, pieces: seq<Piece>, segment: Bytes, store: map<nat, Bytes>, sent: set<(nat, Bytes)>)

  const EMPTY: Log := Log([], [], [], map[], {})

  function Encode(e: Event): Bytes
    requires e.Line?
  {
    (if e.stream == Stdout then e.line else e.wrapped) + [10]
  }

  /** The bodies of the uploaded pieces: the parts of the manifest, in order. */
  function Parts(pieces: seq<Piece>): seq<Bytes> {
    if pieces == [] then []
    else
      var n := |pieces| - 1;
      Parts(pieces[..n]) + (if pieces[n].Uploaded? then [pieces[n].body] else [])
  }

  function Complete(pieces: seq<Piece>): bool {
    forall i :: 0 <= i < |pieces| ==> pieces[i].Uploaded?
  }

  function Flat(bodies: seq<Bytes>): Bytes {
    if bodies == [] then [] else Flat(bodies[..|bodies| - 1]) + bodies[|bodies| - 1]
  }

  /** Everything that was cut off, uploaded or lost. */
  function Whole(pieces: seq<Piece>): Bytes {
    if pieces == [] then [] else Whole(pieces[..|pieces| - 1]) + pieces[|pieces| - 1].body
  }

  /** One of the first `RETRIES` attempts is accepted. */
  predicate Succeeds(tries: seq<Put>) { exists k :: 0 <= k < |tries| && k < RETRIES && tries[k].Accepted? }

  /** Attempt `k` is made, because none before it was accepted, and leaves the bytes in the store. */
  predicate LandsAt(tries: seq<Put>, k: int) {
    && 0 <= k < |tries| && k < RETRIES && (forall j :: 0 <= j < k ==> !tries[j].Accepted?)
    && (tries[k].Accepted? || tries[k].landed)
  }

  predicate Landed(tries: seq<Put>) { exists k :: 0 <= k < |tries| && LandsAt(tries, k) }

  /** The store after putting `body` at `index` until accepted; a missing attempt fails and leaves nothing. */
  function PutAt(store: map<nat, Bytes>, index: nat, body: Bytes, tries: seq<Put>): map<nat, Bytes> {
    if Landed(tries) then store[index := body] else store
  }

  function Cut(log: Log, tries: seq<Put>): Log {
    if log.segment == [] then log
    else
      var index := |Parts(log.pieces)| + 1;
      Log(log.local, log.pieces + [if Succeeds(tries) then Uploaded(log.segment) else Lost(log.segment)], [],
          PutAt(log.store, index, log.segment, tries), log.sent + {(index, log.segment)})
  }

  function Step(limit: nat, log: Log, e: Event): Log {
    match e
    case Tick(tries) => Cut(log, tries)
    case Line(_, _, _, tries) =>
      var grown := log.(local := log.local + Encode(e), segment := log.segment + Encode(e));
      if |grown.segment| >= limit then Cut(grown, tries) else grown
  }

  function Steps(limit: nat, events: seq<Event>): Log {
    if events == [] then EMPTY else Step(limit, Steps(limit, events[..|events| - 1]), events[|events| - 1])
  }

  lemma StepsSnoc(limit: nat, events: seq<Event>, i: nat)
    requires i < |events|
    ensures Steps(limit, events[..i + 1]) == Step(limit, Steps(limit, events[..i]), events[i])
  {
    assert events[..i + 1][..i] == events[..i];
  }

  /** The log of a whole run, with the last segment cut at the end. */
  function RunLog(limit: nat, events: seq<Event>, last: seq<Put>): Log { Cut(Steps(limit, events), last) }

  // ---------------------------------------------------------------------------
  // What every point of every run satisfies
  // ---------------------------------------------------------------------------

  /** Key `i` stores the `i`-th body, counting from one. */
  ghost predicate Stored(store: map<nat, Bytes>, bodies: seq<Bytes>) {
    forall i :: 1 <= i <= |bodies| ==> i in store && store[i] == bodies[i - 1]
  }

  /** Every piece was put on the wire, at the index that was next when it was cut. */
  function SentBy(pieces: seq<Piece>): set<(nat, Bytes)> {
    if pieces == [] then {}
    else
      var n := |pieces| - 1;
      SentBy(pieces[..n]) + {(|Parts(pieces[..n])| + 1, pieces[n].body)}
  }

  ghost predicate Inv(log: Log) {
    && log.local == Whole(log.pieces) + log.segment
    && (forall i :: 0 <= i < |log.pieces| ==> log.pieces[i].body != [])
    && Stored(log.store, Parts(log.pieces))
    && log.sent == SentBy(log.pieces)
  }

  /** What is accepted has landed: the first attempt that is accepted is made. */
  lemma {:induction false} AcceptedLands(tries: seq<Put>, k: nat)
    requires k < |tries| && k < RETRIES && tries[k].Accepted?
    ensures Landed(tries)
    decreases k
  {
    if j :| 0 <= j < k && tries[j].Accepted? { AcceptedLands(tries, j); } else { assert LandsAt(tries, k); }
  }

  lemma PiecesSnoc(pieces: seq<Piece>, p: Piece)
    ensures Parts(pieces + [p]) == Parts(pieces) + (if p.Uploaded? then [p.body] else [])
    ensures Whole(pieces + [p]) == Whole(pieces) + p.body
    ensures Complete(pieces + [p]) <==> Complete(pieces) && p.Uploaded?
  {
    var all := pieces + [p];
    assert all[..|pieces|] == pieces && all[|pieces|] == p;
    assert Complete(all) ==> forall i :: 0 <= i < |pieces| ==> all[i] == pieces[i];
    if Complete(all) { forall i | 0 <= i < |pieces| ensures pieces[i].Uploaded? { assert all[i].Uploaded?; } }
  }

  lemma SentSnoc(pieces: seq<Piece>, p: Piece)
    ensures SentBy(pieces + [p]) == SentBy(pieces) + {(|Parts(pieces)| + 1, p.body)}
  {
    assert (pieces + [p])[..|pieces|] == pieces;
  }

  lemma StoredSnoc(store: map<nat, Bytes>, bodies: seq<Bytes>, body: Bytes, tries: seq<Put>)
    requires Stored(store, bodies)
    ensures Stored(PutAt(store, |bodies| + 1, body, tries), if Succeeds(tries) then bodies + [body] else bodies)
  {
    if Succeeds(tries) {
      var k :| 0 <= k < |tries| && k < RETRIES && tries[k].Accepted?;
      AcceptedLands(tries, k);
    }
  }

  /** One more piece, taken from the segment and stored where it belongs. */
  lemma PieceKeeps(log: Log, p: Piece, store: map<nat, Bytes>)
    requires Inv(log) && p.body == log.segment != [] && Stored(store, Parts(log.pieces + [p]))
    ensures Inv(Log(log.local, log.pieces + [p], [], store, log.sent + {(|Parts(log.pieces)| + 1, p.body)}))
  {
    PiecesSnoc(log.pieces, p);
    SentSnoc(log.pieces, p);
    assert log.local == Whole(log.pieces + [p]) + [];
  }

  lemma CutKeeps(log: Log, tries: seq<Put>)
    requires Inv(log)
    ensures Inv(Cut(log, tries)) && Cut(log, tries).segment == [] && Cut(log, tries).local == log.local
  {
    if log.segment != [] {
      var parts := Parts(log.pieces);
      StoredSnoc(log.store, parts, log.segment, tries);
      var p := if Succeeds(tries) then Uploaded(log.segment) else Lost(log.segment);
      PiecesSnoc(log.pieces, p);
      assert Parts(log.pieces + [p]) == if Succeeds(tries) then parts + [log.segment] else parts;
      PieceKeeps(log, p, PutAt(log.store, |parts| + 1, log.segment, tries));
    }
  }

  lemma StepKeeps(limit: nat, log: Log, e: Event)
    requires Inv(log)
    ensures Inv(Step(limit, log, e))
    ensures Step(limit, log, e).local == log.local + (if e.Line? then Encode(e) else [])
    ensures e.Tick? ==> Step(limit, log, e).segment == []
    ensures e.Line? ==> Step(limit, log, e).segment == [] || |Step(limit, log, e).segment| < limit
  {
    match e
    case Tick(tries) => CutKeeps(log, tries);
    case Line(_, _, _, tries) =>
      var grown := log.(local := log.local + Encode(e), segment := log.segment + Encode(e));
      assert grown.local == Whole(log.pieces) + grown.segment;
      if |grown.segment| >= limit { CutKeeps(grown, tries); }
  }

  /** The bytes of all lines, in order. */
  function Transcript(events: seq<Event>): Bytes {
    if events == [] then []
    else
      var e := events[|events| - 1];
      Transcript(events[..|events| - 1]) + (if e.Line? then Encode(e) else [])
  }

  lemma {:induction false} StepsKeep(limit: nat, events: seq<Event>)
    ensures Inv(Steps(limit, events)) && Steps(limit, events).local == Transcript(events)
    ensures Steps(limit, events).segment == [] || |Steps(limit, events).segment| < limit
  {
    if events != [] {
      StepsKeep(limit, events[..|events| - 1]);
      StepKeeps(limit, Steps(limit, events[..|events| - 1]), events[|events| - 1]);
    }
  }

  /** The attempts of every segment that was cut off, in order: at a tick, if there is anything, and at the limit. */
  function CutTries(limit: nat, events: seq<Event>): seq<seq<Put>> {
    if events == [] then []
    else
      var n := |events| - 1;
      var waiting := Steps(limit, events[..n]).segment;
      CutTries(limit, events[..n])
      + match events[n]
        case Tick(tries) => if waiting != [] then [tries] else []
        case Line(_, _, _, tries) => if |waiting + Encode(events[n])| >= limit then [tries] else []
  }

  function RunTries(limit: nat, events: seq<Event>, last: seq<Put>): seq<seq<Put>> {
    CutTries(limit, events) + if Steps(limit, events).segment != [] then [last] else []
  }

  /** Piece by piece: uploaded if one of its first three attempts was accepted, lost otherwise. */
  ghost predicate Fates(pieces: seq<Piece>, tries: seq<seq<Put>>) {
    |pieces| == |tries| && forall i :: 0 <= i < |pieces| ==> (pieces[i].Uploaded? <==> Succeeds(tries[i]))
  }

  lemma CutFate(log: Log, tries: seq<Put>, before: seq<seq<Put>>)
    requires Fates(log.pieces, before)
    ensures Fates(Cut(log, tries).pieces, before + if log.segment != [] then [tries] else [])
  {
    if log.segment == [] { assert before + [] == before; }
  }

  lemma {:induction false} StepsFates(limit: nat, events: seq<Event>)
    ensures Fates(Steps(limit, events).pieces, CutTries(limit, events))
    decreases |events|
  {
    if events != [] {
      var n := |events| - 1;
      StepsFates(limit, events[..n]);
      StepFates(limit, Steps(limit, events[..n]), events[n], CutTries(limit, events[..n]));
    }
  }

  lemma StepFates(limit: nat, log: Log, e: Event, before: seq<seq<Put>>)
    requires Fates(log.pieces, before)
    ensures e.Tick? ==> Fates(Step(limit, log, e).pieces, before + if log.segment != [] then [e.tries] else [])
    ensures e.Line? ==>
              Fates(Step(limit, log, e).pieces, before + if |log.segment + Encode(e)| >= limit then [e.tries] else [])
  {
    match e
    case Tick(tries) => CutFate(log, tries, before);
    case Line(_, _, _, tries) =>
      var grown := log.(local := log.local + Encode(e), segment := log.segment + Encode(e));
      assert grown.segment != [];
      if |grown.segment| >= limit { CutFate(grown, tries, before); } else { assert before + [] == before; }
  }

  /** The log is complete exactly when every segment that was cut off had an accepted attempt among its first three. */
  lemma CompleteIffAllAccepted(limit: nat, events: seq<Event>, last: seq<Put>)
    ensures var tries := RunTries(limit, events, last);
            && Fates(RunLog(limit, events, last).pieces, tries)
            && (Complete(RunLog(limit, events, last).pieces) <==> forall i :: 0 <= i < |tries| ==> Succeeds(tries[i]))
  {
    StepsFates(limit, events);
    CutFate(Steps(limit, events), last, CutTries(limit, events));
  }

  function Sum(bodies: seq<Bytes>): nat {
    if bodies == [] then 0 else Sum(bodies[..|bodies| - 1]) + |bodies[|bodies| - 1]|
  }

  /** Lost pieces are not empty, so the part sizes miss exactly what was lost. */
  lemma {:induction false} CompleteIffSizesAddUp(pieces: seq<Piece>)
    requires forall i :: 0 <= i < |pieces| ==> pieces[i].body != []
    ensures Sum(Parts(pieces)) <= |Whole(pieces)|
    ensures Complete(pieces) <==> Sum(Parts(pieces)) == |Whole(pieces)|
    ensures Complete(pieces) ==> Flat(Parts(pieces)) == Whole(pieces)
  {
    if pieces != [] {
      var n := |pieces| - 1;
      CompleteIffSizesAddUp(pieces[..n]);
      assert pieces[..n] + [pieces[n]] == pieces;
      PiecesSnoc(pieces[..n], pieces[n]);
      if pieces[n].Uploaded? {
        var parts := Parts(pieces[..n]) + [pieces[n].body];
        assert parts[..|parts| - 1] == Parts(pieces[..n]);
      } else {
        assert Parts(pieces) == Parts(pieces[..n]);
        assert pieces[n].body != [];
      }
    }
  }

  /**
    Every run, whatever the upload outcomes: the transcript is the uploaded parts
    interleaved with the lost segments; `complete` means the part sizes add up, and then
    the parts concatenate to the transcript; and every part's key stores its bytes.
  */
  lemma RunFacts(limit: nat, events: seq<Event>, last: seq<Put>)
    ensures var log := RunLog(limit, events, last);
            && log.local == Transcript(events) == Whole(log.pieces)
            && (Complete(log.pieces) <==> Sum(Parts(log.pieces)) == |Transcript(events)|)
            && (Complete(log.pieces) ==> Flat(Parts(log.pieces)) == Transcript(events))
            && Stored(log.store, Parts(log.pieces))
  {
    StepsKeep(limit, events);
    CutKeeps(Steps(limit, events), last);
    var log := RunLog(limit, events, last);
    CompleteIffSizesAddUp(log.pieces);
  }

  /** A failed PUT may still deliver its bytes later: `arrivals` overwrite the store. */
  function Deliver(store: map<nat, Bytes>, arrivals: seq<(nat, Bytes)>): map<nat, Bytes> {
    if arrivals == [] then store
    else Deliver(store, arrivals[..|arrivals| - 1])[arrivals[|arrivals| - 1].0 := arrivals[|arrivals| - 1].1]
  }

  ghost predicate Tried(pieces: seq<Piece>, i: nat, b: Bytes) { (i, b) in SentBy(pieces) }

  /** `b` was sent to the key of a part that is not `b`. */
  ghost predicate Stray(pieces: seq<Piece>, i: nat, b: Bytes) {
    Tried(pieces, i, b) && 1 <= i <= |Parts(pieces)| && b != Parts(pieces)[i - 1]
  }

  /** A lost piece and the uploaded one that took its index, with another body. */
  predicate Clash(pieces: seq<Piece>, a: nat, b: nat) {
    && a < b < |pieces| && pieces[a].Lost? && pieces[b].Uploaded? && pieces[a].body != pieces[b].body
    && forall c :: a < c < b ==> pieces[c].Lost?
  }

  /** Piece `a`, with this body, and all pieces after it were lost. */
  predicate LostSince(pieces: seq<Piece>, a: nat, body: Bytes) {
    a < |pieces| && pieces[a].body == body && forall c :: a <= c < |pieces| ==> pieces[c].Lost?
  }

  lemma {:induction false} TriedIndices(pieces: seq<Piece>, i: nat, b: Bytes)
    ensures Tried(pieces, i, b) ==> 1 <= i <= |Parts(pieces)| + 1
    decreases |pieces|
  {
    if pieces != [] { TriedIndices(pieces[..|pieces| - 1], i, b); }
  }

  lemma TriedSnoc(pieces: seq<Piece>, p: Piece, i: nat, b: Bytes)
    ensures Tried(pieces + [p], i, b) <==> Tried(pieces, i, b) || (i == |Parts(pieces)| + 1 && b == p.body)
  {
    SentSnoc(pieces, p);
  }

  lemma LostSinceSnoc(pieces: seq<Piece>, p: Piece, a: nat, b: Bytes)
    ensures LostSince(pieces + [p], a, b) <==> p.Lost? && (LostSince(pieces, a, b) || (a == |pieces| && p.body == b))
  {
    var all := pieces + [p];
    assert all[|pieces|] == p && forall c :: 0 <= c < |pieces| ==> all[c] == pieces[c];
    if LostSince(all, a, b) && a < |pieces| {
      forall c | a <= c < |pieces| ensures pieces[c].Lost? { assert all[c].Lost?; }
    }
  }

  /** The next index was tried by exactly the pieces lost since the last upload. */
  lemma {:induction false} NextIndexTried(pieces: seq<Piece>, b: Bytes)
    ensures Tried(pieces, |Parts(pieces)| + 1, b) <==> exists a: nat :: LostSince(pieces, a, b)
    decreases |pieces|
  {
    if pieces != [] {
      var n := |pieces| - 1;
      var before, p := pieces[..n], pieces[n];
      assert before + [p] == pieces;
      NextIndexTried(before, b);
      PiecesSnoc(before, p);
      TriedSnoc(before, p, |Parts(pieces)| + 1, b);
      TriedIndices(before, |Parts(pieces)| + 1, b);
      forall a: nat
        ensures LostSince(pieces, a, b) <==> p.Lost? && (LostSince(before, a, b) || (a == n && p.body == b))
      {
        LostSinceSnoc(before, p, a, b);
      }
      assert p.Lost? && p.body == b ==> LostSince(pieces, n, b);
    }
  }

  lemma ClashSnoc(pieces: seq<Piece>, p: Piece, a: nat, b: nat)
    ensures b < |pieces| ==> (Clash(pieces + [p], a, b) <==> Clash(pieces, a, b))
    ensures b == |pieces| ==> (Clash(pieces + [p], a, b) <==>
                               p.Uploaded? && a < b && LostSince(pieces, a, pieces[a].body) && pieces[a].body != p.body)
  {
    var all := pieces + [p];
    assert all[|pieces|] == p && forall c :: 0 <= c < |pieces| ==> all[c] == pieces[c];
    if b == |pieces| && Clash(all, a, b) {
      forall c | a <= c < |pieces| ensures pieces[c].Lost? { assert all[c].Lost?; }
    }
  }

  lemma StraySnoc(pieces: seq<Piece>, p: Piece, i: nat, b: Bytes)
    ensures Stray(pieces + [p], i, b) <==>
            Stray(pieces, i, b) || (p.Uploaded? && i == |Parts(pieces)| + 1 && Tried(pieces, i, b) && b != p.body)
  {
    PiecesSnoc(pieces, p);
    TriedSnoc(pieces, p, i, b);
    TriedIndices(pieces, i, b);
  }

  /** Stray bodies and clashing pieces are the same thing. */
  lemma {:induction false} StrayIffClash(pieces: seq<Piece>)
    ensures (exists i: nat, b: Bytes :: Stray(pieces, i, b)) <==> exists a: nat, b: nat :: Clash(pieces, a, b)
    decreases |pieces|
  {
    if pieces != [] {
      var n := |pieces| - 1;
      var before, p := pieces[..n], pieces[n];
      assert before + [p] == pieces;
      StrayIffClash(before);
      if i: nat, b: Bytes :| Stray(pieces, i, b) {
        StraySnoc(before, p, i, b);
        if Stray(before, i, b) {
          var a: nat, c: nat :| Clash(before, a, c);
          ClashSnoc(before, p, a, c);
        } else {
          NextIndexTried(before, b);
          var a: nat :| LostSince(before, a, b);
          ClashSnoc(before, p, a, n);
        }
      }
      if a: nat, c: nat :| Clash(pieces, a, c) {
        ClashSnoc(before, p, a, c);
        if c < n {
          var i: nat, b: Bytes :| Stray(before, i, b);
          StraySnoc(before, p, i, b);
        } else {
          NextIndexTried(before, before[a].body);
          StraySnoc(before, p, |Parts(before)| + 1, before[a].body);
        }
      }
    }
  }

  lemma {:induction false} DeliverySafe(store: map<nat, Bytes>, bodies: seq<Bytes>, arrivals: seq<(nat, Bytes)>)
    requires Stored(store, bodies)
    requires forall a :: a in arrivals && 1 <= a.0 <= |bodies| ==> a.1 == bodies[a.0 - 1]
    ensures Stored(Deliver(store, arrivals), bodies)
    decreases |arrivals|
  {
    if arrivals != [] {
      var n := |arrivals| - 1;
      DeliverySafe(store, bodies, arrivals[..n]);
      assert arrivals[n] in arrivals;
    }
  }

  /** Deliveries of bodies that were sent during the run leave some part's key with other bytes. */
  ghost predicate Damages(log: Log, arrivals: seq<(nat, Bytes)>) {
    (forall a :: a in arrivals ==> a in log.sent) && !Stored(Deliver(log.store, arrivals), Parts(log.pieces))
  }

  /**
    Late deliveries can damage an upload exactly when some segment was given up and the
    segment that took its index was uploaded with other bytes.
  */
  lemma LateDeliveryDamagesIff(limit: nat, events: seq<Event>, last: seq<Put>)
    ensures var log := RunLog(limit, events, last);
            (exists arrivals :: Damages(log, arrivals)) <==> exists a: nat, b: nat :: Clash(log.pieces, a, b)
  {
    StepsKeep(limit, events);
    CutKeeps(Steps(limit, events), last);
    var log := RunLog(limit, events, last);
    StrayIffClash(log.pieces);
    if i: nat, b: Bytes :| Stray(log.pieces, i, b) {
      var arrivals := [(i, b)];
      assert arrivals[..0] == [];
      assert Deliver(log.store, arrivals)[i] == b;
      assert Damages(log, arrivals);
    } else {
      forall arrivals: seq<(nat, Bytes)> ensures !Damages(log, arrivals) { NothingStray(log, arrivals); }
    }
  }

  lemma NothingStray(log: Log, arrivals: seq<(nat, Bytes)>)
    requires Inv(log) && !exists i: nat, b: Bytes :: Stray(log.pieces, i, b)
    ensures !Damages(log, arrivals)
  {
    if forall a :: a in arrivals ==> a in log.sent {
      forall a: (nat, Bytes) | a in arrivals && 1 <= a.0 <= |Parts(log.pieces)|
        ensures a.1 == Parts(log.pieces)[a.0 - 1]
      {
        assert Tried(log.pieces, a.0, a.1);
        assert !Stray(log.pieces, a.0, a.1);
      }
      DeliverySafe(log.store, Parts(log.pieces), arrivals);
    }
  }

  lemma CompleteDoesNotClash(pieces: seq<Piece>)
    requires Complete(pieces)
    ensures forall a: nat, b: nat :: !Clash(pieces, a, b)
  {
  }

  /** In particular nothing can damage a complete upload. */
  lemma LateDeliveriesHarmless(limit: nat, events: seq<Event>, last: seq<Put>, arrivals: seq<(nat, Bytes)>)
    requires var log := RunLog(limit, events, last);
             Complete(log.pieces) && forall a :: a in arrivals ==> a in log.sent
    ensures var log := RunLog(limit, events, last);
            Stored(Deliver(log.store, arrivals), Parts(log.pieces))
  {
    LateDeliveryDamagesIff(limit, events, last);
    var log := RunLog(limit, events, last);
    CompleteDoesNotClash(log.pieces);
    assert !Damages(log, arrivals);
  }

  const REFUSED: seq<Put> := [Refused(false), Refused(false), Refused(false)]

  /** A one-line log whose segment was given up. */
  function GivenUp(a: byte): Log { Log([a, 10], [Lost([a, 10])], [], map[], {(1, [a, 10])}) }

  lemma FirstGivenUp(a: byte)
    ensures Steps(1, [Line(Stdout, [a], [], REFUSED)]) == GivenUp(a)
  {
    var e := Line(Stdout, [a], [], REFUSED);
    assert [e][..0] == [];
    assert Steps(1, [e][..0]) == EMPTY;
    assert Encode(e) == [a, 10];
    var none: Bytes := [];
    assert none + [a, 10] == [a, 10];
    var store: map<nat, Bytes> := map[];
    TriesRefused();
    assert Parts([]) == [];
    var grown := Log([a, 10], [], [a, 10], map[], {});
    assert Step(1, EMPTY, e) == Cut(grown, REFUSED);
  }

  lemma SecondAccepted(a: byte, b: byte)
    ensures var log := Step(1, GivenUp(a), Line(Stdout, [b], [], [Accepted]));
            log.pieces == [Lost([a, 10]), Uploaded([b, 10])] && Parts(log.pieces) == [[b, 10]] && log.segment == []
            && log.store == map[1 := [b, 10]] && (1, [a, 10]) in log.sent
  {
    var e := Line(Stdout, [b], [], [Accepted]);
    var none: Bytes := [];
    assert Encode(e) == [b, 10] && none + [b, 10] == [b, 10];
    var before := GivenUp(a);
    assert before.pieces[..0] == [];
    assert Parts(before.pieces) == [];
    assert e.tries[0].Accepted? && LandsAt(e.tries, 0);
    var after := Step(1, before, e);
    assert after.pieces == before.pieces + [Uploaded([b, 10])];
    PiecesSnoc(before.pieces, Uploaded([b, 10]));
  }

  /** They can damage an incomplete one: a given-up segment arriving over its index's next user. */
  lemma LateDeliveryDamagesIncomplete(a: byte, b: byte)
    requires a != b
    ensures var log := RunLog(1, [Line(Stdout, [a], [], REFUSED), Line(Stdout, [b], [], [Accepted])], []);
            && !Complete(log.pieces) && Parts(log.pieces) == [[b, 10]] && (1, [a, 10]) in log.sent
            && Deliver(log.store, [(1, [a, 10])])[1] != Parts(log.pieces)[0]
  {
    var events := [Line(Stdout, [a], [], REFUSED), Line(Stdout, [b], [], [Accepted])];
    FirstGivenUp(a);
    SecondAccepted(a, b);
    assert events[..1] == [events[0]];
    assert Steps(1, events) == Step(1, GivenUp(a), events[1]);
    var log := RunLog(1, events, []);
    assert log.pieces[0].Lost?;
    assert [(1, [a, 10])][..0] == [];
  }

  /**
    What an upload comes to, said of the attempts: it succeeds if one of the first three is
    accepted; its key holds the body if it did before, or if an attempt up to the first
    accepted one was accepted or has landed; no other key changes.
  */
  lemma UploadMeans(store: map<nat, Bytes>, index: nat, body: Bytes, tries: seq<Put>)
    ensures Succeeds(tries) <==> exists k :: 0 <= k < 3 && k < |tries| && tries[k].Accepted?
    ensures var after := PutAt(store, index, body, tries);
            && (index in after && after[index] == body <==>
                || (index in store && store[index] == body)
                || exists k :: 0 <= k < 3 && k < |tries| && (forall j :: 0 <= j < k ==> !tries[j].Accepted?)
                               && (tries[k].Accepted? || tries[k].landed))
            && (index in after && after[index] != body ==> index in store && after[index] == store[index])
            && (forall i :: i != index ==>
                  (i in after <==> i in store) && (i in store ==> after[i] == store[i]))
  {
    if k :| 0 <= k < 3 && k < |tries| && (forall j :: 0 <= j < k ==> !tries[j].Accepted?)
            && (tries[k].Accepted? || tries[k].landed)
    {
      assert LandsAt(tries, k);
    }
  }

  lemma TriesRefused()
    ensures !Succeeds(REFUSED) && !Landed(REFUSED)
  {
    assert forall k :: 0 <= k < 3 ==> REFUSED[k] == Refused(false);
  }

  // ---------------------------------------------------------------------------
  // The writer
  // ---------------------------------------------------------------------------

  datatype Digest = Sha256(of: Bytes)

  datatype Part = Part(index: nat, bytes: int, sha256: Digest)

  datatype Manifest = Manifest(parts: seq<Part>, totalBytes: int, totalSha256: Digest, complete: bool)

  function PartOf(index: nat, body: Bytes): Part { Part(index, |body|, Sha256(body)) }

  function PartList(bodies: seq<Bytes>): (r: seq<Part>)
    ensures |r| == |bodies|
  {
    if bodies == [] then []
    else PartList(bodies[..|bodies| - 1]) + [PartOf(|bodies|, bodies[|bodies| - 1])]
  }

  lemma PartListSnoc(bodies: seq<Bytes>, body: Bytes)
    ensures PartList(bodies + [body]) == PartList(bodies) + [PartOf(|bodies| + 1, body)]
  {
    assert (bodies + [body])[..|bodies|] == bodies;
  }

  /** The list has one part for each body, counted from one, with its size and digest. */
  lemma {:induction false} PartListMeans(bodies: seq<Bytes>)
    ensures forall i :: 0 <= i < |bodies| ==> PartList(bodies)[i] == Part(i + 1, |bodies[i]|, Sha256(bodies[i]))
    decreases |bodies|
  {
    if bodies != [] {
      var n := |bodies| - 1;
      PartListMeans(bodies[..n]);
      forall i | 0 <= i < |bodies| ensures PartList(bodies)[i] == Part(i + 1, |bodies[i]|, Sha256(bodies[i])) {
        if i < n { assert PartList(bodies)[i] == PartList(bodies[..n])[i]; }
      }
    }
  }

  /** What the writer holds besides the segment and the store. */
  datatype Tally = Tally(parts: seq<Part>, complete: bool)

  function TallyOf(pieces: seq<Piece>): Tally { Tally(PartList(Parts(pieces)), Complete(pieces)) }

  function Cutting(t: Tally, body: Bytes, ok: bool): Tally {
    if ok then Tally(t.parts + [PartOf(|t.parts| + 1, body)], t.complete) else Tally(t.parts, false)
  }

  lemma TallySnoc(pieces: seq<Piece>, p: Piece)
    ensures |TallyOf(pieces).parts| == |Parts(pieces)|
    ensures TallyOf(pieces + [p]) == Cutting(TallyOf(pieces), p.body, p.Uploaded?)
  {
    PiecesSnoc(pieces, p);
    if p.Uploaded? {
      PartListSnoc(Parts(pieces), p.body);
    } else {
      assert Parts(pieces + [p]) == Parts(pieces);
    }
  }

  /** The log after a cut, from what the upload came to. */
  function CutWith(log: Log, store: map<nat, Bytes>, ok: bool): Log {
    Log(log.local, log.pieces + [if ok then Uploaded(log.segment) else Lost(log.segment)], [], store,
        log.sent + {(|Parts(log.pieces)| + 1, log.segment)})
  }

  lemma CutTally(log: Log, store: map<nat, Bytes>, ok: bool)
    ensures |TallyOf(log.pieces).parts| == |Parts(log.pieces)|
    ensures TallyOf(CutWith(log, store, ok).pieces) == Cutting(TallyOf(log.pieces), log.segment, ok)
  {
    TallySnoc(log.pieces, if ok then Uploaded(log.segment) else Lost(log.segment));
  }

  /** `at` names an event that appends to the local file. */
  predicate AppendFails(events: seq<Event>, at: Option<nat>) {
    at.Some? && at.value < |events| && events[at.value].Line?
  }

  class Writer {
    const limit: nat
    /** What this run appended to the local file. */
    var local: Bytes
    var segment: Bytes
    var parts: seq<Part>
    var totalBytes: int
    var complete: bool
    var store: map<nat, Bytes>
    ghost var log: Log

    /** The fields are what the abstract log says they are. */
    ghost predicate Valid()
      reads this
    {
      && segment == log.segment && store == log.store
      && Tally(parts, complete) == TallyOf(log.pieces)
      && local == log.local && totalBytes == |local|
    }

    constructor (segmentBytes: nat)
      ensures Valid() && log == EMPTY && limit == segmentBytes
    {
      limit := segmentBytes;
      local, segment, parts, totalBytes, complete, store := [], [], [], 0, true, map[];
      log := EMPTY;
    }

    /** `upload_segment`: retries a bounded number of times. */
    method UploadSegment(index: nat, body: Bytes, tries: seq<Put>) returns (r: Option<Part>)
      modifies `store
      ensures r == if Succeeds(tries) then Some(PartOf(index, body)) else None
      ensures store == PutAt(old(store), index, body, tries)
    {
      for i := 0 to RETRIES
        invariant forall k :: 0 <= k < i && k < |tries| ==> !tries[k].Accepted?
        invariant store == if exists k :: 0 <= k < i && LandsAt(tries, k) then old(store)[index := body] else old(store)
      {
        var p := if i < |tries| then tries[i] else Refused(false);
        if p.Accepted? {
          store := store[index := body];
          assert LandsAt(tries, i);
          return Some(PartOf(index, body));
        }
        if p.landed {
          store := store[index := body];
          assert LandsAt(tries, i);
        }
      }
      r := None;
    }

    /** Enters what an upload of the segment came to. */
    method EnterPart(part: Option<Part>, ghost was: Log, ghost tries: seq<Put>)
      requires was.segment != [] && segment == was.segment && local == was.local && totalBytes == |local|
      requires Tally(parts, complete) == TallyOf(was.pieces)
      requires store == PutAt(was.store, |Parts(was.pieces)| + 1, segment, tries)
      requires part == if Succeeds(tries) then Some(PartOf(|parts| + 1, segment)) else None
      modifies this
      ensures Valid() && log == Cut(was, tries)
    {
      ghost var tally := Cutting(Tally(parts, complete), segment, part.Some?);
      CutTally(was, store, part.Some?);
      log := CutWith(was, store, part.Some?);
      if part.Some? { parts := parts + [part.value]; } else { complete := false; }
      segment := [];
      assert Tally(parts, complete) == tally;
    }

    /** Cuts the current segment off and uploads it. */
    method CutSegment(tries: seq<Put>)
      requires Valid()
      modifies this
      ensures Valid() && log == Cut(old(log), tries)
    {
      if segment != [] {
        ghost var was := log;
        CutTally(was, store, true);
        var part := UploadSegment(|parts| + 1, segment, tries);
        EnterPart(part, was, tries);
      }
    }

    /** Appends a line to the local file and the segment, and cuts a full segment. */
    method TakeLine(e: Event)
      requires Valid() && e.Line?
      modifies this
      ensures Valid() && log == Step(limit, old(log), e)
    {
      var encoded := Encode(e);
      local := local + encoded;
      totalBytes := totalBytes + |encoded|;
      segment := segment + encoded;
      log := log.(local := log.local + encoded, segment := log.segment + encoded);
      if |segment| >= limit { CutSegment(e.tries); }
    }

    /** Takes the `i`-th event, after all before it. */
    method TakeEvent(events: seq<Event>, i: nat)
      requires i < |events| && Valid() && log == Steps(limit, events[..i])
      modifies this
      ensures Valid() && log == Steps(limit, events[..i + 1])
    {
      StepsSnoc(limit, events, i);
      if events[i].Tick? { CutSegment(events[i].tries); } else { TakeLine(events[i]); }
    }

    /** The event loop; a failed append of a line ends it. */
    method TakeEvents(events: seq<Event>, appendFailsAt: Option<nat>) returns (ok: bool)
      requires Valid() && log == EMPTY
      modifies this
      ensures ok <==> !AppendFails(events, appendFailsAt)
      ensures ok ==> Valid() && log == Steps(limit, events)
    {
      for i := 0 to |events|
        invariant Valid() && log == Steps(limit, events[..i])
        invariant appendFailsAt.Some? && appendFailsAt.value < i ==> !events[appendFailsAt.value].Line?
      {
        if events[i].Line? && appendFailsAt == Some(i) { return false; }
        TakeEvent(events, i);
      }
      assert events[..|events|] == events;
      ok := true;
    }

    /** `Writer::run`. `appendFailsAt`: the local append of that event fails, and the run with it. */
    method Run(events: seq<Event>, last: seq<Put>, appendFailsAt: Option<nat>, manifestPut: Put)
      returns (r: Result<Manifest, string>)
      requires Valid() && log == EMPTY
      modifies this
      ensures r.Ok? <==> manifestPut.Accepted? && !AppendFails(events, appendFailsAt)
      ensures r.Ok? ==>
                && log == RunLog(limit, events, last) && store == log.store && local == Transcript(events)
                && |r.value.parts| == |Parts(log.pieces)|
                && (forall i :: 0 <= i < |r.value.parts| ==>
                      var body := Parts(log.pieces)[i];
                      r.value.parts[i] == Part(i + 1, |body|, Sha256(body)))
                && r.value.totalBytes == |Transcript(events)| && r.value.totalSha256 == Sha256(Transcript(events))
                && (r.value.complete <==> Sum(Parts(log.pieces)) == r.value.totalBytes)
                && (r.value.complete ==> Flat(Parts(log.pieces)) == Transcript(events))
      ensures r.Ok? ==> Stored(store, Parts(log.pieces))
      ensures r.Ok? ==>
                var tries := RunTries(limit, events, last);
                r.value.complete <==> forall i :: 0 <= i < |tries| ==> Succeeds(tries[i])
    {
      var ok := TakeEvents(events, appendFailsAt);
      if !ok { return Err("append local raw log"); }
      CutSegment(last);
      RunFacts(limit, events, last);
      CompleteIffAllAccepted(limit, events, last);
      PartListMeans(Parts(log.pieces));
      if !manifestPut.Accepted? { return Err("upload manifest"); }
      r := Ok(Manifest(parts, totalBytes, Sha256(local), complete));
    }
  }
}
