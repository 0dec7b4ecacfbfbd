/**
  The on-disk retry queue for task results that could not be written back: one file
  per attempt, replayed until delivered, rejected, corrupt or too old.
*/
module WritebackQueue {
  import opened Wrappers

  // ---------------------------------------------------------------------------
  // File names
  // ---------------------------------------------------------------------------

  predicate SafeChar(c: char) { 'a' <= c <= 'z' || 'A' <= c <= 'Z' || '0' <= c <= '9' || c == '-' }

  function Sanitize(attempt: string): string {
    seq(|attempt|, i requires 0 <= i < |attempt| => if SafeChar(attempt[i]) then attempt[i] else '_')
  }

  function FileName(attempt: string): string { Sanitize(attempt) + ".json" }

  predicate Safe(attempt: string) { forall i :: 0 <= i < |attempt| ==> SafeChar(attempt[i]) }

  /** Attempts made of letters, digits and dashes, UUIDs among them, never share a file. */
  lemma SafeAttemptsHaveOwnFiles(a: string, b: string)
    requires Safe(a) && Safe(b)
    ensures FileName(a) == FileName(b) <==> a == b
  {
    assert Sanitize(a) == a && Sanitize(b) == b;
    if FileName(a) == FileName(b) { assert a == FileName(a)[..|FileName(a)| - 5] == b; }
  }

  /** Whatever the attempt is called, its file has a plain name of safe characters and underscores. */
  lemma FileNameIsPlain(attempt: string)
    ensures |FileName(attempt)| == |attempt| + 5 && FileName(attempt)[|attempt|..] == ".json"
    ensures forall i :: 0 <= i < |attempt| ==>
              FileName(attempt)[i] == if SafeChar(attempt[i]) then attempt[i] else '_'
  {
  }

  /** `Path::extension() == "json"`: a name that is only `.json` has no extension. */
  predicate Drained(name: string) { |name| > 5 && name[|name| - 5..] == ".json" }

  lemma DrainedIff(attempt: string)
    ensures Drained(FileName(attempt)) <==> attempt != ""
  {
    assert FileName(attempt)[|FileName(attempt)| - 5..] == ".json";
  }

  // ---------------------------------------------------------------------------
  // Age
  // ---------------------------------------------------------------------------

  const I64_MAX: int := 0x7FFF_FFFF_FFFF_FFFF
  const TWO64: int := 0x1_0000_0000_0000_0000

  function SaturatingSub(a: int, b: int): int {
    if a - b > I64_MAX then I64_MAX else if a - b < -I64_MAX - 1 then -I64_MAX - 1 else a - b
  }

  function AsU64(x: int): int { if x >= 0 then x else x + TWO64 }

  predicate AgeExceeded(now: int, enqueuedAt: int, maxAge: nat) {
    AsU64(SaturatingSub(now, enqueuedAt)) > maxAge
  }

  /**
    With the clock at or after the enqueue time this is the age test, and never true of the
    largest limits; a clock set back exceeds every limit that fits a signed word.
  */
  lemma AgeExceededIff(now: int, enqueuedAt: int, maxAge: nat)
    ensures now >= enqueuedAt ==>
              (AgeExceeded(now, enqueuedAt, maxAge) <==> now - enqueuedAt > maxAge && maxAge < I64_MAX)
    ensures now < enqueuedAt && maxAge <= I64_MAX ==> AgeExceeded(now, enqueuedAt, maxAge)
  {
  }

  // ---------------------------------------------------------------------------
  // Replaying
  // ---------------------------------------------------------------------------

  datatype Content = Item(attempt: string, body: string, enqueuedAt: int) | Corrupt(n: int)

  datatype Response = Delivered | ClientError | Transient

  datatype Outcome = Flushed | Discarded | Retained

  type Files = map<string, Content>

  /** What becomes of a file whose content was read as `c`. */
  function Verdict(c: Content, r: Response, now: int, maxAge: nat): Outcome {
    if c.Corrupt? then Discarded
    else
      match r
      case Delivered => Flushed
      case ClientError => Discarded
      case Transient => if AgeExceeded(now, c.enqueuedAt, maxAge) then Discarded else Retained
  }

  function Replay(files: Files, name: string, r: Response, now: int, maxAge: nat, removeOk: bool): Files {
    if name in files && Verdict(files[name], r, now, maxAge) != Retained && removeOk then files - {name} else files
  }

  /**
    One entry of a drain: the file, the answer it gets, the clock, and whether removing it
    works. A file that cannot be read is left alone, as if it had not been listed.
  */
  datatype Entry = Entry(name: string, response: Response, now: int, removeOk: bool)

  function Drain(files: Files, entries: seq<Entry>, maxAge: nat): Files {
    if entries == [] then files
    else
      var e := entries[|entries| - 1];
      var before := Drain(files, entries[..|entries| - 1], maxAge);
      if Drained(e.name) then Replay(before, e.name, e.response, e.now, maxAge, e.removeOk) else before
  }

  /** How many entries of a drain deliver their file. */
  function Flushes(files: Files, entries: seq<Entry>, maxAge: nat): nat {
    if entries == [] then 0
    else
      var e := entries[|entries| - 1];
      var before := Drain(files, entries[..|entries| - 1], maxAge);
      Flushes(files, entries[..|entries| - 1], maxAge)
      + if Drained(e.name) && e.name in before && Verdict(before[e.name], e.response, e.now, maxAge) == Flushed
        then 1 else 0
  }

  /** What each answer to each content comes to. */
  lemma VerdictMeans(c: Content, r: Response, now: int, maxAge: nat)
    ensures Verdict(c, r, now, maxAge) == Flushed <==> c.Item? && r == Delivered
    ensures Verdict(c, r, now, maxAge) == Retained <==>
              c.Item? && r == Transient && !AgeExceeded(now, c.enqueuedAt, maxAge)
  {
  }

  /** Entry `i` finds its file in the queue, readable as an item, and delivers it. */
  ghost predicate Delivers(files: Files, entries: seq<Entry>, maxAge: nat, i: nat) {
    && i < |entries| && Drained(entries[i].name) && entries[i].response == Delivered
    && var before := Drain(files, entries[..i], maxAge);
       entries[i].name in before && before[entries[i].name].Item?
  }

  /** The entries of a drain that deliver. */
  ghost function Delivering(files: Files, entries: seq<Entry>, maxAge: nat): set<nat> {
    set i: nat | i < |entries| && Delivers(files, entries, maxAge, i)
  }

  lemma DeliveringSnoc(files: Files, entries: seq<Entry>, maxAge: nat)
    requires entries != []
    ensures var n := |entries| - 1;
            Delivering(files, entries, maxAge)
            == Delivering(files, entries[..n], maxAge) + if Delivers(files, entries, maxAge, n) then {n} else {}
  {
    var n := |entries| - 1;
    var fewer := entries[..n];
    forall i: nat | i < n ensures Delivers(files, entries, maxAge, i) <==> Delivers(files, fewer, maxAge, i) {
      assert fewer[..i] == entries[..i] && fewer[i] == entries[i];
    }
  }

  lemma FlushSnoc(files: Files, entries: seq<Entry>, maxAge: nat)
    requires entries != []
    ensures var n := |entries| - 1;
            Flushes(files, entries, maxAge)
            == Flushes(files, entries[..n], maxAge) + if Delivers(files, entries, maxAge, n) then 1 else 0
  {
    var n := |entries| - 1;
    var before := Drain(files, entries[..n], maxAge);
    if entries[n].name in before {
      VerdictMeans(before[entries[n].name], entries[n].response, entries[n].now, maxAge);
    }
  }

  /** A drain reports as many flushes as entries that deliver a readable item. */
  lemma {:induction false} FlushesCount(files: Files, entries: seq<Entry>, maxAge: nat)
    ensures Flushes(files, entries, maxAge) == |Delivering(files, entries, maxAge)|
    decreases |entries|
  {
    if entries != [] {
      FlushesCount(files, entries[..|entries| - 1], maxAge);
      DeliveringSnoc(files, entries, maxAge);
      FlushSnoc(files, entries, maxAge);
    }
  }

  /** Why an entry takes a file out of the queue. */
  ghost predicate Leaves(files: Files, e: Entry, maxAge: nat) {
    && Drained(e.name) && e.name in files && e.removeOk
    && (files[e.name].Corrupt? || e.response != Transient || AgeExceeded(e.now, files[e.name].enqueuedAt, maxAge))
  }

  /** A drain only removes, and every removal has its reason among the entries; the rest is untouched. */
  lemma {:induction false} DrainRemovals(files: Files, entries: seq<Entry>, maxAge: nat, name: string)
    ensures name in Drain(files, entries, maxAge) ==>
              name in files && Drain(files, entries, maxAge)[name] == files[name]
    ensures name in files ==>
              (name !in Drain(files, entries, maxAge) <==>
               exists i :: 0 <= i < |entries| && entries[i].name == name && Leaves(files, entries[i], maxAge))
    decreases |entries|
  {
    if entries != [] {
      var n := |entries| - 1;
      var before := Drain(files, entries[..n], maxAge);
      DrainRemovals(files, entries[..n], maxAge, name);
      if name in files {
        if name !in before {
          var i :| 0 <= i < n && entries[..n][i].name == name && Leaves(files, entries[..n][i], maxAge);
          assert entries[i].name == name && Leaves(files, entries[i], maxAge);
        } else if name !in Drain(files, entries, maxAge) {
          assert entries[n].name == name && Leaves(files, entries[n], maxAge);
        } else {
          forall i | 0 <= i < |entries| && entries[i].name == name ensures !Leaves(files, entries[i], maxAge) {
            if i < n { assert entries[..n][i] == entries[i]; }
          }
        }
      }
    }
  }

  class Queue {
    var files: Files

    /** `enqueue`: write aside, then rename over the attempt's file. */
    method Enqueue(attempt: string, body: string, now: int)
      modifies this
      ensures files == old(files)[FileName(attempt) := Item(attempt, body, now)]
    {
      files := files[FileName(attempt) := Item(attempt, body, now)];
    }

    method ReplayOne(name: string, r: Response, now: int, maxAge: nat, removeOk: bool) returns (o: Outcome)
      requires name in files
      modifies this
      ensures o == Verdict(old(files)[name], r, now, maxAge)
      ensures files == Replay(old(files), name, r, now, maxAge, removeOk)
    {
      var c := files[name];
      if c.Corrupt? {
        o := Discarded;
      } else {
        match r
        case Delivered => o := Flushed;
        case ClientError => o := Discarded;
        case Transient => o := if AgeExceeded(now, c.enqueuedAt, maxAge) then Discarded else Retained;
      }
      if o != Retained && removeOk { files := files - {name}; }
    }

    /** `drain_once` over a directory listing. */
    method DrainOnce(entries: seq<Entry>, maxAge: nat) returns (flushed: nat)
      modifies this
      ensures files == Drain(old(files), entries, maxAge) && flushed == Flushes(old(files), entries, maxAge)
      ensures forall name :: name in files ==> name in old(files) && files[name] == old(files)[name]
      ensures forall name :: name in old(files) && name !in files ==>
                exists i :: 0 <= i < |entries| && entries[i].name == name && Leaves(old(files), entries[i], maxAge)
    {
      flushed := 0;
      for i := 0 to |entries|
        invariant files == Drain(old(files), entries[..i], maxAge)
        invariant flushed == Flushes(old(files), entries[..i], maxAge)
      {
        assert entries[..i + 1][..i] == entries[..i];
        var e := entries[i];
        if Drained(e.name) && e.name in files {
          var o := ReplayOne(e.name, e.response, e.now, maxAge, e.removeOk);
          if o == Flushed { flushed := flushed + 1; }
        }
      }
      assert entries[..|entries|] == entries;
      forall name ensures name in files ==> name in old(files) && files[name] == old(files)[name] {
        DrainRemovals(old(files), entries, maxAge, name);
      }
      forall name | name in old(files) && name !in files
        ensures exists i :: 0 <= i < |entries| && entries[i].name == name && Leaves(old(files), entries[i], maxAge)
      {
        DrainRemovals(old(files), entries, maxAge, name);
      }
    }
  }

  // ---------------------------------------------------------------------------
  // Enqueueing while a drain is in flight
  // ---------------------------------------------------------------------------

  /** `stuck` counts verdicts whose file could not be removed. */
  datatype Ledger = Ledger(enqueued: nat, replaced: nat, flushed: nat, discarded: nat, stuck: nat)

  /** `inFlight`: the file being replayed and what was read from it. */
  datatype World = World(files: Files, inFlight: Option<(string, Content)>, ledger: Ledger)

  datatype Step =
    | Enqueues(attempt: string, body: string, at: int)
    | Reads(name: string)
    | Answers(response: Response, now: int, removeOk: bool)

  predicate Enabled(w: World, s: Step) {
    match s
    case Enqueues(_, _, _) => true
    case Reads(name) => w.inFlight.None? && name in w.files && Drained(name)
    case Answers(_, _, _) => w.inFlight.Some?
  }

  function Next(w: World, s: Step, maxAge: nat): World
    requires Enabled(w, s)
  {
    match s
    case Enqueues(attempt, body, at) =>
      var name := FileName(attempt);
      w.(files := w.files[name := Item(attempt, body, at)],
         ledger := w.ledger.(enqueued := w.ledger.enqueued + 1,
                             replaced := w.ledger.replaced + if name in w.files then 1 else 0))
    case Reads(name) => w.(inFlight := Some((name, w.files[name])))
    case Answers(response, now, removeOk) =>
      var (name, c) := w.inFlight.value;
      match Verdict(c, response, now, maxAge)
      case Retained => w.(inFlight := None)
      case Flushed =>
        w.(files := if removeOk then w.files - {name} else w.files, inFlight := None,
           ledger := w.ledger.(flushed := w.ledger.flushed + 1,
                               stuck := w.ledger.stuck + if removeOk then 0 else 1))
      case Discarded =>
        w.(files := if removeOk then w.files - {name} else w.files, inFlight := None,
           ledger := w.ledger.(discarded := w.ledger.discarded + 1,
                               stuck := w.ledger.stuck + if removeOk then 0 else 1))
  }

  /** Conservation; a file in flight is there until its answer comes. */
  ghost predicate Balanced(w: World) {
    && w.ledger.enqueued + w.ledger.stuck
       == w.ledger.flushed + w.ledger.discarded + w.ledger.replaced + |w.files|
    && (w.inFlight.Some? ==> w.inFlight.value.0 in w.files)
  }

  lemma SizeAfterWrite(files: Files, name: string, c: Content)
    ensures |files[name := c]| == |files| + if name in files then 0 else 1
  {
    var after := files[name := c];
    assert after.Keys == files.Keys + {name} && |after| == |after.Keys| && |files| == |files.Keys|;
    if name in files { assert after.Keys == files.Keys; }
  }

  lemma SizeAfterRemoval(files: Files, name: string)
    requires name in files
    ensures |files - {name}| == |files| - 1
  {
    var after := files - {name};
    assert after.Keys == files.Keys - {name} && |after| == |after.Keys| && |files| == |files.Keys|;
  }

  lemma StepKeepsBalance(w: World, s: Step, maxAge: nat)
    requires Balanced(w) && Enabled(w, s)
    ensures Balanced(Next(w, s, maxAge))
  {
    match s
    case Enqueues(attempt, body, at) => SizeAfterWrite(w.files, FileName(attempt), Item(attempt, body, at));
    case Reads(_) =>
    case Answers(_, _, _) => SizeAfterRemoval(w.files, w.inFlight.value.0);
  }

  ghost predicate IsRun(worlds: seq<World>, steps: seq<Step>, maxAge: nat) {
    && |worlds| == |steps| + 1 && worlds[0] == World(map[], None, Ledger(0, 0, 0, 0, 0))
    && forall i :: 0 <= i < |steps| ==>
         Enabled(worlds[i], steps[i]) && worlds[i + 1] == Next(worlds[i], steps[i], maxAge)
  }

  /** Over every interleaving nothing is lost from the books. */
  lemma {:induction false} RunBalanced(worlds: seq<World>, steps: seq<Step>, maxAge: nat, i: nat)
    requires IsRun(worlds, steps, maxAge) && i < |worlds|
    ensures Balanced(worlds[i])
  {
    if i > 0 {
      RunBalanced(worlds, steps, maxAge, i - 1);
      StepKeepsBalance(worlds[i - 1], steps[i - 1], maxAge);
    }
  }

  /** The answer was about the very content that is in the file now. */
  predicate Undisturbed(w: World) {
    w.inFlight.Some? ==> w.inFlight.value.0 in w.files && w.files[w.inFlight.value.0] == w.inFlight.value.1
  }

  /** The reasons for which content may leave the queue. */
  predicate Reason(c: Content, s: Step, maxAge: nat) {
    && s.Answers?
    && (c.Corrupt? || s.response == Delivered || s.response == ClientError || AgeExceeded(s.now, c.enqueuedAt, maxAge))
  }

  /**
    Content that was in a file and is not any more was replaced by a later enqueue of that
    file, or left for one of the four reasons, or was removed by an answer to older content.
  */
  lemma {:induction false} ContentLeaves(
    worlds: seq<World>, steps: seq<Step>, maxAge: nat, i: nat, j: nat, name: string)
    returns (k: nat)
    requires IsRun(worlds, steps, maxAge) && i <= j < |worlds| && name in worlds[i].files
    requires !(name in worlds[j].files && worlds[j].files[name] == worlds[i].files[name])
    ensures i <= k < j && name in worlds[k].files && worlds[k].files[name] == worlds[i].files[name]
    ensures || (steps[k].Enqueues? && FileName(steps[k].attempt) == name)
            || (steps[k].Answers? && worlds[k].inFlight.value.0 == name
                && (Undisturbed(worlds[k]) ==> Reason(worlds[i].files[name], steps[k], maxAge)))
    decreases j - i
  {
    if name in worlds[i + 1].files && worlds[i + 1].files[name] == worlds[i].files[name] {
      k := ContentLeaves(worlds, steps, maxAge, i + 1, j, name);
    } else {
      k := i;
    }
  }

  predicate EnqueuesTo(s: Step, name: string) { s.Enqueues? && FileName(s.attempt) == name }

  function Enqueued(s: Step): Content
    requires s.Enqueues?
  {
    Item(s.attempt, s.body, s.at)
  }

  /** Step `k` is the last enqueue to `name` after step `i` and before step `j`. */
  predicate LastEnqueue(steps: seq<Step>, i: nat, j: nat, name: string, k: nat) {
    i < k < j <= |steps| && EnqueuesTo(steps[k], name) && forall m :: k < m < j ==> !EnqueuesTo(steps[m], name)
  }

  /** From a read to its answer the file holds what was read, or what was enqueued to it last. */
  lemma {:induction false} FileInFlight(worlds: seq<World>, steps: seq<Step>, maxAge: nat, i: nat, j: nat)
    requires IsRun(worlds, steps, maxAge) && i < j < |worlds| && i < |steps| && steps[i].Reads?
    requires forall k :: i < k < j ==> !steps[k].Answers?
    ensures worlds[j].inFlight == Some((steps[i].name, worlds[i].files[steps[i].name]))
    ensures steps[i].name in worlds[j].files
    ensures var name, now := steps[i].name, worlds[j].files[steps[i].name];
            && (forall k: nat :: LastEnqueue(steps, i, j, name, k) ==> now == Enqueued(steps[k]))
            && (now != worlds[i].files[name] ==> exists k: nat :: LastEnqueue(steps, i, j, name, k))
    decreases j
  {
    if j > i + 1 {
      FileInFlight(worlds, steps, maxAge, i, j - 1);
      var name, s := steps[i].name, steps[j - 1];
      assert worlds[j] == Next(worlds[j - 1], s, maxAge) && s.Enqueues?;
      if EnqueuesTo(s, name) {
        assert LastEnqueue(steps, i, j, name, j - 1);
        assert forall k: nat :: LastEnqueue(steps, i, j, name, k) ==> k == j - 1;
      } else {
        var m := j - 1;
        assert forall k: nat :: LastEnqueue(steps, i, j, name, k) <==> LastEnqueue(steps, i, m, name, k);
        if k: nat :| LastEnqueue(steps, i, m, name, k) { assert LastEnqueue(steps, i, j, name, k); }
      }
    }
  }

  /** The answer at `j` takes out of the queue something other than what was read at `i`. */
  ghost predicate LosesOther(worlds: seq<World>, steps: seq<Step>, i: nat, j: nat)
    requires |worlds| == |steps| + 1 && i < j < |steps| && steps[i].Reads? && steps[i].name in worlds[i].files
  {
    var name := steps[i].name;
    name in worlds[j].files && name !in worlds[j + 1].files && worlds[j].files[name] != worlds[i].files[name]
  }

  /**
    A result is lost in flight exactly when its file was last enqueued to, since it was read,
    with something else than what was read, and the verdict on what was read removes the file.
  */
  lemma LostInFlightIff(worlds: seq<World>, steps: seq<Step>, maxAge: nat, i: nat, j: nat)
    requires IsRun(worlds, steps, maxAge) && i < j < |steps| && steps[i].Reads? && steps[j].Answers?
    requires forall k :: i < k < j ==> !steps[k].Answers?
    ensures steps[i].name in worlds[i].files
    ensures var name, read := steps[i].name, worlds[i].files[steps[i].name];
            LosesOther(worlds, steps, i, j) <==>
            && (exists k: nat :: LastEnqueue(steps, i, j, name, k) && Enqueued(steps[k]) != read)
            && Verdict(read, steps[j].response, steps[j].now, maxAge) != Retained && steps[j].removeOk
  {
    FileInFlight(worlds, steps, maxAge, i, j);
    assert worlds[j + 1] == Next(worlds[j], steps[j], maxAge);
  }

  /** For instance: a result enqueued over its file in flight goes with the answer to the older one. */
  lemma ResultLostInFlight(attempt: string, first: string, second: string)
    requires attempt != ""
    ensures var w0 := World(map[], None, Ledger(0, 0, 0, 0, 0));
            var w1 := Next(w0, Enqueues(attempt, first, 0), 10);
            && Enabled(w1, Reads(FileName(attempt)))
            && var w2 := Next(w1, Reads(FileName(attempt)), 10);
               var w3 := Next(w2, Enqueues(attempt, second, 1), 10);
               && w3.files[FileName(attempt)] == Item(attempt, second, 1)
               && Next(w3, Answers(Delivered, 2, true), 10).files == map[]
  {
    DrainedIff(attempt);
    var w0 := World(map[], None, Ledger(0, 0, 0, 0, 0));
    var w1 := Next(w0, Enqueues(attempt, first, 0), 10);
    var w2 := Next(w1, Reads(FileName(attempt)), 10);
    var w3 := Next(w2, Enqueues(attempt, second, 1), 10);
    assert w3.files.Keys == {FileName(attempt)};
  }
}
