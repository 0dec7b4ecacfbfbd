/**
  Shared runtime credentials and their supervisor. Every access to the shared
  snapshot is one atomic step; the supervisor, renewals and workers that report
  authentication failures interleave freely.
*/
module RuntimeAuth {
  import opened Wrappers

  datatype Status = Empty | Connected | Refreshing | Reauthenticating | PendingApproval | Shutdown

  datatype Snapshot = Snapshot(
    sessionId: Option<string>,
    token: Option<string>,
    expiresAt: Option<int>,
    generation: nat,
    reauthGeneration: nat,
    status: Status)

  datatype Credentials = Credentials(sessionId: string, token: string, expiresAt: int, generation: nat)

  const INITIAL: Snapshot := Snapshot(None, None, None, 0, 0, Empty)

  // ---------------------------------------------------------------------------
  // The operations on the snapshot
  // ---------------------------------------------------------------------------

  function SetSession(s: Snapshot, sessionId: string, token: string, expiresAt: int): Snapshot {
    s.(sessionId := Some(sessionId), token := Some(token), expiresAt := Some(expiresAt),
       generation := s.generation + 1, status := Connected)
  }

  /** A failure counts if it names no generation or the current one. */
  predicate Counts(s: Snapshot, generation: Option<nat>) {
    generation.None? || generation.value == s.generation
  }

  function ReportFailure(s: Snapshot, generation: Option<nat>): Snapshot {
    if Counts(s, generation) then s.(reauthGeneration := s.reauthGeneration + 1, status := Reauthenticating) else s
  }

  function CredentialsOf(s: Snapshot): Option<Credentials> {
    if s.sessionId.Some? && s.token.Some? && s.expiresAt.Some?
    then Some(Credentials(s.sessionId.value, s.token.value, s.expiresAt.value, s.generation))
    else None
  }

  /** What one look at the snapshot tells a waiting business caller. */
  datatype Look = Ready(credentials: Option<Credentials>) | Closed | Wait

  function BusinessLook(s: Snapshot, now: int, safetyWindow: nat): Look {
    if (s.status == Connected || s.status == Refreshing) && s.expiresAt.Some? && s.expiresAt.value - safetyWindow > now
    then Ready(CredentialsOf(s))
    else if s.status == Shutdown then Closed
    else Wait
  }

  class AuthState {
    var state: Snapshot

    constructor ()
      ensures state == INITIAL
    {
      state := INITIAL;
    }

    /** `set_session`; an expiry that does not parse changes nothing. */
    method SetSessionChecked(sessionId: string, token: string, expiresAt: Option<int>) returns (r: Option<Credentials>)
      modifies this
      ensures expiresAt.None? ==> r.None? && state == old(state)
      ensures expiresAt.Some? ==>
                && state == SetSession(old(state), sessionId, token, expiresAt.value)
                && r == Some(Credentials(sessionId, token, expiresAt.value, old(state).generation + 1))
    {
      if expiresAt.None? { return None; }
      state := state.(sessionId := Some(sessionId), token := Some(token), expiresAt := expiresAt);
      state := state.(generation := state.generation + 1);
      state := state.(status := Connected);
      r := CredentialsOf(state);
    }

    method MarkStatus(status: Status)
      modifies this
      ensures state == old(state).(status := status)
    {
      state := state.(status := status);
    }

    method ReportAuthFailure(generation: Option<nat>)
      modifies this
      ensures state == ReportFailure(old(state), generation)
    {
      if generation == None || generation == Some(state.generation) {
        state := state.(reauthGeneration := state.reauthGeneration + 1);
        state := state.(status := Reauthenticating);
      }
    }
  }

  // ---------------------------------------------------------------------------
  // The protocol
  // ---------------------------------------------------------------------------

  /**
    Where the supervisor is. `Selecting` waits for the refresh timer or a reauth event.
    A refresh marks the status, reads the credentials and asks for a renewal; a renewal
    refused for authentication falls through to enrolment. `fromReauth` tells which
    branch of the loop started the enrolment. After a failed refresh the status is looked at
    and, in a second step, put back.
  */
  datatype Pc =
    | Selecting
    | RefreshStarted
    | Renewing(credentials: Credentials)
    | EnrollStart(fromReauth: bool)
    | Enrolling(fromReauth: bool)
    | SessionSet(fromReauth: bool)
    | Reading
    | RefreshFailed
    | GivingUp

  datatype System = System(auth: Snapshot, pc: Pc, lastSeen: nat)

  /** One atomic step of some participant. */
  datatype Event =
    | TimerFires
    | ReauthWakes
    | ReadCredentials
    | Renewed(expiresAt: Option<int>)
    | RenewRefused
    | RenewFailed
    | EnrollBegins
    | NotApproved
    | EnrollErrors
    | Enrolled(sessionId: string, token: string, expiresAt: Option<int>)
    | CapabilitiesAccepted
    | CapabilitiesFailed
    | ReadsBack
    | RefreshGivenUp
    | StatusRestored
    | WorkerReports(generation: Option<nat>)
    | OtherRenewal(sessionId: string, token: string, until: int)
    | OtherMarks(status: Status)

  /** Control returns to the retry loop of the reauth branch, or the refresh has failed. */
  function Failed(fromReauth: bool): Pc { if fromReauth then EnrollStart(true) else RefreshFailed }

  predicate Enabled(s: System, e: Event) {
    match e
    case TimerFires => s.pc.Selecting?
    case ReauthWakes => s.pc.Selecting? && s.auth.reauthGeneration > s.lastSeen
    case ReadCredentials => s.pc.RefreshStarted?
    case Renewed(_) => s.pc.Renewing?
    case RenewRefused => s.pc.Renewing?
    case RenewFailed => s.pc.Renewing?
    case EnrollBegins => s.pc.EnrollStart?
    case NotApproved => s.pc.Enrolling?
    case EnrollErrors => s.pc.Enrolling?
    case Enrolled(_, _, _) => s.pc.Enrolling?
    case CapabilitiesAccepted => s.pc.SessionSet?
    case CapabilitiesFailed => s.pc.SessionSet?
    case ReadsBack => s.pc.Reading?
    case RefreshGivenUp => s.pc.RefreshFailed?
    case StatusRestored => s.pc.GivingUp?
    case WorkerReports(_) => true
    case OtherRenewal(_, _, _) => true
    case OtherMarks(_) => true
  }

  function Next(s: System, e: Event): System
    requires Enabled(s, e)
  {
    match e
    case TimerFires => s.(auth := s.auth.(status := Refreshing), pc := RefreshStarted)
    case ReauthWakes => s.(pc := EnrollStart(true))
    case ReadCredentials =>
      s.(pc := if CredentialsOf(s.auth).Some? then Renewing(CredentialsOf(s.auth).value) else RefreshFailed)
    case Renewed(expiresAt) =>
      if expiresAt.None? then s.(pc := RefreshFailed)
      else
        var c := s.pc.credentials;
        s.(auth := SetSession(s.auth, c.sessionId, c.token, expiresAt.value), pc := Reading)
    case RenewRefused => s.(pc := EnrollStart(false))
    case RenewFailed => s.(auth := s.auth.(status := Connected), pc := RefreshFailed)
    case EnrollBegins => s.(auth := s.auth.(status := Reauthenticating), pc := Enrolling(s.pc.fromReauth))
    case NotApproved => s.(auth := s.auth.(status := PendingApproval), pc := Failed(s.pc.fromReauth))
    case EnrollErrors => s.(pc := Failed(s.pc.fromReauth))
    case Enrolled(id, token, expiresAt) =>
      if expiresAt.None? then s.(pc := Failed(s.pc.fromReauth))
      else s.(auth := SetSession(s.auth, id, token, expiresAt.value), pc := SessionSet(s.pc.fromReauth))
    case CapabilitiesAccepted => s.(pc := Reading)
    case CapabilitiesFailed => s.(pc := Failed(s.pc.fromReauth))
    case ReadsBack => s.(lastSeen := s.auth.reauthGeneration, pc := Selecting)
    case RefreshGivenUp => s.(pc := if s.auth.status == Refreshing then GivingUp else Selecting)
    case StatusRestored => s.(auth := s.auth.(status := Connected), pc := Selecting)
    case WorkerReports(generation) => s.(auth := ReportFailure(s.auth, generation))
    case OtherRenewal(id, token, until) => s.(auth := SetSession(s.auth, id, token, until))
    case OtherMarks(status) => s.(auth := s.auth.(status := status))
  }

  /** `states[i]` is the system before `events[i]`. The supervisor starts on an enrolled or an empty state. */
  ghost predicate IsRun(states: seq<System>, events: seq<Event>) {
    && |states| == |events| + 1
    && Sound(states[0])
    && (forall i :: 0 <= i < |events| ==> Enabled(states[i], events[i]) && states[i + 1] == Next(states[i], events[i]))
  }

  /** Session fields come together, exactly from the first session on; the mark never runs ahead. */
  ghost predicate Sound(s: System) {
    && (s.auth.generation > 0 <==> s.auth.sessionId.Some?)
    && (s.auth.generation > 0 <==> s.auth.token.Some?)
    && (s.auth.generation > 0 <==> s.auth.expiresAt.Some?)
    && s.lastSeen <= s.auth.reauthGeneration
  }

  lemma StepKeeps(s: System, e: Event)
    requires Sound(s) && Enabled(s, e)
    ensures var t := Next(s, e);
            && Sound(t)
            && s.auth.generation <= t.auth.generation && s.auth.reauthGeneration <= t.auth.reauthGeneration
            && s.lastSeen <= t.lastSeen
            && (t.auth.reauthGeneration > s.auth.reauthGeneration ==> e.WorkerReports? && Counts(s.auth, e.generation))
  {
  }

  /** Over every interleaving the counters only grow and every state is sound. */
  lemma {:induction false} RunGrows(states: seq<System>, events: seq<Event>, i: nat, j: nat)
    requires IsRun(states, events) && i <= j < |states|
    ensures Sound(states[i]) && Sound(states[j])
    ensures states[i].auth.generation <= states[j].auth.generation
    ensures states[i].auth.reauthGeneration <= states[j].auth.reauthGeneration
    ensures states[i].lastSeen <= states[j].lastSeen
    decreases j
  {
    if i < j {
      RunGrows(states, events, i, j - 1);
      StepKeeps(states[j - 1], events[j - 1]);
    } else if i > 0 {
      RunGrows(states, events, i - 1, i - 1);
      StepKeeps(states[i - 1], events[i - 1]);
    }
  }

  /** A report from an older generation changes nothing at all. */
  lemma StaleReportIgnored(states: seq<System>, events: seq<Event>, i: nat, g: nat)
    requires IsRun(states, events) && i < |events| && events[i] == WorkerReports(Some(g))
    requires g < states[i].auth.generation
    ensures states[i + 1] == states[i]
  {
  }

  /**
    After the mark was read back, the reauth branch runs again only if some failure was
    reported since, naming no generation or the one current at that moment.
  */
  lemma {:induction false} ReauthNeedsFreshReport(states: seq<System>, events: seq<Event>, i: nat, j: nat)
    returns (k: nat)
    requires IsRun(states, events) && i < j < |events|
    requires events[i] == ReadsBack && events[j] == ReauthWakes
    requires forall m :: i < m < j ==> events[m] != ReadsBack
    ensures i < k < j && events[k].WorkerReports? && Counts(states[k].auth, events[k].generation)
  {
    MarkStays(states, events, i, j);
    k := FirstRise(states, events, i + 1, j);
  }

  lemma {:induction false} MarkStays(states: seq<System>, events: seq<Event>, i: nat, j: nat)
    requires IsRun(states, events) && i < j <= |events| && events[i] == ReadsBack
    requires forall m :: i < m < j ==> events[m] != ReadsBack
    ensures states[j].lastSeen == states[i + 1].auth.reauthGeneration
    decreases j
  {
    if j > i + 1 { MarkStays(states, events, i, j - 1); }
  }

  lemma {:induction false} FirstRise(states: seq<System>, events: seq<Event>, i: nat, j: nat) returns (k: nat)
    requires IsRun(states, events) && i < |states| && j < |states|
    requires i <= j && states[j].auth.reauthGeneration > states[i].auth.reauthGeneration
    ensures i <= k < j && events[k].WorkerReports? && Counts(states[k].auth, events[k].generation)
    decreases j - i
  {
    RunGrows(states, events, i, i);
    StepKeeps(states[i], events[i]);
    if states[i + 1].auth.reauthGeneration > states[i].auth.reauthGeneration {
      k := i;
    } else {
      k := FirstRise(states, events, i + 1, j);
    }
  }

  /** After a success the supervisor cannot leave `Reading` without reading the mark back. */
  lemma {:induction false} LastReadBack(states: seq<System>, events: seq<Event>, i: nat, j: nat) returns (r: nat)
    requires IsRun(states, events) && i < j <= |events|
    requires states[i].pc == Reading && states[j].pc != Reading
    ensures i <= r < j && events[r] == ReadsBack && forall m :: r < m < j ==> events[m] != ReadsBack
    decreases j
  {
    if events[j - 1] == ReadsBack {
      r := j - 1;
    } else {
      assert states[j - 1].pc != Reading;
      r := LastReadBack(states, events, i, j - 1);
    }
  }

  /**
    From a successful renewal or enrolment (`states[i].pc` is `Reading`) to the next run of
    the reauth branch: the mark was read back, and a counting failure was reported after that.
  */
  lemma ReauthAfterSuccess(states: seq<System>, events: seq<Event>, i: nat, j: nat) returns (r: nat, k: nat)
    requires IsRun(states, events) && i < j < |events| && states[i].pc == Reading && events[j] == ReauthWakes
    ensures i <= r < k < j && events[r] == ReadsBack
    ensures events[k].WorkerReports? && Counts(states[k].auth, events[k].generation)
  {
    r := LastReadBack(states, events, i, j);
    k := ReauthNeedsFreshReport(states, events, r, j);
  }

  /**
    A counting report is absorbed, its number passed by the mark, if and only if the mark has
    been read back since; until then it keeps the reauth branch enabled.
  */
  lemma {:induction false} ReportAbsorbedIff(states: seq<System>, events: seq<Event>, i: nat, j: nat)
    requires IsRun(states, events) && i < j < |states| && i < |events|
    requires events[i].WorkerReports? && Counts(states[i].auth, events[i].generation)
    ensures states[i + 1].auth.reauthGeneration <= states[j].lastSeen <==>
            exists m :: i < m < j && events[m] == ReadsBack
    ensures states[j].lastSeen < states[i + 1].auth.reauthGeneration ==>
              states[j].auth.reauthGeneration > states[j].lastSeen
    decreases j
  {
    RunGrows(states, events, i, i);
    RunGrows(states, events, i + 1, j);
    if j > i + 1 {
      ReportAbsorbedIff(states, events, i, j - 1);
      RunGrows(states, events, i + 1, j - 1);
      assert states[j] == Next(states[j - 1], events[j - 1]);
    }
  }

  /** The window is real: a counting report between setting the session and reading the mark is absorbed. */
  lemma ReportAbsorbedInWindow(s: System)
    requires Sound(s) && s.pc == Reading
    ensures var reported := Next(s, WorkerReports(None));
            var back := Next(reported, ReadsBack);
            && reported.auth.reauthGeneration > s.lastSeen && reported.auth.status == Reauthenticating
            && !Enabled(back, ReauthWakes) && back.auth.status == Reauthenticating
  {
  }

  /** A step of another participant, which leaves the supervisor where it is. */
  predicate Outside(e: Event) { e.WorkerReports? || e.OtherRenewal? || e.OtherMarks? }

  /**
    A renewal refused for authentication leads to an enrolment and to nothing else; any other
    way to fail a refresh ends it without moving the mark.
  */
  lemma RefreshEnds(s: System, e: Event)
    requires Sound(s) && Enabled(s, e) && !Outside(e)
    ensures e.RenewRefused? ==>
              forall f :: Enabled(Next(s, e), f) && !Outside(f) ==> f == EnrollBegins
    ensures Next(s, e).pc == Selecting ==> e == ReadsBack || Next(s, e).lastSeen == s.lastSeen
    ensures Next(s, e).lastSeen != s.lastSeen ==> e == ReadsBack && Next(s, e).lastSeen == s.auth.reauthGeneration
    ensures e == ReadsBack ==> Next(s, e).lastSeen == s.auth.reauthGeneration
  {
  }

  /** The supervisor is in its reauth branch. */
  predicate Reauthing(pc: Pc) {
    ((pc.EnrollStart? || pc.Enrolling? || pc.SessionSet?) && pc.fromReauth) || pc == Reading
  }

  /** Once woken, the reauth branch goes on, whatever fails in it, until the mark is read back. */
  lemma {:induction false} ReauthGoesOn(states: seq<System>, events: seq<Event>, i: nat, j: nat)
    requires IsRun(states, events) && i < j < |states| && events[i] == ReauthWakes
    requires forall m :: i < m < j ==> events[m] != ReadsBack
    ensures Reauthing(states[j].pc)
    decreases j
  {
    assert states[j] == Next(states[j - 1], events[j - 1]);
    if j > i + 1 { ReauthGoesOn(states, events, i, j - 1); }
  }

  // ---------------------------------------------------------------------------
  // What a renewal installs
  // ---------------------------------------------------------------------------

  /** While it waits for the answer to a renewal, the supervisor keeps the credentials it asked with. */
  lemma {:induction false} AskedWith(states: seq<System>, events: seq<Event>, j: nat) returns (i: nat)
    requires IsRun(states, events) && j < |states| && states[0].pc == Selecting && states[j].pc.Renewing?
    ensures i < j && events[i] == ReadCredentials && CredentialsOf(states[i].auth) == Some(states[j].pc.credentials)
    ensures forall m :: i < m < j ==> Outside(events[m])
    decreases j
  {
    assert j > 0 && states[j] == Next(states[j - 1], events[j - 1]);
    if events[j - 1] == ReadCredentials {
      i := j - 1;
    } else {
      i := AskedWith(states, events, j - 1);
    }
  }

  /**
    A renewal installs the session id and token it was asked with, whatever session has been
    installed since, with the new expiry and the next generation. So it takes back another
    session exactly when one with another id or token was installed while it waited.
  */
  lemma RenewalKeepsSession(states: seq<System>, events: seq<Event>, j: nat) returns (i: nat)
    requires IsRun(states, events) && j < |events| && states[0].pc == Selecting
    requires events[j].Renewed? && events[j].expiresAt.Some?
    ensures i < j && events[i] == ReadCredentials && states[i].auth.sessionId.Some? && states[i].auth.token.Some?
    ensures states[j + 1].auth.sessionId == states[i].auth.sessionId
    ensures states[j + 1].auth.token == states[i].auth.token
    ensures states[j + 1].auth.expiresAt == events[j].expiresAt && states[j + 1].auth.status == Connected
    ensures states[j + 1].auth.generation == states[j].auth.generation + 1
    ensures states[j].auth.sessionId == states[i].auth.sessionId && states[j].auth.token == states[i].auth.token <==>
            (forall k :: LastRenewal(events, i, j, k) ==>
               Some(events[k].sessionId) == states[i].auth.sessionId && Some(events[k].token) == states[i].auth.token)
  {
    i := AskedWith(states, events, j);
    SessionSince(states, events, i, j);
    assert states[j + 1] == Next(states[j], events[j]);
  }

  /** Event `k` is the last renewal by another participant after `i` and before `j`. */
  predicate LastRenewal(events: seq<Event>, i: nat, j: nat, k: int) {
    i < k < j <= |events| && events[k].OtherRenewal? && forall m :: k < m < j ==> !events[m].OtherRenewal?
  }

  /** While only others move, the session is the one of before, or the one installed last. */
  lemma {:induction false} SessionSince(states: seq<System>, events: seq<Event>, i: nat, j: nat)
    requires IsRun(states, events) && i < j < |states| && events[i] == ReadCredentials
    requires forall m :: i < m < j ==> Outside(events[m])
    ensures forall k :: LastRenewal(events, i, j, k) ==>
              states[j].auth.sessionId == Some(events[k].sessionId) && states[j].auth.token == Some(events[k].token)
    ensures (forall k :: !LastRenewal(events, i, j, k)) ==>
              states[j].auth.sessionId == states[i].auth.sessionId && states[j].auth.token == states[i].auth.token
    decreases j
  {
    var m := j - 1;
    assert states[j] == Next(states[m], events[m]);
    if m > i {
      SessionSince(states, events, i, m);
      if events[m].OtherRenewal? {
        assert LastRenewal(events, i, j, m);
        assert forall k :: LastRenewal(events, i, j, k) ==> k == m;
      } else {
        assert forall k :: LastRenewal(events, i, j, k) <==> LastRenewal(events, i, m, k);
      }
    }
  }

  // ---------------------------------------------------------------------------
  // Business credentials
  // ---------------------------------------------------------------------------

  /** In every reachable state a ready look carries credentials, with time to spare. */
  lemma ReadyNeverErrs(states: seq<System>, events: seq<Event>, i: nat, now: int, safetyWindow: nat)
    requires IsRun(states, events) && i < |states| && BusinessLook(states[i].auth, now, safetyWindow).Ready?
    ensures var look := BusinessLook(states[i].auth, now, safetyWindow);
            && look.credentials.Some?
            && look.credentials.value.expiresAt > now + safetyWindow
            && look.credentials.value.generation == states[i].auth.generation > 0
  {
    RunGrows(states, events, i, i);
  }

  /**
    `wait_for_business_credentials`: looks at the successive snapshots of a watch channel
    until one is ready; `looks[i]` pairs a snapshot with the clock at that moment.
  */
  method WaitForBusinessCredentials(looks: seq<(Snapshot, int)>, safetyWindow: nat)
    returns (r: Option<Credentials>, at: nat)
    requires forall i :: 0 <= i < |looks| ==> Sound(System(looks[i].0, Selecting, 0))
    ensures at <= |looks|
    ensures forall i :: 0 <= i < at ==>
              var s := looks[i].0;
              && s.status != Shutdown
              && !((s.status == Connected || s.status == Refreshing)
                   && s.expiresAt.Some? && s.expiresAt.value - safetyWindow > looks[i].1)
    ensures r.Some? <==>
            at < |looks|
            && var s := looks[at].0;
               (s.status == Connected || s.status == Refreshing)
               && s.expiresAt.Some? && s.expiresAt.value - safetyWindow > looks[at].1
    ensures r.Some? ==>
              var s := looks[at].0;
              && s.sessionId == Some(r.value.sessionId) && s.token == Some(r.value.token)
              && s.expiresAt == Some(r.value.expiresAt) && s.generation == r.value.generation > 0
    ensures r.None? && at < |looks| ==> looks[at].0.status == Shutdown
  {
    at := 0;
    r := None;
    while at < |looks|
      invariant at <= |looks| && r.None?
      invariant forall i :: 0 <= i < at ==> BusinessLook(looks[i].0, looks[i].1, safetyWindow).Wait?
    {
      var look := BusinessLook(looks[at].0, looks[at].1, safetyWindow);
      if look.Ready? { return look.credentials, at; }
      if look.Closed? { return None, at; }
      at := at + 1;
    }
  }

  /**
    When callers are served: a new session with time to spare serves at once, and goes on
    serving while it is refreshed or its renewal fails; from a counting report, the start of
    an enrolment or a missing approval on they wait, until there is a new session.
  */
  lemma ServedWhen(s: System, now: int, window: nat)
    requires Sound(s)
    ensures forall id: string, token: string, until: int ::
              BusinessLook(SetSession(s.auth, id, token, until), now, window).Ready? <==> until - window > now
    ensures forall g :: Counts(s.auth, g) ==> BusinessLook(ReportFailure(s.auth, g), now, window).Wait?
    ensures Enabled(s, TimerFires) && s.auth.status == Connected ==>
              (BusinessLook(Next(s, TimerFires).auth, now, window).Ready? <==> BusinessLook(s.auth, now, window).Ready?)
    ensures Enabled(s, RenewFailed) && s.auth.status == Refreshing ==>
              (BusinessLook(Next(s, RenewFailed).auth, now, window).Ready? <==>
               BusinessLook(s.auth, now, window).Ready?)
    ensures Enabled(s, EnrollBegins) ==> BusinessLook(Next(s, EnrollBegins).auth, now, window).Wait?
    ensures Enabled(s, NotApproved) ==> BusinessLook(Next(s, NotApproved).auth, now, window).Wait?
  {
  }
}
