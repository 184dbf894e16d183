/** The analytics consent controller of the mobile app. Its tasks await a native adapter that may fail at
    any call, and the signed-in session may change during every await: also while a check of the session,
    made in an awaited function, is on its way back to the caller. */
module Consent {
  import opened Wrappers

  type ProfileId = string

  datatype Setting = Denied | AnalyticsOnly

  /** The native side: the switches, the current user, and the users whose events are stored. */
  datatype Native = Native(collecting: bool, setting: Setting, user: Option<ProfileId>, data: set<Option<ProfileId>>)

  datatype Session = Session(revision: nat, authenticated: bool)

  datatype Identity = Identity(profile: ProfileId, revision: nat)

  /** What the environment does during one await: whether the call succeeds, whether a failed call took
      effect all the same, whether events were stored, and the session afterwards. */
  datatype Moment = Moment(ok: bool, applied: bool, stored: bool, session: Session)

  predicate Current(session: Session, revision: nat) {
    session.authenticated && session.revision == revision
  }

  datatype Call = SetCollection(enabled: bool) | SetConsent(setting: Setting) | SetUser(user: Option<ProfileId>)
                | ResetData | RecordDiagnostic

  const OFF := Native(false, Denied, None, {})

  function Effect(native: Native, call: Call): Native {
    match call
    case SetCollection(enabled) => native.(collecting := enabled)
    case SetConsent(setting) => native.(setting := setting)
    case SetUser(user) => native.(user := user)
    case ResetData => native.(data := {})
    case RecordDiagnostic => native
  }

  /** Whose events the native side may store while it is in this state. */
  function Emitted(native: Native): set<Option<ProfileId>> {
    if native.collecting then {native.user} else {}
  }

  /** `after` is `state`, with events stored on the way there from `before`. */
  predicate Reaches(before: Native, state: Native, after: Native) {
    after.(data := state.data) == state && after.data <= state.data + Emitted(before) + Emitted(state)
  }

  /** What one awaited call may leave: a successful call took effect; a failed one did or did not. */
  predicate MayBecome(before: Native, call: Call, ok: bool, after: Native) {
    Reaches(before, Effect(before, call), after) || (!ok && Reaches(before, before, after))
  }

  predicate Alphanumeric(c: char) {
    'A' <= c <= 'Z' || 'a' <= c <= 'z' || '0' <= c <= '9'
  }

  predicate SafeProfileId(id: ProfileId) {
    && 1 <= |id| <= 100 && Alphanumeric(id[0])
    && forall i :: 1 <= i < |id| ==> Alphanumeric(id[i]) || id[i] == '_' || id[i] == '-'
  }

  /** What listeners were told: every change of the enabled state, once, in order. */
  predicate Alternating(heard: seq<bool>) {
    forall i :: 0 <= i < |heard| ==> heard[i] == (i % 2 == 0)
  }

  /** The awaits of an activation that begins at the n-th one: four of the reset, then each adapter call
      followed by the return of a session check. Every call succeeds and every check sees the session. */
  predicate Smooth(moments: nat -> Moment, n: nat, revision: nat) {
    && ResetWorks(moments, n) && Current(moments(n + 3).session, revision)
    && Passes(moments(n + 5), revision) && Passes(moments(n + 7), revision) && Passes(moments(n + 9), revision)
  }

  predicate ResetWorks(moments: nat -> Moment, n: nat) {
    moments(n).ok && moments(n + 1).ok && moments(n + 2).ok && moments(n + 3).ok
  }

  /** The awaits of a deletion's cleanup that begins at the n-th one, up to its diagnostic: the user and the
      events are cleared and the session is still there. */
  predicate Anonymized(moments: nat -> Moment, n: nat, revision: nat) {
    moments(n).ok && Passes(moments(n + 1), revision)
  }

  predicate Passes(m: Moment, revision: nat) {
    m.ok && Current(m.session, revision)
  }

  class Controller {
    const moments: nat -> Moment
    var awaits: nat  // how many there have been
    var active: Option<Identity>
    var native: Native
    var session: Session
    var heard: seq<bool>
    ghost var diagnostics: seq<Native>

    /** Between tasks: an active identity means collection is on, for analytics alone, under that
        identity, and only its own events are stored. */
    ghost predicate Valid()
      reads this
    {
      && (active.Some? ==>
            && native.collecting && native.setting.AnalyticsOnly?
            && native.user == Some(active.value.profile)
            && native.data <= {Some(active.value.profile)}
            && SafeProfileId(active.value.profile))
      && Told()
    }

    ghost predicate Told()
      reads this
    {
      Alternating(heard) && (active.Some? <==> |heard| % 2 == 1)
    }

    constructor (native: Native, session: Session, moments: nat -> Moment)
      ensures Valid() && active.None? && this.native == native && this.session == session && heard == []
      ensures diagnostics == []
      ensures this.moments == moments && awaits == 0
    {
      this.active, this.native, this.session, this.heard, this.diagnostics := None, native, session, [], [];
      this.moments, this.awaits := moments, 0;
    }

    predicate IsCurrent(revision: nat)
      reads this
    {
      Current(session, revision)
    }

    /** One awaited adapter call. */
    method Attempt(call: Call) returns (ok: bool)
      modifies this`native, this`session, this`awaits
      ensures MayBecome(old(native), call, ok, native)
      ensures ok == moments(old(awaits)).ok && session == moments(old(awaits)).session && awaits == old(awaits) + 1
    {
      var m := moments(awaits);
      var state := if m.ok || m.applied then Effect(native, call) else native;
      native := state.(data := state.data + if m.stored then Emitted(native) + Emitted(state) else {});
      session, awaits := m.session, awaits + 1;
      return m.ok;
    }

    /** The await of a function that made no call: its answer is on the way back. */
    method Resume()
      modifies this`native, this`session, this`awaits
      ensures Reaches(old(native), old(native), native)
      ensures session == moments(old(awaits)).session && awaits == old(awaits) + 1
    {
      var m := moments(awaits);
      native := native.(data := native.data + if m.stored then Emitted(native) else {});
      session, awaits := m.session, awaits + 1;
    }

    /** Time between tasks: the session may change, and the native side may store events. What an active
        identity guarantees survives it. */
    method Idle()
      requires Valid()
      modifies this`native, this`session, this`awaits
      ensures Valid() && native.(data := {}) == old(native).(data := {})
    {
      Resume();
    }

    method SetActive(next: Option<Identity>)
      requires Told()
      modifies this`active, this`heard
      ensures Told() && active == next
      ensures heard == old(heard) + if next.Some? != old(active).Some? then [next.Some?] else []
    {
      var wasEnabled := active.Some?;
      active := next;
      if active.Some? != wasEnabled {
        heard := heard + [active.Some?];
      }
    }

    /** Nothing is active afterwards; success means the native side is off, denied, anonymous and empty. */
    method DisableAndReset() returns (succeeded: bool)
      requires Told()
      modifies this`active, this`heard, this`native, this`session, this`awaits
      ensures Valid() && active.None?
      ensures succeeded ==> native == OFF
      ensures succeeded <==> ResetWorks(moments, old(awaits))
      ensures session == moments(old(awaits) + 3).session && awaits == old(awaits) + 4
    {
      SetActive(None);
      succeeded := Attempt(SetCollection(false));
      var ok := Attempt(SetConsent(Denied));
      if !ok {
        succeeded := false;
      }
      ok := Attempt(SetUser(None));
      if !ok {
        succeeded := false;
      }
      ok := Attempt(ResetData);
      if !ok {
        succeeded := false;
      }
    }

    /** Checks the session at once; the answer that it is still the same takes an await to return. */
    method StopIfSessionChanged(revision: nat) returns (stopped: bool)
      requires Told() && active.None?
      modifies this`active, this`heard, this`native, this`session, this`awaits
      ensures Told() && active.None?
      ensures stopped <==> !old(IsCurrent(revision))
      ensures !stopped ==>
        && Reaches(old(native), old(native), native)
        && session == moments(old(awaits)).session && awaits == old(awaits) + 1
    {
      if IsCurrent(revision) {
        Resume();
        return false;
      }
      var _ := DisableAndReset();
      return true;
    }

    /** One call of an activation and the check of the session after it; otherwise everything is reset. */
    method Stage(call: Call, revision: nat) returns (passed: bool)
      requires Told() && active.None? && !call.ResetData?
      modifies this`active, this`heard, this`native, this`session, this`awaits
      ensures Told() && active.None?
      ensures passed <==> Passes(moments(old(awaits)), revision)
      ensures passed ==>
        var state := Effect(old(native), call);
        && native.(data := {}) == state.(data := {})
        && native.data <= old(native).data + Emitted(old(native)) + Emitted(state)
        && session == moments(old(awaits) + 1).session && awaits == old(awaits) + 2
    {
      var ok := Attempt(call);
      if !ok {
        var _ := DisableAndReset();
        return false;
      }
      var stopped := StopIfSessionChanged(revision);
      return !stopped;
    }

    /** Turns the native side on for a profile, step by step. Succeeds exactly when every call does and
        every check sees the session; the last answer is still on its way then. */
    method Activate(profile: ProfileId, revision: nat) returns (activated: bool)
      requires Told() && SafeProfileId(profile)
      modifies this`active, this`heard, this`native, this`session, this`awaits
      ensures Told()
      ensures activated <==> Smooth(moments, old(awaits), revision)
      ensures activated ==>
        && native.collecting && native.setting.AnalyticsOnly? && native.user == Some(profile)
        && native.data <= {Some(profile)}
        && session == moments(old(awaits) + 10).session && awaits == old(awaits) + 11
      ensures active.None?
    {
      var ok := DisableAndReset();
      if !ok {
        return false;
      }
      var stopped := StopIfSessionChanged(revision);
      if stopped {
        return false;
      }
      ok := Stage(SetConsent(AnalyticsOnly), revision);
      if !ok {
        return false;
      }
      ok := Stage(SetUser(Some(profile)), revision);
      if !ok {
        return false;
      }
      assert native == Native(false, AnalyticsOnly, Some(profile), {});
      activated := Stage(SetCollection(true), revision);
    }

    /** Succeeds exactly when the session is current at the start and the profile consents and is safely
        named, and then either it is active already or its activation goes smoothly; then it is active. A
        call that fails leaves nothing active, except that a call for an outdated session does not disturb
        an identity of another session. */
    method ApplyProfile(profile: ProfileId, consent: bool, revision: nat) returns (applied: bool)
      requires Valid()
      modifies this`active, this`heard, this`native, this`session, this`awaits
      ensures Valid()
      ensures applied <==>
        && old(IsCurrent(revision)) && consent && SafeProfileId(profile)
        && (old(active) == Some(Identity(profile, revision)) || Smooth(moments, old(awaits), revision))
      ensures applied ==> active == Some(Identity(profile, revision))
      ensures applied && old(active) != Some(Identity(profile, revision)) ==>
        && session == moments(old(awaits) + 10).session
        && var checked := moments(old(awaits) + 9).session;
        checked.authenticated && checked.revision == revision
      ensures !applied && active.Some? ==>
                && active == old(active) && native == old(native) && active.value.revision != revision
                && !old(IsCurrent(revision))
    {
      if !IsCurrent(revision) {
        if active.None? || active.value.revision == revision {
          var _ := DisableAndReset();
        }
        return false;
      }
      if !consent || !SafeProfileId(profile) {
        var _ := DisableAndReset();
        return false;
      }
      if active == Some(Identity(profile, revision)) {
        return true;
      }
      var activated := Activate(profile, revision);
      if !activated {
        return false;
      }
      SetActive(Some(Identity(profile, revision)));
      return true;
    }

    /** Nothing is active afterwards. A diagnostic is recorded exactly from an active identity of the session
        whose user and events were cleared first: once, anonymously, under analytics-only consent. Succeeds
        exactly when the session is not the identity's and the reset works, or when a diagnostic was
        recorded, the session outlives it, and the reset works. */
    method ClearForAccountDeletion() returns (succeeded: bool)
      requires Valid()
      modifies this
      ensures Valid() && active.None?
      ensures succeeded ==> native == OFF
      ensures succeeded <==>
        if old(active).None? || !old(IsCurrent(active.value.revision)) then ResetWorks(moments, old(awaits))
        else
          && Anonymized(moments, old(awaits), old(active).value.revision)
          && Passes(moments(old(awaits) + 2), old(active).value.revision)
          && ResetWorks(moments, old(awaits) + 3)
      ensures
        if old(active).Some? && old(IsCurrent(active.value.revision))
           && Anonymized(moments, old(awaits), old(active).value.revision)
        then
          && |diagnostics| == |old(diagnostics)| + 1 && diagnostics[..|old(diagnostics)|] == old(diagnostics)
          && diagnostics[|old(diagnostics)|].user.None? && diagnostics[|old(diagnostics)|].setting.AnalyticsOnly?
        else diagnostics == old(diagnostics)
    {
      var identity := active;
      if identity.None? || !IsCurrent(identity.value.revision) {
        succeeded := DisableAndReset();
        return;
      }
      var diagnosticSucceeded := Attempt(SetUser(None));
      var ok := Attempt(ResetData);
      if !ok {
        diagnosticSucceeded := false;
      }
      if !diagnosticSucceeded || !IsCurrent(identity.value.revision) {
        var _ := DisableAndReset();
        return false;
      }
      diagnostics := diagnostics + [native];
      ok := Attempt(RecordDiagnostic);
      if !ok {
        diagnosticSucceeded := false;
      }
      if !IsCurrent(identity.value.revision) {
        diagnosticSucceeded := false;
      }
      var cleanupSucceeded := DisableAndReset();
      return diagnosticSucceeded && cleanupSucceeded;
    }

    method Clear() returns (succeeded: bool)
      requires Valid()
      modifies this`active, this`heard, this`native, this`session, this`awaits
      ensures Valid() && active.None?
      ensures succeeded ==> native == OFF
      ensures succeeded <==> ResetWorks(moments, old(awaits))
    {
      succeeded := DisableAndReset();
    }
  }

  /** A session that ends while the last check is on its way back is not noticed: the identity of the
      session that is over becomes active. */
  method OutdatedIdentityBecomesActive() returns (controller: Controller)
    ensures fresh(controller) && controller.Valid()
    ensures controller.active == Some(Identity("profile", 1)) && !controller.IsCurrent(1)
  {
    var signedIn, signedOut := Session(1, true), Session(2, false);
    var moments := (n: nat) => Moment(true, true, false, if n < 10 then signedIn else signedOut);
    controller := new Controller(OFF, signedIn, moments);
    var applied := controller.ApplyProfile("profile", true, 1);
  }

  // The task queue: each task is chained to the settlement of the one enqueued before it

  datatype Phase = Waiting | Running | Settled

  datatype QueueStep = Enqueue | Start(task: nat) | Settle(task: nat)

  predicate Enabled(tasks: seq<Phase>, step: QueueStep) {
    match step
    case Enqueue => true
    case Start(i) => i < |tasks| && tasks[i].Waiting? && (i == 0 || tasks[i - 1].Settled?)
    case Settle(i) => i < |tasks| && tasks[i].Running?
  }

  function After(tasks: seq<Phase>, step: QueueStep): seq<Phase>
    requires Enabled(tasks, step)
  {
    match step
    case Enqueue => tasks + [Waiting]
    case Start(i) => tasks[i := Running]
    case Settle(i) => tasks[i := Settled]
  }

  ghost predicate Possible(tasks: seq<Phase>, steps: seq<QueueStep>)
    decreases |steps|
  {
    steps == [] || (Enabled(tasks, steps[0]) && Possible(After(tasks, steps[0]), steps[1..]))
  }

  ghost function Reached(tasks: seq<Phase>, steps: seq<QueueStep>): seq<Phase>
    requires Possible(tasks, steps)
    decreases |steps|
  {
    if steps == [] then tasks else Reached(After(tasks, steps[0]), steps[1..])
  }

  /** Only a task whose predecessor settled has started. */
  ghost predicate Chained(tasks: seq<Phase>) {
    forall i :: 0 < i < |tasks| && !tasks[i].Waiting? ==> tasks[i - 1].Settled?
  }

  lemma {:induction false} ChainedAlways(tasks: seq<Phase>, steps: seq<QueueStep>)
    requires Chained(tasks) && Possible(tasks, steps)
    ensures Chained(Reached(tasks, steps))
    decreases |steps|
  {
    if steps != [] {
      ChainedAlways(After(tasks, steps[0]), steps[1..]);
    }
  }

  lemma {:induction false} StartedMeansSettledBefore(tasks: seq<Phase>, i: nat, j: nat)
    requires Chained(tasks) && j < i < |tasks| && !tasks[i].Waiting?
    ensures tasks[j].Settled?
    decreases i
  {
    if j < i - 1 {
      StartedMeansSettledBefore(tasks, i - 1, j);
    }
  }

  /** However calls, starts and settlements interleave, tasks run one at a time and in the order of the
      calls: whatever was called before a running task has settled, whatever came later still waits. */
  lemma TasksNeverOverlap(steps: seq<QueueStep>, i: nat)
    requires Possible([], steps) && i < |Reached([], steps)| && Reached([], steps)[i].Running?
    ensures forall j: nat :: j < i ==> Reached([], steps)[j].Settled?
    ensures forall j: nat :: i < j < |Reached([], steps)| ==> Reached([], steps)[j].Waiting?
  {
    var tasks := Reached([], steps);
    ChainedAlways([], steps);
    forall j: nat | j < i ensures tasks[j].Settled? {
      StartedMeansSettledBefore(tasks, i, j);
    }
    forall j: nat | i < j < |tasks| ensures tasks[j].Waiting? {
      if !tasks[j].Waiting? {
        StartedMeansSettledBefore(tasks, j, i);
        assert false;
      }
    }
  }
}
