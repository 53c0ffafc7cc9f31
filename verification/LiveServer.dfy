/** The live open server: one session, driven by client advances, expiry cleanup,
    restart recovery and delayed recoveries, over one durable row, one position and
    the truth at the two venues.

    Every reply of a venue, of the store's lease and of the account snapshots is a
    field of `Env` or a nondeterministic choice, so a contract holds for all of them.
    Each store or venue call adds the durable world to `visited`; a crash restarts from
    any world in it.
 */
module LiveServer {
  import opened Basics
  import opened LiveSession

  /** The environment of one handler. `leased`: no other server holds the session's lease while
      it runs; otherwise any claim of it may be refused. */
  datatype Env = Env(
    ready: bool,
    sameSize: bool,
    signed: bool,
    valid: bool,
    unowned: bool,
    leased: bool,
    leverage: seq<bool>,
    depthOk: bool,
    inTime: bool,
    order: OrderReply,
    build: Option<real>,
    aboveMinimum: bool,
    unwind: OrderReply,
    accountsReady: bool,
    exact1: bool,
    exact2: bool,
    overlapped: bool,
    truthReady: bool,
    readable: bool,
    conflict: bool)

  /** Process memory, lost in a crash: the session in the session map, whether it has
      expired, the signing requests still waiting, and recoveries queued to run. */
  datatype Memory = Memory(
    session: Option<Session>,
    expired: bool,
    leg1Token: bool,
    leg2Token: bool,
    retryToken: bool,
    queued: seq<Session>)

  const NO_MEMORY := Memory(None, false, false, false, false, [])

  datatype Event =
    | Advance(abort: bool, env: Env)
    | Expire
    | Cleanup(leased: bool)
    | Restore(env: Env)
    | RunQueued(env: Env)
    | Supersede
    | CrashAt(point: World)

  /** The session can no longer send its hedge: the signing request is gone or expired. */
  predicate Quiet(state: SessionState, m: Memory) {
    && (state == AwaitingLeg2Sign ==> m.expired || !m.leg2Token)
    && (state == AwaitingLeg2RetrySign ==> m.expired || !m.retryToken)
  }

  /** A session copy a recovery may start from. */
  predicate Recoverable(s: Session, m: Memory, w: World) {
    && Fits(s, w.venue) && s.leg1Amount == w.row.payload.leg1Amount
    && HasPossibleExposure(s.state) && s.state != ConfiguringLeverage
    && Quiet(s.state, m)
  }

  predicate QueuedFits(m: Memory, w: World) {
    && (m.queued != [] ==> PastLeverage(w) && (w.row.terminal || Quiet(w.row.payload.state, m)))
    && forall q :: q in m.queued ==> Recoverable(q, m, w)
  }

  /** A session that may still send an opening order is the journaled one, untouched. */
  predicate MaySend(s: Session, m: Memory, w: World) {
    !w.row.terminal && w.row.payload == s && w.venue.unwound == 0.0 && m.queued == []
  }

  /** The session in memory is the journaled one and has not expired: this server took the
      lease of 90 seconds when it journaled it, and the session lives for 60. */
  predicate HoldsLease(m: Memory, w: World) {
    !w.row.terminal && !m.expired && m.session == Some(w.row.payload) && HasPossibleExposure(w.row.payload.state)
  }

  predicate SessionFits(s: Session, m: Memory, w: World) {
    && Fits(s, w.venue) && s.leg1Amount == w.row.payload.leg1Amount && s.state != ConfiguringLeverage
    && (HasPossibleExposure(s.state) ==> PastLeverage(w))
    && (s.state == AwaitingLeg1Signs ==> w.row.payload.state == AwaitingLeg1Signs && m.queued == [])
    && (Quiet(s.state, m) || MaySend(s, m, w))
  }

  predicate MemoryFits(m: Memory, w: World) {
    && QueuedFits(m, w)
    && (w.position.Some? ==> m.session.None?)
    && (w.position.Some? && !w.row.terminal ==> m.queued == [])
    && (!w.row.terminal && m.session.None? ==> Quiet(w.row.payload.state, m))
    && (m.session.Some? ==> SessionFits(m.session.value, m, w))
  }

  lemma UnwindKeepsQueued(m: Memory, w: World, filled: real)
    requires QueuedFits(m, w) && MayUnwind(w.venue) && 0.0 <= filled <= w.venue.Held1()
    ensures QueuedFits(m, Unwind(w, filled))
  {
    forall q | q in m.queued
      ensures Recoverable(q, m, Unwind(w, filled))
    {
      UnwindKeepsFits(q, w.venue, filled);
    }
  }

  lemma MemoryKeepsQueued(m: Memory, w: World)
    requires MemoryFits(m, w)
    ensures QueuedFits(m, w)
  {
  }

  /** No recovery is queued. */
  lemma QuietMemory(m: Memory, w: World)
    requires m.queued == []
    ensures QueuedFits(m, w)
  {
  }

  /** A handler left nothing behind. */
  lemma NothingLeft(m: Memory, w: World)
    requires m.session.None? && m.queued == []
    requires w.row.terminal || Quiet(w.row.payload.state, m)
    ensures MemoryFits(m, w)
  {
  }

  /** A handler left one recovery to run. */
  lemma RecoveryLeft(m: Memory, w: World, s: Session)
    requires m.session.None? && m.queued == [s] && Recoverable(s, m, w)
    requires PastLeverage(w) && w.position.None? && (w.row.terminal || Quiet(w.row.payload.state, m))
    ensures MemoryFits(m, w)
  {
  }

  /** A handler left the journaled session waiting for its next signature. */
  lemma WaitingLeft(m: Memory, w: World, s: Session)
    requires m.session == Some(s) && m.queued == [] && w.row.payload == s && Active(w)
    requires Fits(s, w.venue) && w.venue.unwound == 0.0 && (s.state.AwaitingLeg2Sign? || s.state.AwaitingLeg2RetrySign?)
    ensures MemoryFits(m, w)
  {
  }

  /** A handler left a judged session whose result could not be stored. */
  lemma JudgedLeft(m: Memory, w: World, s: Session)
    requires m.session == Some(s) && QueuedFits(m, w) && w.position.None? && PastLeverage(w)
    requires Fits(s, w.venue) && s.leg1Amount == w.row.payload.leg1Amount
    requires s.state.Open? || s.state.Degraded? || s.state.Aborted? || s.state.Failed? || s.state.Recovering?
    ensures MemoryFits(m, w)
  {
  }

  /** The result is stored: a copy still queued will find the row finished. */
  lemma StoredLeft(m: Memory, w: World)
    requires m.session.None? && QueuedFits(m, w) && w.row.terminal
    ensures MemoryFits(m, w)
  {
  }

  /** Taking the oldest queued recovery leaves memory in order, and that copy may run. */
  lemma QueuePopped(m: Memory, w: World)
    requires MemoryFits(m, w) && m.queued != []
    ensures var m' := m.(queued := m.queued[1..]);
            MemoryFits(m', w) && Recoverable(m.queued[0], m', w)
    ensures !w.row.terminal ==> Active(w) && PastLeverage(w) && Quiet(w.row.payload.state, m)
  {
    hide Fits;
    var m' := m.(queued := m.queued[1..]);
    assert m.queued[0] in m.queued;
    forall q | q in m'.queued
      ensures Recoverable(q, m', w)
    {
      assert q in m.queued;
    }
  }

  /** Queued copies only look at the venue, the journaled session and the signing requests. */
  lemma QueuedFrame(m: Memory, w: World, m': Memory, w': World)
    requires QueuedFits(m, w)
    requires w'.venue == w.venue && w'.row.payload == w.row.payload && (w.row.terminal ==> w'.row.terminal)
    requires m'.queued == m.queued && m'.expired == m.expired
    requires (m'.leg2Token ==> m.leg2Token) && (m'.retryToken ==> m.retryToken)
    ensures QueuedFits(m', w')
  {
  }

  /** What every point of every run promises. */
  ghost predicate Promised(w: World) {
    && (ExposureRecorded(w) <==> Flat(w) || !(FinishedJudged(w) || (FailedBlind(w) && w.row.terminal)))
    && (FailedIsFlat(w) <==> !FailedBlind(w))
    && OpenIsHedged(w)
    && OrdersBounded(w.venue)
    && w.venue.Held2() <= w.venue.fill1
  }

  /** No cleanup finished the row and no recovery stored a verdict in between. */
  predicate SameHistory(before: World, after: World) {
    after.finishedFrom == before.finishedFrom && after.judgedFrom == before.judgedFrom
  }

  /** Exposure on record before is off it afterwards exactly when the row was finished for a
      judged session and its orders had left some. */
  predicate LostOnlyBy(before: World, after: World, s: Session) {
    ExposureRecorded(before) && !ExposureRecorded(after) <==>
      !before.row.terminal && after.row.terminal && s.state != AwaitingLeg1Signs && !Flat(after)
  }

  lemma SafeKeepsPromises(w: World)
    requires CrashSafe(w)
    ensures Promised(w)
  {
    ExposureRecordedExactly(w);
    FailedVerdictExactly(w);
  }

  // ----- what a client call amounts to

  predicate LeverageSet(env: Env) {
    forall u :: u in env.leverage ==> u
  }

  /** All that leg 1 needs before it may leave. */
  predicate Leg1Cleared(m: Memory, env: Env) {
    && env.sameSize && env.signed && m.leg1Token && env.valid
    && LeverageSet(env) && env.depthOk && env.inTime
  }

  /** The session as leg 1 leaves: the unwind armed and every leverage update on record. */
  function Cleared(s: Session, env: Env): Session {
    s.(armedUnwind := Some(s.leg1Amount), leverageSet := s.leverageSet + |env.leverage|, state := Leg1Submitting)
  }

  /** Given up before the hedge: leg 1 was unwound, the session is forgotten, and what is stored
      is failed exactly when the unwind was confirmed. */
  predicate GaveUp(s: Session, before: VenueTruth, w: World, m: Memory, env: Env) {
    && w.venue == before.(unwound := before.unwound + UnwindExecuted(s, before, env.unwind))
    && m.session.None?
    && (w.position.Some? ==>
          && w.row.terminal
          && w.position.value == Position(if UnwindConfirms(s, before, env.unwind) then ExecFailed else ExecDegraded,
                                          s.leg1Fill, s.leg2Fill))
  }

  /** Nothing was sent: the session is forgotten, and its row finished unless another server owns it. */
  predicate LeftUnsent(w0: World, w: World, m: Memory, env: Env) {
    && w.venue == w0.venue && w.position == w0.position && m.session.None? && m.queued == []
    && (env.unowned ==> w.row.terminal) && (!env.unowned ==> w.row.terminal == w0.row.terminal)
  }

  lemma JournaledLeftUnsent(w0: World, s: Session, w: World, m: Memory, env: Env)
    requires !w0.row.terminal
    ensures LeftUnsent(Journal(w0, s), w, m, env) <==> LeftUnsent(w0, w, m, env)
  {
  }

  /** What of an unwind the server has seen. */
  function UnwindSeen(s: Session, v: VenueTruth, reply: OrderReply): real {
    if reply.kind.Accepted? && reply.confirmed then UnwindExecuted(s, v, reply) else 0.0
  }

  /** An invalid hedge: leg 1 was unwound, and what is left is stored, failed exactly when nothing
      is, or kept in memory for recovery. */
  predicate Recovered(s: Session, before: VenueTruth, w: World, m: Memory, env: Env) {
    var rest := RemainingFillAfterUnwind(s.leg1Fill, UnwindSeen(s, before, env.unwind));
    && w.venue == before.(unwound := before.unwound + UnwindExecuted(s, before, env.unwind))
    && (if w.position.Some? then
          && w.row.terminal && m.session.None?
          && w.position.value == Position(if rest.None? && s.leg2Fill.None? then ExecFailed else ExecDegraded,
                                          rest, s.leg2Fill)
        else m.session == Some(s.(leg1Fill := rest, state := Recovering)))
  }

  lemma RecoveryDone(s: Session, before: VenueTruth, w: World, m: Memory, env: Env)
    requires w.venue == before.(unwound := before.unwound + UnwindExecuted(s, before, env.unwind))
    requires var judged := JudgedAfterUnwind(s, UnwindSeen(s, before, env.unwind));
             if w.position.Some? then
               && w.row.terminal && m.session.None?
               && w.position.value == Position(if judged.state == Failed then ExecFailed else ExecDegraded,
                                               judged.leg1Fill, judged.leg2Fill)
             else m.session == Some(judged.(state := Recovering))
    ensures Recovered(s, before, w, m, env)
  {
  }

  /** Stored as open, with nothing sent. */
  predicate Opened(s: Session, before: VenueTruth, w: World, m: Memory) {
    && w.venue == before && m.session.None?
    && (w.position.Some? ==> w.row.terminal && w.position.value == Position(ExecOpen, s.leg1Fill, s.leg2Fill))
  }

  function RetrySize(s: Session, env: Env): real
    requires s.leg1Fill.Some? && env.build.Some?
  {
    Min(s.leg1Fill.value.amount - FillAmount(s.leg2Fill), Max(0.0, env.build.value))
  }

  /** A retry of what the hedge left open waits for its signature; when there is none to offer
      the hedge is invalid. */
  predicate RetryOffered(s: Session, before: VenueTruth, w: World, m: Memory, env: Env)
    requires s.leg1Fill.Some?
  {
    var possible := env.build.Some? && env.aboveMinimum && s.leg1Fill.value.amount > FillAmount(s.leg2Fill);
    var waiting := if possible then s.(leg2Retry := Some(RetrySize(s, env)), state := AwaitingLeg2RetrySign) else s;
    if m.session.Some? && m.session.value.state == AwaitingLeg2RetrySign then
      && possible && w.venue == before && w.position.None? && m.session.value == waiting && m.retryToken
      && w.row == Row(waiting, true, false)
    else Recovered(waiting, before, w, m, env) && (env.leased ==> !possible)
  }

  lemma RetryWaits(s: Session, before: VenueTruth, w: World, m: Memory, env: Env)
    requires s.leg1Fill.Some? && env.build.Some? && env.aboveMinimum
    requires s.leg1Fill.value.amount > FillAmount(s.leg2Fill)
    requires w.venue == before && w.position.None? && m.retryToken
    requires var waiting := s.(leg2Retry := Some(RetrySize(s, env)), state := AwaitingLeg2RetrySign);
             m.session == Some(waiting) && w.row == Row(waiting, true, false)
    ensures RetryOffered(s, before, w, m, env)
  {
  }

  lemma NoRetryOffered(s: Session, rest: Session, before: VenueTruth, w: World, m: Memory, env: Env)
    requires s.leg1Fill.Some? && Recovered(rest, before, w, m, env)
    requires if env.build.Some? && env.aboveMinimum && s.leg1Fill.value.amount > FillAmount(s.leg2Fill) then
               rest == s.(leg2Retry := Some(RetrySize(s, env)), state := AwaitingLeg2RetrySign) && !env.leased
             else rest == s
    ensures RetryOffered(s, before, w, m, env)
  {
  }

  /** The answer to the hedge with its fill known. */
  predicate HedgeJudged(s: Session, before: VenueTruth, w: World, m: Memory, env: Env)
    requires s.leg1Fill.Some? && s.leg2Fill.Some?
  {
    var leg1, leg2 := s.leg1Fill.value.amount, s.leg2Fill.value.amount;
    if 0.95 * leg1 <= leg2 <= 1.05 * leg1 then Opened(s, before, w, m) && (env.leased ==> w.position.Some?)
    else if leg2 < leg1 && (leg2 > 0.0 || !s.leg2Fill.value.timedOut) then RetryOffered(s, before, w, m, env)
    else Recovered(s, before, w, m, env) && (env.leased ==> w.position.Some?)
  }

  /** The hedge was accepted: without its fill the session is recovered, with it the hedge is judged. */
  predicate HedgeFilled(s: Session, before: VenueTruth, executed: real, w: World, m: Memory, env: Env)
    requires s.leg1Fill.Some?
  {
    var submitted := s.(state := Leg2Submitted);
    if !env.order.confirmed then
      w.venue == before && w.position.None? && m.session.None? && m.queued == [submitted]
    else
      var fill := Fill(executed, executed > 0.0, env.order.timedOut, LEG2_ORDER);
      HedgeJudged(submitted.(leg2Fill := Some(fill)), before.(leg2Settled := true), w, m, env)
  }

  /** The hedge was sent and answered: an unknown outcome is recovered, a rejection leaves all of it
      to a retry. */
  predicate HedgeCalled(s: Session, before: VenueTruth, w: World, m: Memory, env: Env)
    requires s.leg1Fill.Some? && s.leg2Open.Some?
  {
    var executed := Executed(Max(0.0, s.leg2Open.value), env.order);
    var sent := before.(sent2 := 1, fill2 := executed);
    match env.order.kind
    case NotSent | Ambiguous => w.venue == sent && w.position.None? && m.session.None? && m.queued == [s]
    case Rejected => executed == 0.0 && RetryOffered(s, sent.(leg2Settled := true), w, m, env)
    case Accepted => env.leased ==> HedgeFilled(s, sent, executed, w, m, env)
  }

  /** Hedge and retry together: open within 5% of leg 1, and otherwise invalid. */
  predicate RetryJudged(s: Session, before: VenueTruth, w: World, m: Memory, env: Env)
    requires s.leg1Fill.Some? && s.leg2Fill.Some?
  {
    var leg1, leg2 := s.leg1Fill.value.amount, s.leg2Fill.value.amount;
    && (if 0.95 * leg1 <= leg2 <= 1.05 * leg1 then Opened(s, before, w, m) else Recovered(s, before, w, m, env))
    && (env.leased ==> w.position.Some?)
  }

  predicate RetryFilled(s: Session, before: VenueTruth, executed: real, w: World, m: Memory, env: Env)
    requires s.leg1Fill.Some?
  {
    var submitted := s.(state := Leg2Submitted);
    if !env.order.confirmed then
      w.venue == before && w.position.None? && m.session.None? && m.queued == [submitted]
    else
      var both := FillAmount(s.leg2Fill) + executed;
      RetryJudged(submitted.(leg2Fill := Some(Fill(both, both > 0.0, env.order.timedOut, RETRY_ORDER))),
                  before, w, m, env)
  }

  /** The retry was sent and answered; its fill is added to that of the hedge. */
  predicate RetryCalled(s: Session, before: VenueTruth, w: World, m: Memory, env: Env)
    requires s.leg1Fill.Some? && s.leg2Retry.Some?
  {
    var executed := Executed(Max(0.0, s.leg2Retry.value), env.order);
    var sent := before.(sent2 := 2, retryFill := executed);
    match env.order.kind
    case NotSent | Ambiguous => w.venue == sent && w.position.None? && m.session.None? && m.queued == [s]
    case Rejected =>
      executed == 0.0 && Recovered(s, sent, w, m, env) && (env.leased ==> w.position.Some?)
    case Accepted => RetryFilled(s, sent, executed, w, m, env)
  }

  /** Leg 1 was sent and its fill is known: a hedge of it, capped by what was built, waits for its
      signature, or else leg 1 is unwound. */
  predicate Leg1Judged(s: Session, before: VenueTruth, w: World, m: Memory, env: Env)
    requires s.leg1Fill.Some?
  {
    var filled := s.leg1Fill.value.amount;
    if filled >= 0.5 * s.leg1Amount && env.build.Some? then
      var waiting := s.(leg2Open := Some(Min(filled, Max(0.0, env.build.value))), state := AwaitingLeg2Sign);
      && w.venue == before && w.position.None? && m.queued == []
      && (m.session == None || (m.session == Some(waiting) && m.leg2Token && w.row == Row(waiting, true, false)))
      && (env.leased ==> m.session.Some?)
    else GaveUp(s, before, w, m, env) && (env.leased ==> w.position.Some?)
  }

  /** Leg 1 was sent and answered. */
  predicate Leg1Answered(s: Session, before: VenueTruth, w: World, m: Memory, env: Env) {
    var executed := Executed(Max(0.0, s.leg1Amount), env.order);
    var sent := before.(sent1 := 1, fill1 := executed);
    match env.order.kind
    case NotSent | Rejected =>
      && w.venue == sent && executed == 0.0 && m.session.None? && m.queued == []
      && (env.leased ==> w.position == Some(Position(ExecFailed, None, s.leg2Fill)) && w.row.terminal)
    case Ambiguous =>
      w.venue == sent && w.position.None? && m.session.None? && m.queued == [s]
    case Accepted =>
      env.leased ==>
        if !env.order.confirmed then
          GaveUp(s.(state := Leg1Submitted), sent, w, m, env) && w.position.Some?
        else
          var fill := Fill(executed, executed > 0.0, env.order.timedOut, 0);
          Leg1Judged(s.(state := Leg1Submitted, leg1Fill := Some(fill)), sent, w, m, env)
  }

  /** A call for a session that waits for the leg-1 signatures. Leg 1 is sent exactly when all is
      cleared; an unsigned call changes nothing, and any other ends the session. */
  predicate Leg1Called(w0: World, m0: Memory, w: World, m: Memory, env: Env)
    requires m0.session.Some?
  {
    var s := m0.session.value;
    if !env.sameSize || (env.signed && !(m0.leg1Token && env.valid)) then
      m == m0.(session := None) && w == if env.unowned then Finish(w0) else w0
    else if !env.signed then m == m0 && w == w0
    else
      && !m.leg1Token
      && (w.venue.sent1 > w0.venue.sent1 ==> Leg1Cleared(m0, env))
      && (w.venue.sent1 == w0.venue.sent1 ==> w.venue == w0.venue && m.session.None?)
      && (env.leased && !w0.row.terminal ==>
            if Leg1Cleared(m0, env) then
              && w.venue.sent1 == 1
              && Leg1Answered(Cleared(s, env), w0.venue, w, m, env)
            else LeftUnsent(w0, w, m, env))
  }

  /** A call for a session that waits for the hedge signature. An abort, or a signature that is not
      in order, gives up; an unsigned call changes nothing; the hedge is sent otherwise. */
  predicate Leg2Called(w0: World, m0: Memory, w: World, m: Memory, abort: bool, env: Env)
    requires m0.session.Some? && m0.session.value.leg1Fill.Some? && m0.session.value.leg2Open.Some?
  {
    var s := m0.session.value;
    if abort || (env.signed && !(m0.leg2Token && env.valid)) then
      && GaveUp(s, w0.venue, w, m, env)
      && (HoldsLease(m0, w0) || (env.leased && !w0.row.terminal) ==> w.position.Some?)
    else if !env.signed then m == m0 && w == w0
    else
      && !m.leg2Token
      && (w.venue.sent2 == w0.venue.sent2 ==> w == w0 && m == m0.(session := None, leg2Token := false))
      && (env.leased && !w0.row.terminal ==>
            w.venue.sent2 == 1 && HedgeCalled(s.(leg2Attempts := 1, state := Leg2Submitting), w0.venue, w, m, env))
  }

  /** A call for a session that waits for the signature of its retry. */
  predicate RetryAdvanced(w0: World, m0: Memory, w: World, m: Memory, abort: bool, env: Env)
    requires m0.session.Some? && m0.session.value.leg1Fill.Some? && m0.session.value.leg2Retry.Some?
  {
    var s := m0.session.value;
    if abort || (env.signed && !(m0.retryToken && env.valid)) then
      && Recovered(s, w0.venue, w, m, env)
      && (HoldsLease(m0, w0) || (env.leased && !w0.row.terminal) ==> w.position.Some?)
    else if !env.signed then m == m0 && w == w0
    else
      && !m.retryToken
      && (w.venue.sent2 == w0.venue.sent2 ==>
            Recovered(s.(leg2Attempts := 2, state := Leg2Submitting), w0.venue, w, m, env))
      && (env.leased && !w0.row.terminal ==>
            w.venue.sent2 == 2 && RetryCalled(s.(leg2Attempts := 2, state := Leg2Submitting), w0.venue, w, m, env))
  }

  /** A client call: an expired session is handed over, a server that is not ready and a session
      that waits for nothing change nothing, and any other is advanced by its state. */
  predicate Advanced(w0: World, m0: Memory, w: World, m: Memory, abort: bool, env: Env) {
    if m0.session.None? then m == m0 && w == w0
    else if m0.expired then HandedOver(w0, m0, w, m, env.leased)
    else if !env.ready then m == m0 && w == w0
    else
      var s := m0.session.value;
      match s.state
      case AwaitingLeg1Signs => Leg1Called(w0, m0, w, m, env)
      case AwaitingLeg2Sign =>
        s.leg1Fill.Some? && s.leg2Open.Some? && Leg2Called(w0, m0, w, m, abort, env)
      case AwaitingLeg2RetrySign =>
        s.leg1Fill.Some? && s.leg2Retry.Some? && RetryAdvanced(w0, m0, w, m, abort, env)
      case _ => m == m0 && w == w0
  }

  /** An expired session leaves memory: for recovery when it is exposed, and otherwise its row is
      finished. */
  predicate HandedOver(w0: World, m0: Memory, w: World, m: Memory, leased: bool)
    requires m0.session.Some?
  {
    var s := m0.session.value;
    if HasPossibleExposure(s.state) then w == w0 && m == m0.(session := None, queued := m0.queued + [s])
    else
      && m == m0.(session := None) && (w == w0 || w == FinishBy(w0, s))
      && (leased && !w0.row.terminal ==> w == FinishBy(w0, s))
  }

  // ----- what a recovery amounts to

  /** The verdict `judged` was reached with nothing sent: stored, or kept in memory. */
  predicate Concluded(judged: Session, state: ExecState, before: VenueTruth, w: World, m: Memory, env: Env) {
    && w.venue == before && (env.leased ==> w.position.Some?)
    && (if w.position.Some? then
          && w.row.terminal && m.session.None?
          && w.position.value == Position(state, judged.leg1Fill, judged.leg2Fill)
        else m.session == Some(judged))
  }

  /** Leg 1 was unwound; the verdict is failed exactly when that was confirmed, and records what is left. */
  predicate UnwoundAndConcluded(s: Session, before: VenueTruth, w: World, m: Memory, env: Env) {
    var confirmed := UnwindConfirms(s, before, env.unwind);
    var rest := RemainingFillAfterUnwind(s.leg1Fill, UnwindSeen(s, before, env.unwind));
    && w.venue == before.(unwound := before.unwound + UnwindExecuted(s, before, env.unwind))
    && (env.leased ==> w.position.Some?)
    && (if w.position.Some? then
          && w.row.terminal && m.session.None?
          && w.position.value == Position(if confirmed then ExecFailed else ExecDegraded, rest, s.leg2Fill)
        else m.session == Some(s.(leg1Fill := rest, state := if confirmed then Aborted else Degraded)))
  }

  /** Without fresh sizes only an exact leg-1 fill that the armed unwind covers is unwound, and only
      when leg 2 was never sent. */
  predicate VerdictWithoutTruth(
    s: Session, leg1Known: bool, before: VenueTruth, w: World, m: Memory, env: Env)
  {
    var covered := leg1Known && FillPresent(s.leg1Fill) && s.armedUnwind.Some?
                   && s.leg1Fill.value.amount + Tolerance(s.armedUnwind.value) >= s.armedUnwind.value;
    if !NeedLeg2(s.state) && covered then UnwoundAndConcluded(s, before, w, m, env)
    else
      var expected := if s.leg2Open.Some? then s.leg2Open.value else 0.0;
      var f := if leg1Known && FillPresent(s.leg1Fill) && NeedLeg2(s.state)
               then EnsureRecoveryFills(s, s.leg1Amount, expected) else s;
      Concluded(f.(state := Degraded), ExecDegraded, before, w, m, env)
  }

  /** With fresh sizes, by what each leg holds: neither is a failure, both within 5% of each other
      and of each other's fills are an open hedge, leg 1 alone is unwound, and the rest is degraded. */
  predicate HedgeReconciled(
    s: Session, leg1Exposed: bool, leg2Exposed: bool, before: VenueTruth, w: World, m: Memory, env: Env)
  {
    var f := EnsureRecoveryFills(s, before.Held1(), before.Held2());
    if !leg1Exposed && !leg2Exposed then Concluded(f.(state := Failed), ExecFailed, before, w, m, env)
    else if leg1Exposed && !leg2Exposed then UnwoundAndConcluded(f, before, w, m, env)
    else if leg1Exposed && FillAmount(f.leg1Fill) > 0.0 && Within5Pct(FillAmount(f.leg1Fill), FillAmount(f.leg2Fill))
            && Within5Pct(before.Held1(), before.Held2()) then
      Concluded(f.(state := Open), ExecOpen, before, w, m, env)
    else Concluded(f.(state := Degraded), ExecDegraded, before, w, m, env)
  }

  predicate VerdictFromTruth(s: Session, leg2Known: bool, before: VenueTruth, w: World, m: Memory, env: Env) {
    var leg2Exposed := before.Held2() > DUST && (leg2Known ==> FillPresent(s.leg2Fill));
    if NeedLeg2(s.state) then HedgeReconciled(s, before.Held1() > DUST, leg2Exposed, before, w, m, env)
    else if before.Held1() <= DUST then
      Concluded(s.(leg1Fill := None, leg2Fill := None, state := Failed), ExecFailed, before, w, m, env)
    else UnwoundAndConcluded(EnsureRecoveryFills(s, before.Held1(), 0.0), before, w, m, env)
  }

  /** What the lookups of exact orders add to a session: only fills, and the venue's own. */
  predicate Learned(s0: Session, s: Session, leg1Known: bool, leg2Known: bool, v: VenueTruth, env: Env) {
    var leg1Open := s0.state.Leg1Submitting? || s0.state.Leg1Submitted?;
    var leg2Open := s0.state.Leg2Submitting? || s0.state.Leg2Submitted?;
    && s == s0.(leg1Fill := s.leg1Fill, leg2Fill := s.leg2Fill)
    && (leg1Known <==> if leg1Open then env.exact1 else s0.leg1Fill.Some?)
    && (leg1Open && leg1Known ==> FillAmount(s.leg1Fill) == v.fill1 && (FillPresent(s.leg1Fill) <==> v.fill1 > 0.0))
    && (!(leg1Open && leg1Known) ==> s.leg1Fill == s0.leg1Fill)
    && (leg2Known <==> leg2Open && env.exact2)
    && (leg2Known ==> FillAmount(s.leg2Fill) == v.Held2() && (FillPresent(s.leg2Fill) <==> v.Held2() > 0.0))
    && (!leg2Known ==> s.leg2Fill == s0.leg2Fill)
  }

  /** An exact leg 1 without a fill is a failure, whatever else is known. */
  predicate VerdictReached(
    s: Session, leg1Known: bool, leg2Known: bool, before: VenueTruth, w: World, m: Memory, env: Env)
  {
    if leg1Known && !FillPresent(s.leg1Fill) then
      Concluded(s.(leg1Fill := None, leg2Fill := None, state := Failed), ExecFailed, before, w, m, env)
    else if !env.truthReady then VerdictWithoutTruth(s, leg1Known, before, w, m, env)
    else VerdictFromTruth(s, leg2Known, before, w, m, env)
  }

  /** A recovery that has the lease and the accounts: put off when another operation overlapped,
      and otherwise brought to a verdict from what was learned. */
  ghost predicate RecoveryDecided(s0: Session, w0: World, m0: Memory, w: World, m: Memory, env: Env) {
    if !env.accountsReady then w == w0 && m == m0
    else
      exists s, leg1Known, leg2Known :: Learned(s0, s, leg1Known, leg2Known, w0.venue, env) &&
        if env.overlapped then w == w0 && m == m0.(session := Some(s), queued := m0.queued + [s])
        else m.queued == m0.queued && VerdictReached(s, leg1Known, leg2Known, w0.venue, w, m, env)
  }

  lemma UnchangedVenue(v: VenueTruth)
    ensures SameButUnwound(v, v)
  {
  }

  lemma NothingDecided(s0: Session, w: World, m: Memory, env: Env)
    requires !env.accountsReady
    ensures RecoveryDecided(s0, w, m, w, m, env)
  {
  }

  lemma DecidedFrom(
    s0: Session, s: Session, leg1Known: bool, leg2Known: bool, w0: World, m0: Memory, w: World, m: Memory, env: Env)
    requires env.accountsReady && Learned(s0, s, leg1Known, leg2Known, w0.venue, env)
    requires if env.overlapped then w == w0 && m == m0.(session := Some(s), queued := m0.queued + [s])
             else m.queued == m0.queued && VerdictReached(s, leg1Known, leg2Known, w0.venue, w, m, env)
    ensures RecoveryDecided(s0, w0, m0, w, m, env)
  {
  }

  // ----- what a restore and the other events amount to

  /** An exposed row that cannot be read, or a row without a position whose position's name
      is taken by other accounts. */
  predicate Unrestorable(w: World, env: Env) {
    if env.readable then env.conflict && w.position.None? else w.row.hasExposure
  }

  /** The journaled session is taken up: one that only set leverage is finished, one that waits for
      its leg-1 signatures waits again if they are in time, and any other is recovered. */
  ghost predicate Resumed(w0: World, m0: Memory, w: World, m: Memory, env: Env) {
    var s := w0.row.payload;
    match s.state
    case ConfiguringLeverage => m == m0 && w == Finish(w0)
    case AwaitingLeg1Signs =>
      if m0.expired || !env.inTime then
        m == m0 && (w == w0 || w == FinishBy(w0, s)) && (env.leased ==> w == FinishBy(w0, s))
      else w == w0 && m == m0.(session := Some(s), leg1Token := true)
    case _ =>
      || RecoveryDecided(s, w0, m0, w, m, env)
      || (!env.leased && w == w0 && m == m0)
  }

  /** A pass of the restore loop. A finished row, and one whose session is in memory, are left
      alone. Without the lease an exposed row is left to the server that has it. */
  ghost predicate Restored(w0: World, m0: Memory, w: World, m: Memory, granted: bool, env: Env) {
    if w0.row.terminal || m0.session.Some? then w == w0 && m == m0
    else
      && (env.leased ==> granted)
      && if Unrestorable(w0, env) then
           m == m0 && w == if granted || !w0.row.hasExposure then w0.(blocked := true) else w0
         else if !env.readable || w0.position.Some? then m == m0 && w == if granted then Finish(w0) else w0
         else if granted || !w0.row.hasExposure then Resumed(w0, m0, w, m, env)
         else w == w0 && m == m0
  }

  /** The oldest recovery left by a handler runs; the others stay queued. */
  ghost predicate RanQueued(w0: World, m0: Memory, w: World, m: Memory, env: Env) {
    if m0.queued == [] then w == w0 && m == m0
    else
      var rest := m0.(queued := m0.queued[1..]);
      || RecoveryDecided(m0.queued[0], w0, rest, w, m, env)
      || ((w0.row.terminal || !env.leased) && w == w0 && m == rest)
  }

  /** A point of a run. */
  datatype Point = Point(world: World, memory: Memory, visited: set<World>)

  ghost predicate Handled(event: Event, p: Point, q: Point) {
    var w0, m0, w, m := p.world, p.memory, q.world, q.memory;
    && p.visited <= q.visited
    && match event
       case Advance(abort, env) => Advanced(w0, m0, w, m, abort, env)
       case Expire => w == w0 && m == m0.(expired := true)
       case Cleanup(leased) =>
         if m0.session.Some? && m0.expired then HandedOver(w0, m0, w, m, leased) else w == w0 && m == m0
       case Restore(env) => exists granted :: Restored(w0, m0, w, m, granted, env)
       case RunQueued(env) => RanQueued(w0, m0, w, m, env)
       case Supersede => m == m0 && w == if w0.row.terminal || w0.row.hasExposure then w0 else Finish(w0)
       case CrashAt(point) => if point in p.visited then w == point && m == NO_MEMORY else w == w0 && m == m0
  }

  /** A blocked row is as safe to restart from as before, and memory still fits it. */
  lemma BlockIsSafe(w: World)
    requires CrashSafe(w)
    ensures CrashSafe(w.(blocked := true))
  {
    hide Fits, VenueOk;
  }

  lemma BlockKeepsMemory(m: Memory, w: World)
    requires MemoryFits(m, w)
    ensures MemoryFits(m, w.(blocked := true))
  {
    hide Fits;
    var w' := w.(blocked := true);
    assert w'.venue == w.venue && w'.row == w.row && w'.position == w.position;
    forall q | q in m.queued
      ensures Recoverable(q, m, w')
    {
      assert Recoverable(q, m, w);
    }
  }

  class Server {
    var world: World
    var memory: Memory
    var visited: set<World>

    ghost predicate Sound()
      reads this`world, this`visited
    {
      world in visited && CrashSafe(world) && AllSafe(visited)
    }

    ghost predicate Valid()
      reads this
    {
      Sound() && MemoryFits(memory, world)
    }

    /** Prepare: the session is journaled, unexposed, and its leg-1 requests wait for signatures. */
    constructor (s: Session)
      requires s.state == AwaitingLeg1Signs && s.leg1Amount > 0.0
      requires s.leg1Fill.None? && s.leg2Fill.None? && s.leg2Attempts == 0
      ensures Valid() && visited == {world}
      ensures world == Fresh(s)
    {
      hide Fits, CrashSafe;
      var first := Fresh(s);
      FreshIsSafe(first);
      world := first;
      memory := Memory(Some(s), false, true, false, false, []);
      visited := {first};
    }

    // ----- calls to the store and the venues; each ends at a possible crash point

    method Commit(w: World)
      requires CrashSafe(w) && AllSafe(visited)
      modifies this`world, this`visited
      ensures Sound() && world == w && visited == old(visited) + {w}
    {
      world := w;
      visited := visited + {w};
    }

    /** Takes or renews the recovery lease of an active row; refused when another server holds
        it, which cannot be while this one does. */
    method Claim(leased: bool) returns (claimed: bool)
      ensures world.row.terminal ==> !claimed
      ensures (leased || HoldsLease(memory, world)) && !world.row.terminal ==> claimed
    {
      var granted: bool := *;
      claimed := (granted || leased || HoldsLease(memory, world)) && !world.row.terminal;
    }

    /** Journals an exposed session, which first takes the lease. */
    method Save(s: Session, leased: bool) returns (saved: bool)
      requires Sound() && HasPossibleExposure(s.state) && Journaled(s.state)
      requires Fits(s, world.venue) && world.position.None?
      modifies this`world, this`visited
      ensures Sound() && old(visited) <= visited
      ensures old(world).row.terminal ==> !saved
      ensures leased && !old(world).row.terminal ==> saved
      ensures world == if saved then Journal(old(world), s) else old(world)
      ensures saved ==> world in visited
    {
      hide Fits, CrashSafe, AllSafe;
      saved := Claim(leased);
      if saved {
        JournalIsSafe(world, s);
        Commit(Journal(world, s));
      }
    }

    /** Drops the session from memory and finishes its row unless another server owns it. */
    method FinishLive(owned: bool)
      requires Sound()
      requires owned ==> world.position.Some? || world.venue.sent1 == 0 || world.row.terminal
      modifies this`world, this`memory, this`visited
      ensures Sound() && old(visited) <= visited
      ensures world == if owned then Finish(old(world)) else old(world)
      ensures memory == old(memory).(session := None)
    {
      hide Fits, CrashSafe, AllSafe;
      memory := memory.(session := None);
      if owned {
        FinishIsSafe(world);
        Commit(Finish(world));
      }
    }

    /** Stores the final result and finishes the row. Refused when another server owns
        the session or a position already exists. */
    method PersistSession(s: Session, state: ExecState, from: Option<Session>, leased: bool) returns (stored: bool)
      requires Sound() && PastLeverage(world)
      requires Storable(world, Position(state, s.leg1Fill, s.leg2Fill), from)
      modifies this`world, this`memory, this`visited
      ensures Sound() && old(visited) <= visited
      ensures stored ==> Active(old(world)) && SameHistory(old(world), world.(judgedFrom := None))
      ensures stored ==> memory == old(memory).(session := None)
                         && world == Finish(StoreResult(old(world), Position(state, s.leg1Fill, s.leg2Fill), from))
      ensures !stored ==> world == old(world) && memory == old(memory)
      ensures leased && Active(old(world)) ==> stored
      ensures HoldsLease(old(memory), old(world)) && old(world).position.None? ==> stored
    {
      hide Fits, CrashSafe, AllSafe;
      stored := Claim(leased);
      stored := stored && world.position.None?;
      if stored {
        var p := Position(state, s.leg1Fill, s.leg2Fill);
        SafeFacts(world);
        StoreIsSafe(world, p, from);
        Commit(StoreResult(world, p, from));
        FinishLive(true);
      }
    }

    method SubmitLeg1(reply: OrderReply) returns (executed: real)
      requires Sound() && ReadyForLeg1(world)
      modifies this`world, this`visited
      ensures Sound() && old(visited) <= visited
      ensures executed == Executed(old(world).row.payload.leg1Amount, reply)
      ensures world == SendLeg1(old(world), executed)
    {
      hide Fits, CrashSafe, AllSafe;
      SafeFacts(world);
      executed := Executed(world.row.payload.leg1Amount, reply);
      SendLeg1IsSafe(world, executed);
      Commit(SendLeg1(world, executed));
    }

    /** The journaled attempt says whether this is the hedge or its one retry. A definite
        answer to the first order is recorded. */
    method SubmitLeg2(reply: OrderReply) returns (executed: real)
      requires Sound() && ReadyForLeg2(world)
      modifies this`world, this`visited
      ensures Sound() && old(visited) <= visited
      ensures executed == Executed(HedgeOrder(old(world)), reply)
      ensures world == SendLeg2(old(world), executed)
    {
      hide Fits, CrashSafe, AllSafe;
      executed := Executed(HedgeOrder(world), reply);
      SendLeg2IsSafe(world, executed);
      Commit(SendLeg2(world, executed));
    }

    /** Sends the pre-signed reduce-only unwind. */
    method SubmitUnwind(s: Session, reply: OrderReply) returns (executed: real)
      requires Sound() && QueuedFits(memory, world) && MayUnwind(world.venue) && world.position.None?
      requires s.armedUnwind == Some(world.row.payload.leg1Amount)
      modifies this`world, this`visited
      ensures Sound() && QueuedFits(memory, world) && old(visited) <= visited
      ensures 0.0 <= executed <= old(world).venue.Held1()
      ensures world == Unwind(old(world), executed) && executed == UnwindExecuted(s, old(world).venue, reply)
    {
      hide Fits, CrashSafe, AllSafe, MayUnwind, Unwind, QueuedFits, UnwindFullyFilled;
      SafeFacts(world);
      executed := Executed(Max(0.0, Min(s.armedUnwind.value, world.venue.Held1())), reply);
      UnwindKeepsQueued(memory, world, executed);
      UnwindIsSafe(world, executed);
      Commit(Unwind(world, executed));
    }

    /** Submits the unwind, if one is armed, and waits for its fill. */
    method FireUnwind(s: Session, reply: OrderReply) returns (result: UnwindResult, executed: real)
      requires Sound() && QueuedFits(memory, world) && MayUnwind(world.venue) && world.position.None?
      requires s.armedUnwind.Some? ==> s.armedUnwind.value == world.row.payload.leg1Amount
      modifies this`world, this`visited
      ensures Sound() && QueuedFits(memory, world) && old(visited) <= visited
      ensures 0.0 <= result.filled <= executed <= old(world).venue.Held1()
      ensures world == Unwind(old(world), executed) && executed == UnwindExecuted(s, old(world).venue, reply)
      ensures result.status == NotArmed <==> s.armedUnwind.None?
      ensures result.status == Confirmed <==> UnwindConfirms(s, old(world).venue, reply)
      ensures result.status == Confirmed ==> s.armedUnwind.Some? && UnwindFullyFilled(UnwindTarget(s), executed)
      ensures result.filled == UnwindSeen(s, old(world).venue, reply)
      ensures HoldsLease(memory, world) == HoldsLease(memory, old(world))
    {
      hide Sound, MayUnwind, QueuedFits, UnwindFullyFilled;
      SoundFacts();
      if s.armedUnwind.None? {
        result, executed := UnwindResult(NotArmed, 0.0, 0.0), 0.0;
      } else {
        var expected := UnwindTarget(s);
        executed := SubmitUnwind(s, reply);
        if reply.kind != Accepted {
          result := UnwindResult(SubmitFailed, expected, 0.0);
        } else if !reply.confirmed {
          result := UnwindResult(Unconfirmed, expected, 0.0);
        } else {
          var fill := ReportedFill(executed, reply, 0);
          var done := fill.filled && UnwindFullyFilled(expected, fill.amount);
          result := UnwindResult(if done then Confirmed else Unconfirmed, expected, fill.amount);
        }
      }
    }

    /** The first leg-2 order was answered definitely: rejected, or accepted with its final fill. */
    method Settle(reply: OrderReply)
      requires Sound() && Active(world)
      requires reply.kind.Rejected? || (reply.kind.Accepted? && reply.confirmed)
      modifies this`world, this`visited
      ensures Sound() && old(visited) <= visited && world == SettleLeg2(old(world))
    {
      hide Fits, CrashSafe, AllSafe;
      SettleLeg2IsSafe(world);
      Commit(SettleLeg2(world));
    }

    lemma SoundFacts()
      requires Sound()
      ensures VenueOk(world.venue, world.row.payload.leg1Amount) && world.row.payload.leg1Amount > 0.0
      ensures Journaled(world.row.payload.state)
      ensures world.row.hasExposure == HasPossibleExposure(world.row.payload.state)
      ensures !PastLeverage(world) ==> world.venue.sent1 == 0 && world.position.None?
      ensures Active(world) ==>
                Fits(world.row.payload, world.venue) && world.finishedFrom.None? && world.judgedFrom.None?
    {
      hide Fits, VenueOk;
      SafeFacts(world);
    }

    /** A crash after this point finds the session journaled, or what came later. */
    predicate WasJournaled(s: Session)
      reads this`visited
    {
      exists w :: w in visited && w.row.payload == s
    }

    lemma JudgedWaits(s: Session)
      requires memory.session == Some(s) && QueuedFits(memory, world) && world.position.None? && PastLeverage(world)
      requires Fits(s, world.venue) && s.leg1Amount == world.row.payload.leg1Amount
      requires s.state.Open? || s.state.Degraded? || s.state.Aborted? || s.state.Failed? || s.state.Recovering?
      ensures MemoryFits(memory, world)
    {
      hide Fits, QueuedFits;
      JudgedLeft(memory, world, s);
    }

    lemma SignatureAwaited(s: Session)
      requires memory.session == Some(s) && memory.queued == [] && world.row.payload == s && Active(world)
      requires Fits(s, world.venue) && world.venue.unwound == 0.0
      requires s.state.AwaitingLeg2Sign? || s.state.AwaitingLeg2RetrySign?
      ensures MemoryFits(memory, world)
    {
      hide Fits;
      WaitingLeft(memory, world, s);
    }

    lemma VerdictFacts()
      requires Sound()
      ensures FailedIsFlat(world) <==> !FailedBlind(world)
      ensures ExposureRecorded(world) <==>
                Flat(world) || !(FinishedJudged(world) || (FailedBlind(world) && world.row.terminal))
      ensures FailedBlind(world) ==> !Flat(world)
      ensures FinishedJudged(world) ==> world.row.terminal && world.position.None?
    {
      FailedVerdictExactly(world);
      ExposureRecordedExactly(world);
      BlindIsNotFlat(world);
    }

    lemma NoRetryWaits()
      requires Sound() && world.position.None? && world.venue.sent2 == 0
      ensures world.row.terminal || world.row.payload.state != AwaitingLeg2RetrySign
    {
    }

    // ----- advance

    /** One client call. It sends at most one opening order, and none when the session has
        expired, was given up, or is not waiting for a signature. */
    method HandleAdvance(abort: bool, env: Env)
      requires Valid()
      modifies this
      ensures Valid() && old(visited) <= visited
      ensures world.venue.sent1 + world.venue.sent2 <= old(world).venue.sent1 + old(world).venue.sent2 + 1
      ensures old(memory).expired || !env.ready || !env.signed ==>
                world.venue.sent1 == old(world).venue.sent1 && world.venue.sent2 == old(world).venue.sent2
      ensures old(memory).session.None? || !old(memory).expired ==> SameHistory(old(world), world)
      ensures Advanced(old(world), old(memory), world, memory, abort, env)
    {
      hide Sound, Fits, VenueOk, HedgeAnswered, UnwindReady, MayUnwind, Leg1Called, GaveUp, HedgeCalled,
           Recovered, RetryCalled;
      if memory.session.Some? && memory.expired {
        TakeExpired(env.leased);
      } else if memory.session.Some? && env.ready {
        var s := memory.session.value;
        if s.state == AwaitingLeg1Signs {
          AdvanceLeg1(s, env);
        } else if s.state == AwaitingLeg2Sign && abort {
          AwaitingHedgeFacts(s, world);
          NoRetryWaits();
          UnwindAndForget(s, env);
        } else if s.state == AwaitingLeg2Sign {
          AwaitingHedgeFacts(s, world);
          AdvanceLeg2(s, env);
        } else if s.state == AwaitingLeg2RetrySign && abort {
          AwaitingRetryFacts(s, world.venue);
          RecoverInvalidHedge(s, env);
        } else if s.state == AwaitingLeg2RetrySign {
          AwaitingRetryFacts(s, world.venue);
          AdvanceLeg2Retry(s, env);
        } // otherwise the session is in a terminal state
      }
    }

    /** Fires the armed unwind and stores the outcome: failed only if it was confirmed.
        A recovery records what is left of leg 1, an advance what was filled. */
    method UnwindAndPersist(s: Session, from: Option<Session>, env: Env)
      returns (rest: Session, stored: bool)
      requires Sound() && QueuedFits(memory, world) && world.position.None? && PastLeverage(world)
      requires UnwindReady(s, world)
      requires if from.Some? && BlindToLeg2(from.value) then world.venue.Held2() > DUST else world.venue.Held2() <= DUST
      modifies this
      ensures Sound() && QueuedFits(memory, world) && old(visited) <= visited
      ensures SameButUnwound(old(world).venue, world.venue)
      ensures world.venue == Unwind(old(world), UnwindExecuted(s, old(world).venue, env.unwind)).venue
      ensures rest.state == if UnwindConfirms(s, old(world).venue, env.unwind) then Aborted else Degraded
      ensures stored ==> world.row == Finish(old(world)).row && memory == old(memory).(session := None)
                         && world.position.Some?
                         && world.position.value.state ==
                            (if UnwindConfirms(s, old(world).venue, env.unwind) then ExecFailed else ExecDegraded)
                         && world.position.value.leg1 == rest.leg1Fill && world.position.value.leg2 == rest.leg2Fill
      ensures rest == s.(state := rest.state, leg1Fill := rest.leg1Fill)
      ensures rest.leg1Fill == if from.None? then s.leg1Fill
                               else RemainingFillAfterUnwind(s.leg1Fill, UnwindSeen(s, old(world).venue, env.unwind))
      ensures env.leased && !old(world).row.terminal ==> stored
      ensures !stored ==> world == old(world).(venue := world.venue) && memory == old(memory)
      ensures SameHistory(old(world), world.(judgedFrom := old(world).judgedFrom))
      ensures stored ==> old(world).judgedFrom.None? && world.judgedFrom == from
      ensures HoldsLease(old(memory), old(world)) ==> stored
      ensures (rest.state.Aborted? || rest.state.Degraded?) && rest.leg1Amount == s.leg1Amount
    {
      hide Sound, VenueOk, MayUnwind, QueuedFits, UnwindFullyFilled, Flat, UnwindReady, SameButUnwound, UnwindExecuted,
           UnwindConfirms, UnwindSeen, HoldsLease, Storable;
      SoundFacts();
      UnwindReadyFacts(s, world);
      var before := world;
      var unwind, executed := FireUnwind(s, env.unwind);
      UnwindOutcome(s, before, unwind.status == Confirmed, executed);
      var (sessionState, execState) := TerminalStateAfterUnwind(unwind);
      rest := s.(state := sessionState,
                 leg1Fill := if from.Some? then RemainingFillAfterUnwind(s.leg1Fill, unwind.filled) else s.leg1Fill);
      var m, w := memory, world;
      NotOpenIsStorable(world, Position(execState, rest.leg1Fill, rest.leg2Fill), from);
      stored := PersistSession(rest, execState, from, env.leased);
      QueuedFrame(m, w, memory, world);
    }

    method AdvanceLeg1(s: Session, env: Env)
      requires Valid() && memory.session == Some(s) && s.state == AwaitingLeg1Signs
      modifies this
      ensures Valid() && old(visited) <= visited
      ensures world.venue.sent1 <= 1 && world.venue.sent2 == 0
      ensures !env.signed ==> world.venue == old(world).venue
      ensures Leg1Called(old(world), old(memory), world, memory, env)
      ensures SameHistory(old(world), world)
    {
      WaitingFacts(s);
      hide Sound, Fits, VenueOk, MemoryFits, QueuedFits, Leg1Answered, LeftUnsent, LeverageSet;
      if !env.sameSize || (env.signed && !(memory.leg1Token && env.valid)) {
        EndWaiting(s, env);
      } else if env.signed {
        memory := memory.(session := None, leg1Token := false);
        ConfigureLeverage(s, env);
      }
    }

    lemma WaitingFacts(s: Session)
      requires Valid() && memory.session == Some(s) && s.state == AwaitingLeg1Signs
      ensures Fits(s, world.venue) && world.position.None? && memory.queued == []
      ensures world.row.payload.state == AwaitingLeg1Signs
      ensures world.venue.sent1 == 0 && world.venue.sent2 == 0
    {
      hide Sound, VenueOk;
      SoundFacts();
      hide Fits;
      ArmedFits(s, world.venue);
    }

    /** The session will not be opened: it is forgotten and its row finished. */
    method EndWaiting(s: Session, env: Env)
      requires Valid() && memory.session == Some(s) && s.state == AwaitingLeg1Signs
      modifies this
      ensures Valid() && old(visited) <= visited
      ensures memory == old(memory).(session := None)
      ensures world == if env.unowned then Finish(old(world)) else old(world)
    {
      hide Sound, Fits, VenueOk;
      WaitingFacts(s);
      FinishLive(env.unowned);
      NothingLeft(memory, world);
    }

    /** Arms the unwind, held until a failure needs it, and applies the leverage updates. */
    method ConfigureLeverage(s0: Session, env: Env)
      requires Sound() && memory.session.None? && memory.queued == [] && world.position.None?
      requires s0.state == AwaitingLeg1Signs && Fits(s0, world.venue)
      requires world.row.payload.state == AwaitingLeg1Signs
      modifies this
      ensures Valid() && old(visited) <= visited
      ensures world.venue.sent1 <= 1 && world.venue.sent2 == 0
      ensures world.venue.sent1 == 0 ==> world.venue == old(world).venue && memory.session.None?
      ensures world.venue.sent1 == 1 ==> LeverageSet(env) && env.depthOk && env.inTime
      ensures env.leased && !old(world).row.terminal ==>
                if LeverageSet(env) && env.depthOk && env.inTime then
                  && world.venue.sent1 == 1
                  && Leg1Answered(Cleared(s0, env), old(world).venue, world, memory, env)
                else LeftUnsent(old(world), world, memory, env)
      ensures old(world).row.terminal ==> world == old(world) && memory == old(memory)
      ensures memory.leg1Token == old(memory).leg1Token
      ensures SameHistory(old(world), world)
    {
      hide Sound, Fits, MemoryFits, QueuedFits, Leg1Answered, LeverageSet, LeftUnsent;
      ArmedFits(s0, world.venue);
      NothingLeft(memory, world);
      var s := s0.(armedUnwind := Some(s0.leg1Amount), state := ConfiguringLeverage);
      var saved := Save(s, env.leased);
      if saved {
        var applied;
        saved, applied := ApplyLeverage(s, env);
        if saved {
          LeverageKeepsFits(s.(state := Leg1Submitting), world.venue, applied.leverageSet);
          SubmitIfReady(applied, env);
        } else {
          EndUnsent(env);
        }
        JournaledLeftUnsent(old(world), applied, world, memory, env);
      }
    }

    /** Nothing was sent: the session is finished. */
    method EndUnsent(env: Env)
      requires Sound() && Active(world) && world.venue.sent1 == 0 && memory.session.None? && memory.queued == []
      requires Quiet(world.row.payload.state, memory)
      modifies this
      ensures Valid() && old(visited) <= visited && LeftUnsent(old(world), world, memory, env)
      ensures world.venue == old(world).venue && memory.session.None?
      ensures memory.leg1Token == old(memory).leg1Token && SameHistory(old(world), world)
    {
      hide Sound, Fits, MemoryFits, QueuedFits;
      FinishLive(env.unowned);
      NothingLeft(memory, world);
    }

    /** The last checks before leg 1 leaves: book depth, the journal, and the time limit. */
    method SubmitIfReady(s0: Session, env: Env)
      requires Sound() && Active(world) && memory.session.None? && memory.queued == []
      requires s0 == world.row.payload && s0.state == ConfiguringLeverage
      requires Fits(s0.(state := Leg1Submitting), world.venue) && world.venue.sent1 == world.venue.sent2 == 0
               && s0.leg1Fill.None?
      modifies this
      ensures Valid() && old(visited) <= visited
      ensures world.venue.sent1 <= 1 && world.venue.sent2 == 0
      ensures world.venue.sent1 == 0 ==> world.venue == old(world).venue && memory.session.None?
      ensures world.venue.sent1 == 1 ==> env.depthOk && env.inTime
      ensures env.leased && env.depthOk && env.inTime ==>
                world.venue.sent1 == 1
                && Leg1Answered(s0.(state := Leg1Submitting), old(world).venue, world, memory, env)
      ensures !(env.depthOk && env.inTime) ==> LeftUnsent(old(world), world, memory, env)
      ensures memory.leg1Token == old(memory).leg1Token
      ensures SameHistory(old(world), world)
    {
      hide Sound, Fits, MemoryFits, VenueOk, MayUnwind, QueuedFits, Flat, Leg1Answered;
      NothingLeft(memory, world);
      var saved := env.depthOk;
      var s := s0.(state := Leg1Submitting);
      if saved {
        saved := Save(s, env.leased);
      }
      if saved && env.inTime {
        SubmitAndAwaitLeg1(s, env);
      } else {
        EndUnsent(env);
      }
    }

    /** Applies the leverage updates, journaling the session after each. */
    method ApplyLeverage(s: Session, env: Env) returns (saved: bool, applied: Session)
      requires Sound() && Active(world) && s.state == ConfiguringLeverage && Fits(s, world.venue)
      requires world == Journal(world, s)
      modifies this`world, this`visited
      ensures Sound() && old(visited) <= visited && world == Journal(old(world), applied)
      ensures applied == s.(leverageSet := applied.leverageSet) && Fits(applied, world.venue)
      ensures env.leased ==> (saved <==> LeverageSet(env))
      ensures saved ==> LeverageSet(env) && applied.leverageSet == s.leverageSet + |env.leverage|
    {
      hide Fits, Sound;
      saved, applied := true, s;
      var i := 0;
      while i < |env.leverage| && saved
        invariant 0 <= i <= |env.leverage|
        invariant Sound() && old(visited) <= visited && world == Journal(old(world), applied)
        invariant applied == s.(leverageSet := applied.leverageSet) && Fits(applied, world.venue)
        invariant saved ==> applied.leverageSet == s.leverageSet + i
        invariant saved ==> forall j :: 0 <= j < i ==> env.leverage[j]
        invariant env.leased && !saved ==> exists u :: u in env.leverage && !u
      {
        saved := env.leverage[i];
        assert env.leverage[i] in env.leverage;
        if saved {
          var next := applied.(leverageSet := applied.leverageSet + 1);
          LeverageKeepsFits(applied, world.venue, next.leverageSet);
          saved := Save(next, env.leased);
          if saved {
            applied := next;
          }
        }
        i := i + 1;
      }
    }

    method SubmitAndAwaitLeg1(s: Session, env: Env)
      requires Sound() && ReadyForLeg1(world) && world.row.payload == s
      requires memory.session.None? && memory.queued == []
      modifies this
      ensures Valid() && old(visited) <= visited
      ensures world.venue.sent1 == 1 && world.venue.sent2 == 0
      ensures env.order.kind.NotSent? || env.order.kind.Rejected? ==>
                && world.venue.fill1 == world.venue.unwound == 0.0 && memory.queued == []
                && (world.position.Some? ==> world.position.value.state == ExecFailed)
      ensures Leg1Answered(s, old(world).venue, world, memory, env)
      ensures memory.leg1Token == old(memory).leg1Token
      ensures SameHistory(old(world), world)
    {
      hide Sound, Fits, VenueOk, MayUnwind, MemoryFits, QueuedFits, Flat, SendLeg1, GaveUp, Leg1Judged;
      SoundFacts();
      var before := world;
      var executed := SubmitLeg1(env.order);
      Leg1SentFits(s, before.venue, executed, env.order);
      Leg1SentFacts(before, executed);
      NothingLeft(memory, world);
      if env.order.kind.NotSent? || env.order.kind.Rejected? {
        FailUnfilled(s, env);
      } else if env.order.kind == Ambiguous {
        memory := memory.(queued := [s]);
        RecoveryLeft(memory, world, s);
      } else {
        var submitted := s.(state := Leg1Submitted);
        var saved := Save(submitted, env.leased);
        if saved {
          AwaitLeg1Fill(submitted, executed, env);
        }
      }
    }

    /** Leg 1 was rejected or never left: nothing is held. */
    method FailUnfilled(s: Session, env: Env)
      requires Sound() && Active(world) && PastLeverage(world) && memory.session.None? && memory.queued == []
      requires world.venue.Held1() == world.venue.Held2() == 0.0 && Quiet(world.row.payload.state, memory)
      modifies this
      ensures Valid() && old(visited) <= visited && world.venue == old(world).venue
      ensures memory == old(memory) && SameHistory(old(world), world)
      ensures env.leased ==> world.position.Some?
      ensures world.position.Some? ==>
                world.row.terminal && world.position.value == Position(ExecFailed, s.leg1Fill, s.leg2Fill)
    {
      hide Sound, Fits, MemoryFits, QueuedFits, Flat, Storable;
      NothingHeldIsFlat(world);
      NotOpenIsStorable(world, Position(ExecFailed, s.leg1Fill, s.leg2Fill), None);
      var stored := PersistSession(s.(state := Failed), ExecFailed, None, env.leased);
      NothingLeft(memory, world);
    }

    /** Leg 1 was accepted: learn its fill, and unwind or size the hedge from it. */
    method AwaitLeg1Fill(s: Session, executed: real, env: Env)
      requires Sound() && Active(world) && world.row.payload == s && s.state == Leg1Submitted
      requires memory.session.None? && memory.queued == []
      requires s.leg1Fill.None? && s.leg1Amount > 0.0
      requires Fits(Leg1Filled(s, executed, env.order), world.venue)
      requires executed == world.venue.fill1 && world.venue.unwound == 0.0
      modifies this
      ensures Valid() && old(visited) <= visited
      ensures world.venue.sent1 == old(world).venue.sent1 && world.venue.sent2 == 0
      ensures !env.order.confirmed ==>
                && GaveUp(s, old(world).venue, world, memory, env) && (env.leased ==> world.position.Some?)
      ensures env.leased && env.order.confirmed ==>
                Leg1Judged(Leg1Filled(s, executed, env.order), old(world).venue, world, memory, env)
      ensures memory.session.Some? ==>
                && world.venue == old(world).venue && env.build.Some?
                && executed >= MIN_HEDGEABLE_FILL_PCT * s.leg1Amount
                && memory.session.value.state == AwaitingLeg2Sign
                && memory.session.value.leg2Open == Some(Min(executed, Max(0.0, env.build.value)))
      ensures env.order.confirmed && env.build.Some? && executed >= MIN_HEDGEABLE_FILL_PCT * s.leg1Amount ==>
                world.venue == old(world).venue
      ensures memory.leg1Token == old(memory).leg1Token
      ensures SameHistory(old(world), world)
    {
      hide Sound, Fits, VenueOk, MemoryFits, QueuedFits, UnwindReady, UnwindExecuted, UnwindConfirms;
      NothingLeft(memory, world);
      QuietMemory(memory, world);
      var filled := Leg1Filled(s, executed, env.order);
      Leg1FilledFacts(s, filled, world);
      if !env.order.confirmed {
        UnwindAndForget(s, env);
      } else {
        var saved := Save(filled, env.leased);
        NothingLeft(memory, world);
        if saved {
          QuietMemory(memory, world);
          Leg1FilledFacts(s, filled, world);
          RatioIsHalf(executed, s.leg1Amount);
          if executed / s.leg1Amount < MIN_HEDGEABLE_FILL_PCT || env.build.None? {
            UnwindAndForget(filled, env);
          } else {
            AwaitHedge(filled, env.build.value, env);
          }
        }
      }
    }

    /** The hedge is sized from the actual fill; a payload builder never rounds up. */
    method AwaitHedge(s: Session, built: real, env: Env)
      requires Sound() && Active(world) && memory.session.None? && memory.queued == []
      requires s.state == Leg1Submitted && s.leg1Fill.Some? && Fits(s, world.venue) && world.row.payload == s
      requires world.venue.fill1 >= MIN_HEDGEABLE_FILL_PCT * s.leg1Amount && world.venue.unwound == 0.0
      requires s.leg1Fill.value.amount == world.venue.fill1 >= 0.0
      modifies this
      ensures Valid() && old(visited) <= visited && world.venue == old(world).venue
      ensures var hedge := Min(s.leg1Fill.value.amount, Max(0.0, built));
              var waiting := s.(leg2Open := Some(hedge), state := AwaitingLeg2Sign);
              && world.position.None? && memory.queued == []
              && (memory.session == None
                  || (memory.session == Some(waiting) && memory.leg2Token && world.row == Row(waiting, true, false)))
              && (env.leased ==> memory.session.Some?)
      ensures memory.leg1Token == old(memory).leg1Token
      ensures SameHistory(old(world), world)
    {
      hide Sound, Fits, MemoryFits;
      var hedge := Min(s.leg1Fill.value.amount, Max(0.0, built));
      AwaitingHedgeFits(s, world.venue, hedge);
      NothingLeft(memory, world);
      var waiting := s.(leg2Open := Some(hedge), state := AwaitingLeg2Sign);
      var saved := Save(waiting, env.leased);
      if saved {
        memory := memory.(session := Some(waiting), leg2Token := true);
        SignatureAwaited(waiting);
      }
    }

    /** The hedge will not be sent: leg 1 is unwound and the session leaves memory. */
    method UnwindAndForget(s: Session, env: Env)
      requires Sound() && QueuedFits(memory, world) && world.position.None? && PastLeverage(world)
      requires UnwindReady(s, world) && world.venue.Held2() <= DUST
      requires world.row.terminal || Quiet(world.row.payload.state, memory) || HoldsLease(memory, world)
      modifies this
      ensures Valid() && old(visited) <= visited && memory.session.None?
      ensures SameButUnwound(old(world).venue, world.venue)
      ensures GaveUp(s, old(world).venue, world, memory, env)
      ensures (env.leased || HoldsLease(old(memory), old(world))) && !old(world).row.terminal ==> world.position.Some?
      ensures memory.queued == old(memory).queued
      ensures memory.leg1Token == old(memory).leg1Token
      ensures SameHistory(old(world), world)
    {
      hide Sound, UnwindReady, QueuedFits, SameButUnwound, UnwindExecuted, UnwindConfirms;
      var rest, stored := UnwindAndPersist(s, None, env);
      var m := memory;
      memory := memory.(session := None);
      QueuedFrame(m, world, memory, world);
    }

    method AdvanceLeg2(s: Session, env: Env)
      requires Valid() && memory.session == Some(s) && s.state == AwaitingLeg2Sign && !memory.expired
      modifies this
      ensures Valid() && old(visited) <= visited
      ensures world.venue.sent1 == old(world).venue.sent1 && world.venue.sent2 <= 1
      ensures !env.signed ==> world.venue == old(world).venue
      ensures Leg2Called(old(world), old(memory), world, memory, false, env)
      ensures SameHistory(old(world), world)
    {
      hide Sound, Fits, UnwindReady, HedgeCalled, GaveUp;
      AwaitingHedgeFacts(s, world);
      NoRetryWaits();
      if env.signed && !(memory.leg2Token && env.valid) {
        UnwindAndForget(s, env);
      } else if env.signed {
        HedgeSubmittingFits(s, world.venue);
        var submitting := s.(leg2Attempts := 1, state := Leg2Submitting);
        memory := memory.(leg2Token := false, session := None);
        NothingLeft(memory, world);
        var saved := Save(submitting, env.leased);
        if saved {
          SubmitHedge(submitting, env);
        }
      }
    }

    method SubmitHedge(s: Session, env: Env)
      requires Sound() && ReadyForLeg2(world) && world.row.payload == s && s.leg2Attempts == 1
      requires memory.session.None? && memory.queued == []
      modifies this
      ensures Valid() && old(visited) <= visited
      ensures world.venue.sent1 == old(world).venue.sent1 && world.venue.sent2 == 1
      ensures env.order.kind.NotSent? || env.order.kind.Ambiguous? ==>
                world.position.None? && memory.session.None? && memory.queued == [s]
      ensures world.venue.leg2Settled && !old(world).venue.leg2Settled ==>
                env.order.kind.Rejected? || (env.order.kind.Accepted? && env.order.confirmed)
      ensures HedgeCalled(s, old(world).venue, world, memory, env)
      ensures memory.leg2Token == old(memory).leg2Token
      ensures SameHistory(old(world), world)
    {
      hide Sound, Fits, VenueOk, MemoryFits, QueuedFits, HedgeAnswered, FirstHedgeKnown, RetryOffered, HedgeFilled;
      SoundFacts();
      var before := world.venue;
      var executed := SubmitLeg2(env.order);
      HedgeSentFits(s, before, executed, env.order);
      NothingLeft(memory, world);
      if env.order.kind.NotSent? || env.order.kind.Ambiguous? {
        memory := memory.(queued := [s]);
        RecoveryLeft(memory, world, s);
      } else if env.order.kind == Rejected {
        Settle(env.order);
        PrepareLeg2Retry(s, env);
      } else {
        AwaitLeg2Fill(s, before, executed, env);
      }
    }

    /** The hedge was accepted: it is journaled as submitted and its fill awaited. */
    method AwaitLeg2Fill(s: Session, ghost before: VenueTruth, executed: real, env: Env)
      requires Sound() && Active(world) && PastLeverage(world) && world.row.payload == s && s.state == Leg2Submitting
      requires memory.session.None? && memory.queued == [] && s.leg2Attempts == 1 && s.leg2Fill.None?
      requires Fits(s, before) && before.sent2 == 0 && before.unwound == 0.0 && 0.0 <= executed <= before.fill1
      requires world.venue == before.(sent2 := 1, fill2 := executed)
      requires env.order.kind.Accepted?
      modifies this
      ensures Valid() && old(visited) <= visited
      ensures world.venue.sent1 == old(world).venue.sent1 && world.venue.sent2 == 1
      ensures world.venue.leg2Settled && !old(world).venue.leg2Settled ==> env.order.confirmed
      ensures env.leased ==> HedgeFilled(s, old(world).venue, executed, world, memory, env)
      ensures memory.leg2Token == old(memory).leg2Token
      ensures env.leased && env.order.confirmed ==>
                WasJournaled(s.(state := Leg2Submitted,
                                leg2Fill := Some(ReportedFill(executed, env.order, LEG2_ORDER))))
      ensures SameHistory(old(world), world)
    {
      hide Sound, Fits, VenueOk, MemoryFits, QueuedFits, HedgeAnswered, FirstHedgeKnown, HedgeJudged;
      HedgeSentFits(s, before, executed, env.order);
      NothingLeft(memory, world);
      var submitted := s.(state := Leg2Submitted);
      var saved := Save(submitted, env.leased);
      NothingLeft(memory, world);
      if saved && !env.order.confirmed {
        memory := memory.(queued := [submitted]);
        RecoveryLeft(memory, world, submitted);
      } else if saved {
        Settle(env.order);
        var filled := submitted.(leg2Fill := Some(ReportedFill(executed, env.order, LEG2_ORDER)));
        saved := Save(filled, env.leased);
        JudgeHedge(filled, env);
      }
    }

    /** A session in the middle of its hedge, in this handler's hands, with its fills known. */
    ghost predicate MidHedge(s: Session)
      reads this
    {
      && Sound() && Active(world) && memory.session.None? && memory.queued == []
      && world.venue.unwound == 0.0
      && (world.row.payload.state.Leg2Submitting? || world.row.payload.state.Leg2Submitted?)
      && world.row.payload.leg1Amount == s.leg1Amount && HedgeAnswered(s, world.venue)
    }

    method JudgeHedge(s: Session, env: Env)
      requires MidHedge(s) && world.venue.sent2 == 1 && s.leg2Attempts == 1 && s.leg2Fill.Some?
      requires world.venue.fill2 < 0.95 * world.venue.fill1 ==> FirstHedgeKnown(s, world.venue)
      requires s.leg2Fill.value.filled <==> s.leg2Fill.value.amount > 0.0
      modifies this
      ensures Valid() && old(visited) <= visited
      ensures SameButUnwound(old(world).venue, world.venue)
      ensures HedgeJudged(s, old(world).venue, world, memory, env)
      ensures memory.leg2Token == old(memory).leg2Token && memory.queued == []
      ensures SameHistory(old(world), world)
    {
      hide Sound, VenueOk, MemoryFits, FirstHedgeKnown, Opened, Recovered, RetryOffered;
      var fill := s.leg2Fill.value;
      var leg1 := s.leg1Fill.value.amount;
      MismatchIsBand(leg1, fill.amount);
      if fill.filled && HedgeMismatch(leg1, fill.amount) <= MAX_HEDGE_MISMATCH_PCT {
        CompleteHedgeOpen(s, env);
      } else {
        UnfilledIsOutside(s, world.venue);
        HedgeOutsideBand(s, world.venue);
        if RetryableLeg2Fill(fill, leg1) {
          PrepareLeg2Retry(s, env);
        } else {
          RecoverInvalidHedge(s, env);
        }
      }
    }

    method PrepareLeg2Retry(s: Session, env: Env)
      requires MidHedge(s) && world.venue.sent2 == 1 && s.leg2Attempts == 1
      requires FirstHedgeKnown(s, world.venue)
      modifies this
      ensures Valid() && old(visited) <= visited
      ensures SameButUnwound(old(world).venue, world.venue)
      ensures RetryOffered(s, old(world).venue, world, memory, env)
      ensures memory.leg2Token == old(memory).leg2Token && memory.queued == []
      ensures SameHistory(old(world), world)
    {
      ghost var before := world.venue;
      RetryFacts(s, before);
      assert SameButUnwound(before, before);
      hide Sound, Fits, VenueOk, MemoryFits, HedgeAnswered, FirstHedgeKnown, MayUnwind, QueuedFits, Recovered,
           RetryOffered, SameButUnwound, MidHedge;
      NothingLeft(memory, world);
      QuietMemory(memory, world);
      var remaining := s.leg1Fill.value.amount - FillAmount(s.leg2Fill);
      if s.leg2Attempts >= 2 || remaining <= 0.0 || env.build.None? || !env.aboveMinimum {
        RecoverInvalidHedge(s, env);
        NoRetryOffered(s, s, before, world, memory, env);
      } else {
        var retry := RetrySize(s, env);
        RetryFits(s, world.venue, retry);
        var waiting := s.(leg2Retry := Some(retry), state := AwaitingLeg2RetrySign);
        var saved := Save(waiting, env.leased);
        if saved {
          memory := memory.(session := Some(waiting), retryToken := true);
          SignatureAwaited(waiting);
          RetryWaits(s, before, world, memory, env);
        } else {
          RecoverInvalidHedge(waiting, env);
          NoRetryOffered(s, waiting, before, world, memory, env);
        }
      }
    }

    method AdvanceLeg2Retry(s: Session, env: Env)
      requires Valid() && memory.session == Some(s) && s.state == AwaitingLeg2RetrySign && !memory.expired
      modifies this
      ensures Valid() && old(visited) <= visited
      ensures world.venue.sent1 == old(world).venue.sent1 && world.venue.sent2 <= 2
      ensures old(world).venue.sent2 == 1
      ensures !env.signed ==> world.venue == old(world).venue
      ensures RetryAdvanced(old(world), old(memory), world, memory, false, env)
      ensures SameHistory(old(world), world)
    {
      hide Sound, Fits, VenueOk, MayUnwind, HedgeAnswered, Recovered, RetryCalled;
      AwaitingRetryFacts(s, world.venue);
      if env.signed && !(memory.retryToken && env.valid) {
        RecoverInvalidHedge(s, env);
      } else if env.signed {
        var submitting := s.(leg2Attempts := 2, state := Leg2Submitting);
        memory := memory.(retryToken := false, session := None);
        var saved := Save(submitting, env.leased);
        if saved {
          SubmitRetry(submitting, env);
        } else {
          RecoverInvalidHedge(submitting, env);
        }
      }
    }

    method SubmitRetry(s: Session, env: Env)
      requires Sound() && ReadyForLeg2(world) && world.row.payload == s && s.leg2Attempts == 2
      requires memory.session.None? && memory.queued == []
      modifies this
      ensures Valid() && old(visited) <= visited
      ensures world.venue.sent1 == old(world).venue.sent1 && world.venue.sent2 == 2
      ensures RetryCalled(s, old(world).venue, world, memory, env)
      ensures memory.retryToken == old(memory).retryToken
      ensures SameHistory(old(world), world)
    {
      hide Sound, Fits, VenueOk, MayUnwind, MemoryFits, HedgeAnswered, Recovered, RetryFilled, QueuedFits;
      SoundFacts();
      var before := world.venue;
      var executed := SubmitLeg2(env.order);
      RetrySentFits(s, before, executed, env.order);
      NothingLeft(memory, world);
      if env.order.kind.NotSent? || env.order.kind.Ambiguous? {
        memory := memory.(queued := [s]);
        RecoveryLeft(memory, world, s);
      } else if env.order.kind == Rejected {
        RecoverInvalidHedge(s, env);
      } else {
        AwaitRetryFill(s, before, executed, env);
      }
    }

    /** The retry was accepted: its fill is awaited and added to that of the hedge. */
    method AwaitRetryFill(s: Session, ghost before: VenueTruth, executed: real, env: Env)
      requires Sound() && Active(world) && PastLeverage(world) && world.row.payload == s && s.state == Leg2Submitting
      requires memory.session.None? && memory.queued == [] && s.leg2Attempts == 2
      requires Fits(s, before) && before.sent2 == 1 && before.unwound == 0.0
      requires 0.0 <= executed <= before.fill1 - before.fill2
      requires s.leg2Fill.Some? ==> s.leg2Fill.value.orderId == LEG2_ORDER
      requires world.venue == before.(sent2 := 2, retryFill := executed)
      modifies this
      ensures Valid() && old(visited) <= visited
      ensures world.venue.sent1 == old(world).venue.sent1 && world.venue.sent2 == 2
      ensures RetryFilled(s, old(world).venue, executed, world, memory, env)
      ensures memory.retryToken == old(memory).retryToken
      ensures env.leased && env.order.confirmed ==>
                WasJournaled(s.(state := Leg2Submitted,
                    leg2Fill := MergeFills(s.leg2Fill, Some(ReportedFill(executed, env.order, RETRY_ORDER)))))
      ensures SameHistory(old(world), world)
    {
      hide Sound, Fits, VenueOk, MayUnwind, MemoryFits, QueuedFits, HedgeAnswered, RetryJudged;
      RetrySentFits(s, before, executed, env.order);
      NothingLeft(memory, world);
      var submitted := s.(state := Leg2Submitted);
      var saved := Save(submitted, env.leased);
      NothingLeft(memory, world);
      if !env.order.confirmed {
        memory := memory.(queued := [submitted]);
        RecoveryLeft(memory, world, submitted);
      } else {
        var filled := submitted.(leg2Fill :=
          MergeFills(s.leg2Fill, Some(ReportedFill(executed, env.order, RETRY_ORDER))));
        saved := Save(filled, env.leased);
        JudgeRetry(filled, env);
      }
    }

    method JudgeRetry(s: Session, env: Env)
      requires MidHedge(s) && s.leg2Fill.Some?
      modifies this
      ensures Valid() && old(visited) <= visited
      ensures SameButUnwound(old(world).venue, world.venue)
      ensures RetryJudged(s, old(world).venue, world, memory, env)
      ensures memory.(session := None) == old(memory)
      ensures SameHistory(old(world), world)
    {
      hide Sound, VenueOk, MemoryFits, Opened, Recovered;
      MismatchIsBand(s.leg1Fill.value.amount, s.leg2Fill.value.amount);
      if HedgeMismatch(s.leg1Fill.value.amount, s.leg2Fill.value.amount) <= MAX_HEDGE_MISMATCH_PCT {
        CompleteHedgeOpen(s, env);
      } else {
        HedgeOutsideBand(s, world.venue);
        RecoverInvalidHedge(s, env);
      }
    }

    method CompleteHedgeOpen(s: Session, env: Env)
      requires MidHedge(s) && s.leg2Fill.Some?
      requires Within5Pct(s.leg1Fill.value.amount, s.leg2Fill.value.amount)
      modifies this
      ensures Valid() && old(visited) <= visited
      ensures world.venue == old(world).venue
      ensures Opened(s, old(world).venue, world, memory) && (env.leased ==> world.position.Some?)
      ensures memory.(session := None) == old(memory)
      ensures SameHistory(old(world), world)
    {
      hide Sound, VenueOk, MemoryFits, Storable, HedgeAnswered;
      HedgeWithinBand(s, world);
      var stored := PersistSession(s.(state := Open), ExecOpen, None, env.leased);
      NothingLeft(memory, world);
    }

    /** Unwinds leg 1, then stores what is left: failed only when nothing is. */
    method RecoverInvalidHedge(s: Session, env: Env)
      requires Sound() && QueuedFits(memory, world) && world.position.None? && PastLeverage(world)
      requires world.row.payload.leg1Amount == s.leg1Amount
      requires HedgeAnswered(s, world.venue) && MayUnwind(world.venue)
      modifies this
      ensures Valid() && old(visited) <= visited
      ensures SameButUnwound(old(world).venue, world.venue)
      ensures Recovered(s, old(world).venue, world, memory, env)
      ensures (env.leased || HoldsLease(old(memory), old(world))) && !old(world).row.terminal ==> world.position.Some?
      ensures memory.(session := None) == old(memory).(session := None)
      ensures SameHistory(old(world), world)
    {
      hide Sound, Fits, VenueOk, MayUnwind, QueuedFits, MemoryFits, HedgeAnswered, Flat, SameButUnwound,
           JudgedAfterUnwind, UnwindFullyFilled, Recovered, UnwindExecuted, UnwindConfirms, UnwindSeen,
           HoldsLease, Storable;
      // With no overfills the other branch, leg 2 larger than leg 1, is never reached.
      HedgeNeverOverfills(s, world.venue);
      var before := world;
      var unwind, executed := FireUnwind(s, env.unwind);
      InvalidHedgeUnwound(s, before, executed, unwind.filled);
      var judged := JudgedAfterUnwind(s, unwind.filled);
      var state := if judged.state == Failed then ExecFailed else ExecDegraded;
      NotOpenIsStorable(world, Position(state, judged.leg1Fill, judged.leg2Fill), None);
      StoreOrKeep(judged, state, env);
      RecoveryDone(s, before.venue, world, memory, env);
    }

    /** Stores what is left after the unwind of an invalid hedge, or keeps it for recovery. */
    method StoreOrKeep(judged: Session, state: ExecState, env: Env)
      requires Sound() && QueuedFits(memory, world) && world.position.None? && PastLeverage(world)
      requires world.row.payload.leg1Amount == judged.leg1Amount
      requires Storable(world, Position(state, judged.leg1Fill, judged.leg2Fill), None)
      requires Fits(judged.(state := Recovering), world.venue)
      modifies this
      ensures Valid() && old(visited) <= visited && world.venue == old(world).venue
      ensures (env.leased || HoldsLease(old(memory), old(world))) && !old(world).row.terminal ==> world.position.Some?
      ensures if world.position.Some? then
                && world.row.terminal && memory.session.None?
                && world.position.value == Position(state, judged.leg1Fill, judged.leg2Fill)
              else memory.session == Some(judged.(state := Recovering))
      ensures memory.(session := None) == old(memory).(session := None)
      ensures SameHistory(old(world), world)
    {
      hide Sound, Fits, QueuedFits, MemoryFits, Storable, HoldsLease;
      var m, w := memory, world;
      var stored := PersistSession(judged, state, None, env.leased);
      QueuedFrame(m, w, memory, world);
      if stored {
        StoredLeft(memory, world);
      } else {
        var waiting := judged.(state := Recovering);
        memory := memory.(session := Some(waiting));
        QueuedFrame(m, w, memory, world);
        JudgedWaits(waiting);
      }
    }

    // ----- recovery

    /** A result stored in between is the verdict of a recovery from `s`; nothing else is noted. */
    predicate Attributed(before: World, after: World, s: Session) {
      && after.finishedFrom == before.finishedFrom
      && (after.judgedFrom == before.judgedFrom || after.judgedFrom == Some(s))
      && (before.position.None? && after.position.Some? ==> after.judgedFrom == Some(s))
    }

    /** A recovery came to a verdict: it is stored, or kept in memory to be stored later. */
    predicate Judged()
      reads this
    {
      if memory.session.Some? then !HasPossibleExposure(memory.session.value.state) && Active(world)
      else world.position.Some? && world.row.terminal
    }

    /** A recovery's verdict; when it cannot be stored the judged session stays in memory. */
    method Conclude(s: Session, state: ExecState, from: Session, env: Env)
      requires Valid() && Active(world) && PastLeverage(world) && Quiet(world.row.payload.state, memory)
      requires (s.state.Open? || s.state.Degraded? || s.state.Failed?) && s.leg1Amount == world.row.payload.leg1Amount
      requires Storable(world, Position(state, s.leg1Fill, s.leg2Fill), Some(from))
      modifies this
      ensures Valid() && old(visited) <= visited && world.venue == old(world).venue
      ensures Judged() && Attributed(old(world), world, from)
      ensures Concluded(s, state, old(world).venue, world, memory, env)
      ensures memory.(session := None) == old(memory).(session := None)
    {
      hide Fits, CrashSafe, AllSafe;
      SafeFacts(world);
      JudgedFits(s, world.venue);
      var stored := PersistSession(s, state, Some(from), env.leased);
      if !stored {
        memory := memory.(session := Some(s));
      }
    }

    method UnwindAndConclude(s: Session, from: Session, env: Env)
      requires Valid() && Active(world) && PastLeverage(world) && Quiet(world.row.payload.state, memory)
      requires UnwindReady(s, world)
      requires if BlindToLeg2(from) then world.venue.Held2() > DUST else world.venue.Held2() <= DUST
      modifies this
      ensures Valid() && old(visited) <= visited && Judged() && Attributed(old(world), world, from)
      ensures SameButUnwound(old(world).venue, world.venue)
      ensures UnwoundAndConcluded(s, old(world).venue, world, memory, env)
      ensures memory.(session := None) == old(memory).(session := None)
    {
      hide Sound, Fits, VenueOk, MayUnwind, Flat, UnwindReady, MemoryFits, QueuedFits, SameButUnwound, UnwindExecuted,
           UnwindConfirms;
      MemoryKeepsQueued(memory, world);
      SoundFacts();
      UnwindReadyFacts(s, world);
      var rest, stored := UnwindAndPersist(s, Some(from), env);
      if stored {
        StoredLeft(memory, world);
      } else {
        SoundFacts();
        JudgedFits(rest, world.venue);
        var m := memory;
        memory := memory.(session := Some(rest));
        QueuedFrame(m, world, memory, world);
        JudgedWaits(rest);
      }
    }

    /** Exact-order lookups, where a venue offers them. */
    method ReconcileOrders(s0: Session, env: Env) returns (s: Session, leg1Known: bool, leg2Known: bool)
      requires Recoverable(s0, memory, world)
      ensures Recoverable(s, memory, world) && s.state == s0.state && s.side1 == s0.side1 && s.side2 == s0.side2
      ensures !NeedLeg2(s.state) ==> s.leg2Fill == s0.leg2Fill && !leg2Known
      ensures Learned(s0, s, leg1Known, leg2Known, world.venue, env)
      ensures leg1Known ==> s.leg1Fill.Some?
      ensures leg2Known ==> s.leg2Fill.Some? && (!FillPresent(s.leg2Fill) ==> world.venue.Held2() == 0.0)
    {
      s, leg2Known := s0, false;
      leg1Known := s.leg1Fill.Some?;
      if (s.state.Leg1Submitting? || s.state.Leg1Submitted?) {
        leg1Known := env.exact1;
        if env.exact1 {
          s := s.(leg1Fill := Some(Fill(world.venue.fill1, world.venue.fill1 > 0.0, false, 0)));
        }
      }
      if (s.state.Leg2Submitting? || s.state.Leg2Submitted?) && env.exact2 {
        leg2Known := true;
        if s.leg2Attempts >= 2 && s.leg2Retry.Some? {
          var fill := Fill(world.venue.retryFill, world.venue.retryFill > 0.0, false, RETRY_ORDER);
          if !FillPresent(s.leg2Fill) {
            s := s.(leg2Fill := Some(fill));
          } else if s.leg2Fill.value.orderId != fill.orderId {
            s := s.(leg2Fill := MergeFills(s.leg2Fill, Some(fill)));
          }
        } else {
          s := s.(leg2Fill := Some(Fill(world.venue.fill2, world.venue.fill2 > 0.0, false, LEG2_ORDER)));
        }
      }
    }

    /** A recovery working on the active row with a copy of its session. */
    ghost predicate InRecovery(s: Session)
      reads this
    {
      && Valid() && Recoverable(s, memory, world)
      && Active(world) && PastLeverage(world) && Quiet(world.row.payload.state, memory)
    }

    /** Reconciles an exposed session with the venues. Sends nothing but the unwind. */
    method RecoverExposedSession(s0: Session, env: Env) returns (claimed: bool)
      requires Valid() && Recoverable(s0, memory, world)
      requires !world.row.terminal ==> InRecovery(s0)
      modifies this
      ensures Valid() && old(visited) <= visited
      ensures SameButUnwound(old(world).venue, world.venue)
      ensures claimed && env.accountsReady && !env.overlapped ==> Judged()
      ensures env.leased && !old(world).row.terminal ==> claimed
      ensures if claimed then RecoveryDecided(s0, old(world), old(memory), world, memory, env)
              else world == old(world) && memory == old(memory)
      ensures Attributed(old(world), world, s0)
      ensures old(world).position.None? && world.position.Some? ==>
                (!FailedIsFlat(world) <==> world.position.value.state == ExecFailed && BlindToLeg2(s0))
      ensures ExposureRecorded(old(world)) && !ExposureRecorded(world) <==>
                && old(world).position.None? && world.position.Some? && world.position.value.state == ExecFailed
                && BlindToLeg2(s0)
    {
      hide Sound, Fits, VenueOk, MayUnwind, Flat, UnwindReady, ExposureRecorded, RecoveryDecided, Recoverable;
      VerdictFacts();
      claimed := Claim(env.leased);
      if claimed {
        RecoverClaimed(s0, env);
      }
      VerdictFacts();
    }

    /** Another operation of the accounts overlapped: the recovery runs again later. */
    method PutOff(s: Session)
      requires InRecovery(s)
      modifies this`memory
      ensures Valid() && memory == old(memory).(session := Some(s), queued := old(memory).queued + [s])
    {
      hide Sound, Fits, VenueOk;
      memory := memory.(session := Some(s), queued := memory.queued + [s]);
    }

    /** The recovery of a session whose lease was taken. */
    method RecoverClaimed(s0: Session, env: Env)
      requires InRecovery(s0)
      modifies this
      ensures Valid() && old(visited) <= visited
      ensures SameButUnwound(old(world).venue, world.venue)
      ensures env.accountsReady && !env.overlapped ==> Judged()
      ensures RecoveryDecided(s0, old(world), old(memory), world, memory, env)
      ensures if world.position.Some? then world.row.terminal else world.row.terminal == old(world).row.terminal
      ensures Attributed(old(world), world, s0)
    {
      hide Sound, Fits, VenueOk, MayUnwind, Flat, UnwindReady, UnwindFullyFilled, Concluded,
           VerdictWithoutTruth, VerdictFromTruth, Learned, RecoveryDecided, MemoryFits, SameButUnwound;
      assert SameButUnwound(world.venue, world.venue) by { UnchangedVenue(world.venue); }
      ghost var w0, m0 := world, memory;
      if env.accountsReady {
        var s, leg1Known, leg2Known := ReconcileOrders(s0, env);
        RecoveryFacts(s, world);
        if env.overlapped {
          PutOff(s);
        } else if leg1Known && !FillPresent(s.leg1Fill) {
          Conclude(s.(leg1Fill := None, leg2Fill := None, state := Failed), ExecFailed, s0, env);
        } else if !env.truthReady {
          RecoverWithoutTruth(s, s0, leg1Known, env);
        } else {
          RecoverFromTruth(s, s0, leg2Known, env);
        }
        DecidedFrom(s0, s, leg1Known, leg2Known, w0, m0, world, memory, env);
      } else {
        NothingDecided(s0, world, memory, env);
      }
    }

    /** No fresh account snapshot: only an exact leg-1 order may be unwound. */
    method RecoverWithoutTruth(s0: Session, from: Session, leg1Known: bool, env: Env)
      requires InRecovery(s0)
      requires s0.state == from.state && (NeedLeg2(s0.state) || s0.leg2Fill == from.leg2Fill)
      modifies this
      ensures Valid() && old(visited) <= visited && Judged() && Attributed(old(world), world, from)
      ensures SameButUnwound(old(world).venue, world.venue)
      ensures VerdictWithoutTruth(s0, leg1Known, old(world).venue, world, memory, env)
      ensures memory.(session := None) == old(memory).(session := None)
      ensures !leg1Known || !FillPresent(s0.leg1Fill) || NeedLeg2(s0.state) ==>
                world.venue == old(world).venue && (world.position.Some? ==> world.position.value.state == ExecDegraded)
    {
      hide Sound, Fits, VenueOk, MayUnwind, Flat, UnwindReady;
      RecoveryFacts(s0, world);
      var needLeg2 := NeedLeg2(s0.state);
      if !leg1Known || !FillPresent(s0.leg1Fill)
         || (!needLeg2 && !UnwindFullyFilled(s0.armedUnwind.value, s0.leg1Fill.value.amount)) {
        Conclude(s0.(state := Degraded), ExecDegraded, from, env);
      } else {
        var leg2Amount := if needLeg2 && s0.leg2Open.Some? then s0.leg2Open.value else 0.0;
        var s := EnsureRecoveryFills(s0, s0.leg1Amount, leg2Amount);
        if needLeg2 {
          Conclude(s.(state := Degraded), ExecDegraded, from, env);
        } else {
          RecoveredFillsReady(s0, world, s0.leg1Amount, leg2Amount);
          UnwindAndConclude(s, from, env);
        }
      }
    }

    /** A fresh snapshot: every order sent so far shows in the two signed sizes. */
    method RecoverFromTruth(s: Session, from: Session, leg2Known: bool, env: Env)
      requires InRecovery(s)
      requires s.state == from.state && (NeedLeg2(s.state) || s.leg2Fill == from.leg2Fill)
      requires leg2Known ==> (!FillPresent(s.leg2Fill) ==> world.venue.Held2() == 0.0)
      modifies this
      ensures Valid() && old(visited) <= visited && Judged() && Attributed(old(world), world, from)
      ensures SameButUnwound(old(world).venue, world.venue)
      ensures VerdictFromTruth(s, leg2Known, old(world).venue, world, memory, env)
      ensures memory.(session := None) == old(memory).(session := None)
      ensures !NeedLeg2(s.state) && old(world).venue.Held1() <= DUST ==>
                world.venue == old(world).venue && (world.position.Some? ==> world.position.value.state == ExecFailed)
    {
      hide Sound, Fits, VenueOk, MayUnwind, Flat, UnwindReady, SignedSize, ExposureMatches;
      RecoveryFacts(s, world);
      SignedSizeFacts(s.side1, world.venue.Held1());
      SignedSizeFacts(s.side2, world.venue.Held2());
      var leg1Delta := SignedSize(s.side1, world.venue.Held1());
      var leg2Delta := SignedSize(s.side2, world.venue.Held2());
      var leg1Exposed := ExposureMatches(s.side1, leg1Delta);
      var leg2Exposed := ExposureMatches(s.side2, leg2Delta) && (leg2Known ==> FillPresent(s.leg2Fill));
      if NeedLeg2(s.state) {
        ReconcileSubmittedHedge(s, from, Abs(leg1Delta), Abs(leg2Delta), leg1Exposed, leg2Exposed, env);
      } else if !leg1Exposed {
        if !BlindToLeg2(from) {
          NothingHeldIsFlat(world);
        }
        Conclude(s.(leg1Fill := None, leg2Fill := None, state := Failed), ExecFailed, from, env);
      } else {
        RecoveredFillsReady(s, world, Abs(leg1Delta), 0.0);
        UnwindAndConclude(EnsureRecoveryFills(s, Abs(leg1Delta), 0.0), from, env);
      }
    }

    /** A hedge is stored as open exactly when both legs are exposed and both the recorded
        fills and the sizes agree within 5%. */
    method ReconcileSubmittedHedge(
      s0: Session, from: Session, leg1Size: real, leg2Size: real, leg1Exposed: bool, leg2Exposed: bool, env: Env)
      requires InRecovery(s0)
      requires NeedLeg2(s0.state) && s0.state == from.state && leg1Size == world.venue.Held1()
               && leg2Size == world.venue.Held2()
      requires leg1Exposed <==> leg1Size > DUST
      requires leg2Exposed <==> leg2Size > DUST
      modifies this
      ensures Valid() && old(visited) <= visited && Judged() && Attributed(old(world), world, from)
      ensures SameButUnwound(old(world).venue, world.venue)
      ensures HedgeReconciled(s0, leg1Exposed, leg2Exposed, old(world).venue, world, memory, env)
      ensures memory.(session := None) == old(memory).(session := None)
    {
      hide Sound, Fits, VenueOk, MayUnwind, Flat, UnwindReady, HedgeMismatch, Within5Pct, MemoryFits;
      RecoveryFacts(s0, world);
      var s := EnsureRecoveryFills(s0, leg1Size, leg2Size);
      var fillMismatch := HedgeMismatch(FillAmount(s.leg1Fill), FillAmount(s.leg2Fill));
      var exposureMismatch := HedgeMismatch(leg1Size, leg2Size);
      MismatchIsBand(FillAmount(s.leg1Fill), FillAmount(s.leg2Fill));
      MismatchIsBand(leg1Size, leg2Size);
      if !leg1Exposed && !leg2Exposed {
        NothingHeldIsFlat(world);
        Conclude(s.(state := Failed), ExecFailed, from, env);
      } else if leg1Exposed && leg2Exposed && Max(fillMismatch, exposureMismatch) <= MAX_HEDGE_MISMATCH_PCT {
        ReconciledHedgeIsOpen(s0, world, Some(from));
        Conclude(s.(state := Open), ExecOpen, from, env);
      } else if leg1Exposed && !leg2Exposed {
        RecoveredFillsReady(s0, world, leg1Size, leg2Size);
        UnwindAndConclude(s, from, env);
      } else {
        Conclude(s.(state := Degraded), ExecDegraded, from, env);
      }
    }

    /** Finishes a session believed never to have sent an order. Exposure is lost exactly
        when the row was finished although the session had been judged and had left some. */
    method FinishSafe(s: Session, leased: bool)
      requires Sound() && memory.session.None? && world.position.None? && QueuedFits(memory, world)
      requires Fits(s, world.venue) && !HasPossibleExposure(s.state)
      requires !world.row.terminal ==> Quiet(world.row.payload.state, memory)
      modifies this`world, this`visited
      ensures Valid() && old(visited) <= visited
      ensures world == old(world) || (Active(old(world)) && world == FinishBy(old(world), s))
      ensures leased && !old(world).row.terminal ==> world == FinishBy(old(world), s)
      ensures LostOnlyBy(old(world), world, s)
    {
      hide Fits, Flat, AllSafe;
      var claimed := Claim(leased);
      if claimed {
        CleanupLosesExactly(world, s);
        FinishSafeIsSafe(world, s);
        Commit(FinishBy(world, s));
      }
    }

    /** The expired session leaves memory: an exposed one is recovered, others are finished. */
    method TakeExpired(leased: bool)
      requires Valid() && memory.session.Some? && memory.expired
      modifies this
      ensures Valid() && old(visited) <= visited && world.venue == old(world).venue
      ensures HandedOver(old(world), old(memory), world, memory, leased)
      ensures LostOnlyBy(old(world), world, old(memory).session.value)
    {
      hide Fits, CrashSafe, AllSafe;
      var s := memory.session.value;
      memory := memory.(session := None);
      if HasPossibleExposure(s.state) {
        memory := memory.(queued := memory.queued + [s]);
      } else {
        FinishSafe(s, leased);
      }
    }

    /** One pass of the restore loop over the journaled row. A row that cannot be read, or
        whose position belongs to other accounts, stays as it is when it is exposed, and a
        degraded position of its own is surfaced for it: it is blocked. */
    method RestoreSession(env: Env) returns (granted: bool)
      requires Valid()
      modifies this
      ensures Valid() && old(visited) <= visited
      ensures SameButUnwound(old(world).venue, world.venue)
      ensures Attributed(old(world).(finishedFrom := world.finishedFrom), world, old(world).row.payload)
      ensures FinishedJudged(world) == FinishedJudged(old(world))
      ensures FailedBlind(world) == FailedBlind(old(world))
      ensures ExposureRecorded(old(world)) && !ExposureRecorded(world) <==>
                !old(world).row.terminal && world.row.terminal && FailedBlind(old(world))
      ensures Restored(old(world), old(memory), world, memory, granted, env)
    {
      hide Sound, Fits, Flat, ExposureRecorded, FailedBlind, FinishedJudged, Resumed;
      VerdictFacts();
      granted := false;
      if !world.row.terminal && memory.session.None? {
        granted := Claim(env.leased);
        if Unrestorable(world, env) {
          if granted || !world.row.hasExposure {
            Block();
            SameVerdict(old(world), world);
          }
        } else if !env.readable {
          granted := FinishUnreadable(env);
          SameVerdict(old(world), world);
        } else if granted && world.position.Some? {
          FinishLive(true);
          SameVerdict(old(world), world);
        } else if (granted || !world.row.hasExposure) && world.position.None? {
          SoundFacts();
          ResumeSession(world.row.payload, env);
        }
      }
      VerdictFacts();
    }

    /** Flags the row and surfaces a degraded position for it; the row stays active. */
    method Block()
      requires Valid()
      modifies this`world, this`visited
      ensures Valid() && old(visited) <= visited && world == old(world).(blocked := true)
    {
      BlockIsSafe(world);
      BlockKeepsMemory(memory, world);
      hide MemoryFits, CrashSafe;
      Commit(world.(blocked := true));
    }

    /** A row that cannot be read is finished when it is unexposed. */
    method FinishUnreadable(env: Env) returns (claimed: bool)
      requires Valid() && memory.session.None? && !world.row.hasExposure
      modifies this`world, this`visited
      ensures Valid() && old(visited) <= visited
      ensures world == if claimed then Finish(old(world)) else old(world)
      ensures env.leased && !old(world).row.terminal ==> claimed
    {
      hide Fits, CrashSafe, AllSafe;
      claimed := Claim(env.leased);
      if claimed {
        SafeFacts(world);
        FinishIsSafe(world);
        Commit(Finish(world));
      }
    }

    lemma SameVerdict(before: World, after: World)
      requires after.position == before.position && SameHistory(before, after)
      ensures FailedBlind(after) == FailedBlind(before) && FinishedJudged(after) == FinishedJudged(before)
      ensures after.venue == before.venue && after.row.payload == before.row.payload ==> Flat(after) == Flat(before)
    {
    }

    method ResumeSession(s: Session, env: Env)
      requires Valid() && Active(world) && memory.session.None? && s == world.row.payload
      requires Fits(s, world.venue) && Journaled(s.state)
      modifies this
      ensures Valid() && old(visited) <= visited
      ensures SameButUnwound(old(world).venue, world.venue)
      ensures Attributed(old(world).(finishedFrom := world.finishedFrom), world, old(world).row.payload)
      ensures Resumed(old(world), old(memory), world, memory, env)
      ensures FinishedJudged(world) == FinishedJudged(old(world))
      ensures FailedBlind(world) == FailedBlind(old(world))
    {
      hide Sound, Fits, VenueOk, MayUnwind, Flat, RecoveryDecided;
      SoundFacts();
      if s.state == ConfiguringLeverage {
        FinishLive(true);
      } else if s.state != AwaitingLeg1Signs {
        var claimed := RecoverExposedSession(s, env);
      } else if memory.expired || !env.inTime {
        FinishSafe(s, env.leased);
      } else {
        memory := memory.(session := Some(s), leg1Token := true);
      }
    }

    /** A new prepare takes the slot of an unexposed session. */
    method SupersedeSafe()
      requires Valid()
      modifies this
      ensures Valid() && old(visited) <= visited && world.venue == old(world).venue
      ensures memory == old(memory)
      ensures world == if old(world).row.terminal || old(world).row.hasExposure then old(world)
                       else Finish(old(world))
      ensures SameHistory(old(world), world)
    {
      hide Fits, CrashSafe, AllSafe;
      if !world.row.terminal && !world.row.hasExposure {
        SafeFacts(world);
        FinishIsSafe(world);
        Commit(Finish(world));
      }
    }

    /** The process dies leaving the durable world `point`: memory is lost. */
    method Crash(point: World)
      requires Valid() && point in visited
      modifies this`world, this`memory
      ensures Valid() && memory == NO_MEMORY && world == point
    {
      world := point;
      memory := NO_MEMORY;
    }

    /** Any number of events in any order, with any replies and any number of crashes,
        each between any two calls; `points` are where the events lead. */
    method Run(events: seq<Event>) returns (ghost points: seq<Point>)
      requires Valid()
      modifies this
      ensures Valid() && old(visited) <= visited
      ensures forall w :: w in visited ==> Promised(w)
      ensures |points| == |events| + 1 && points[0] == Point(old(world), old(memory), old(visited))
      ensures points[|events|] == Point(world, memory, visited)
      ensures forall n :: 0 <= n < |events| ==> Handled(events[n], points[n], points[n + 1])
    {
      hide Fits, CrashSafe, Handled, Promised;
      points := [Point(world, memory, visited)];
      for n := 0 to |events|
        invariant Valid() && old(visited) <= visited
        invariant |points| == n + 1 && points[0] == Point(old(world), old(memory), old(visited))
        invariant points[n] == Point(world, memory, visited)
        invariant forall k :: 0 <= k < n ==> Handled(events[k], points[k], points[k + 1])
      {
        Handle(events[n]);
        points := points + [Point(world, memory, visited)];
      }
      forall w | w in visited
        ensures Promised(w)
      {
        SafeKeepsPromises(w);
      }
    }

    method Handle(event: Event)
      requires Valid()
      modifies this
      ensures Valid() && old(visited) <= visited
      ensures Handled(event, Point(old(world), old(memory), old(visited)), Point(world, memory, visited))
    {
      hide Fits, CrashSafe, AllSafe, MemoryFits, Advanced, Restored, RanQueued;
      match event
      case Advance(abort, env) => HandleAdvance(abort, env);
      case Expire => ExpireSession();
      case Cleanup(leased) =>
        if memory.session.Some? && memory.expired {
          TakeExpired(leased);
        }
      case Restore(env) =>
        var granted := RestoreSession(env);
      case RunQueued(env) => RunFirstQueued(env);
      case Supersede => SupersedeSafe();
      case CrashAt(point) =>
        if point in visited {
          Crash(point);
        }
    }

    /** The session's minute is over. */
    method ExpireSession()
      requires Valid()
      modifies this`memory
      ensures Valid() && memory == old(memory).(expired := true)
    {
      hide Fits, CrashSafe, AllSafe;
      memory := memory.(expired := true);
    }

    method RunFirstQueued(env: Env)
      requires Valid()
      modifies this
      ensures Valid() && old(visited) <= visited
      ensures SameButUnwound(old(world).venue, world.venue)
      ensures if old(memory).queued == [] then world == old(world)
              else Attributed(old(world), world, old(memory).queued[0])
      ensures RanQueued(old(world), old(memory), world, memory, env)
    {
      hide Fits, CrashSafe, AllSafe, RecoveryDecided;
      if memory.queued != [] {
        QueuePopped(memory, world);
        var s := memory.queued[0];
        memory := memory.(queued := memory.queued[1..]);
        var claimed := RecoverExposedSession(s, env);
      }
    }
  }
}
