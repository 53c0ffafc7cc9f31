/** The two-leg live open session: its states, the pure decisions taken on fills,
    the durable journal row, and the facts that must hold at every store or venue
    call so that a restart from that point is safe.

    Amounts are reals. Every order reply of a venue is one value `OrderReply`
    chosen freely by the environment; `Executed` limits it to what a venue may do.
 */
module LiveSession {
  import opened Basics

  const MIN_HEDGEABLE_FILL_PCT := 0.50
  const MAX_HEDGE_MISMATCH_PCT := 0.05
  const DUST: real := 1e-9

  datatype Side = Long | Short

  datatype SessionState =
    | AwaitingLeg1Signs
    | ConfiguringLeverage
    | Leg1Submitting
    | Leg1Submitted
    | AwaitingLeg2Sign
    | AwaitingLeg2RetrySign
    | Leg2Submitting
    | Leg2Submitted
    | Recovering
    | Open
    | Degraded
    | Aborted
    | Failed

  datatype ExecState = ExecOpen | ExecDegraded | ExecFailed

  /** `filled` is the venue's flag "filled, or partial with amount > 0"; order id 0 is the empty id. */
  datatype Fill = Fill(amount: real, filled: bool, timedOut: bool, orderId: nat)

  const LEG2_ORDER: nat := 1
  const RETRY_ORDER: nat := 2

  datatype Session = Session(
    state: SessionState,
    side1: Side,
    side2: Side,
    leg1Amount: real,
    armedUnwind: Option<real>,
    leg2Open: Option<real>,
    leg2Retry: Option<real>,
    leg1Fill: Option<Fill>,
    leg2Fill: Option<Fill>,
    leg2Attempts: nat,
    leverageSet: nat)

  // ----- decisions on sessions and fills

  predicate HasPossibleExposure(state: SessionState) {
    (state.ConfiguringLeverage? || state.Leg1Submitting? || state.Leg1Submitted? || state.AwaitingLeg2Sign?
      || state.AwaitingLeg2RetrySign? || state.Leg2Submitting? || state.Leg2Submitted? || state.Recovering?)
  }

  predicate NeedLeg2(state: SessionState) {
    (state.AwaitingLeg2RetrySign? || state.Leg2Submitting? || state.Leg2Submitted?)
  }

  function Abs(a: real): real { if a < 0.0 then -a else a }

  function FillAmount(fill: Option<Fill>): real {
    if fill.Some? then fill.value.amount else 0.0
  }

  predicate FillPresent(fill: Option<Fill>) {
    fill.Some? && fill.value.filled && fill.value.amount > 0.0
  }

  function MergeFills(first: Option<Fill>, second: Option<Fill>): Option<Fill> {
    if first.None? then second
    else if second.None? then first
    else
      var total := first.value.amount + second.value.amount;
      Some(second.value.(amount := total, filled := total > 0.0))
  }

  function HedgeMismatch(leg1Amount: real, leg2Amount: real): real {
    if leg1Amount <= 0.0 then 1.0 else Abs(leg2Amount - leg1Amount) / leg1Amount
  }

  function RemainingFillAfterUnwind(fill: Option<Fill>, unwound: real): Option<Fill> {
    if fill.None? then None
    else
      var remaining := Max(0.0, fill.value.amount - unwound);
      if remaining <= DUST then None
      else Some(fill.value.(amount := remaining, filled := true, timedOut := false))
  }

  predicate RetryableLeg2Fill(fill: Fill, target: real) {
    fill.amount < target && (fill.amount > 0.0 || !fill.timedOut)
  }

  function Tolerance(requested: real): real { Max(DUST, requested * DUST) }

  predicate UnwindFullyFilled(requested: real, filled: real) {
    requested > 0.0 && filled + Tolerance(requested) >= requested
  }

  function SignedSize(side: Side, size: real): real {
    if side == Short then -Abs(size) else Abs(size)
  }

  predicate ExposureMatches(side: Side, delta: real) {
    if side == Long then delta > DUST else delta < -DUST
  }

  datatype UnwindStatus = NotArmed | Skipped | SubmitFailed | Unconfirmed | Confirmed

  datatype UnwindResult = UnwindResult(status: UnwindStatus, requested: real, filled: real)

  function TerminalStateAfterUnwind(unwind: UnwindResult): (SessionState, ExecState) {
    if unwind.status == Confirmed then (Aborted, ExecFailed) else (Degraded, ExecDegraded)
  }

  /** What the armed unwind must fill to count as confirmed. */
  function UnwindTarget(s: Session): real
    requires s.armedUnwind.Some?
  {
    if s.leg1Fill.Some? && s.leg1Fill.value.amount > 0.0 then s.leg1Fill.value.amount
    else s.armedUnwind.value
  }

  function EnsureRecoveryFills(s: Session, leg1Amount: real, leg2Amount: real): Session {
    var leg1 := if s.leg1Fill.None? && leg1Amount > 0.0
                then Some(Fill(leg1Amount, true, false, 0)) else s.leg1Fill;
    var leg2 := if s.leg2Fill.None? && leg2Amount > 0.0
                then Some(Fill(leg2Amount, true, false, 0)) else s.leg2Fill;
    s.(leg1Fill := leg1, leg2Fill := leg2)
  }

  // ----- what a venue may do

  datatype SubmitKind = NotSent | Ambiguous | Rejected | Accepted

  /** `confirmed`: the wait for the fill returned a result. */
  datatype OrderReply = OrderReply(kind: SubmitKind, executed: real, confirmed: bool, timedOut: bool)

  /** An order that left never fills more than its amount; a rejected one fills nothing. */
  function Executed(amount: real, reply: OrderReply): (r: real)
    requires amount >= 0.0
    ensures 0.0 <= r <= amount
    ensures (reply.kind.NotSent? || reply.kind.Rejected?) ==> r == 0.0
  {
    if (reply.kind.NotSent? || reply.kind.Rejected?) then 0.0
    else Min(amount, Max(0.0, reply.executed))
  }

  function ReportedFill(executed: real, reply: OrderReply, orderId: nat): Fill {
    Fill(executed, executed > 0.0, reply.timedOut, orderId)
  }

  /** Venue truth about this session's orders. `leg2Settled` records that the first
      leg-2 order has a definite outcome known to the server. */
  datatype VenueTruth = VenueTruth(
    sent1: nat,
    fill1: real,
    sent2: nat,
    fill2: real,
    retryFill: real,
    unwound: real,
    leg2Settled: bool)
  {
    function Held1(): real { fill1 - unwound }
    function Held2(): real { fill2 + retryFill }
  }

  /** No opening order was sent in between. */
  predicate SameButUnwound(before: VenueTruth, after: VenueTruth) {
    after == before.(unwound := after.unwound) && after.unwound >= before.unwound
  }

  const UNTOUCHED := VenueTruth(0, 0.0, 0, 0.0, 0.0, 0.0, false)

  // ----- the durable world

  /** One live_sessions row. `payload` is the journaled session. */
  datatype Row = Row(payload: Session, hasExposure: bool, terminal: bool)

  /** One live_positions row with its recorded fills. */
  datatype Position = Position(state: ExecState, leg1: Option<Fill>, leg2: Option<Fill>)

  /** Everything that survives a crash, and two notes of history: the session whose row
      cleanup finished, and the session from which a recovery stored its verdict. */
  datatype World = World(
    row: Row,
    position: Option<Position>,
    venue: VenueTruth,
    finishedFrom: Option<Session>,
    judgedFrom: Option<Session>,
    blocked: bool)

  /** A recovery from such a session does not look at leg 2, which the session holds. */
  predicate BlindToLeg2(s: Session) {
    s.state == Recovering && FillAmount(s.leg2Fill) > DUST
  }

  /** Cleanup finished the row of a session that had sent orders and been judged. */
  predicate FinishedJudged(w: World) {
    w.finishedFrom.Some? && w.finishedFrom.value.state != AwaitingLeg1Signs
  }

  /** The stored verdict is failed, from a recovery that did not look at leg 2. */
  predicate FailedBlind(w: World) {
    && w.position.Some? && w.position.value.state == ExecFailed
    && w.judgedFrom.Some? && BlindToLeg2(w.judgedFrom.value)
  }

  predicate Flat(w: World) {
    w.venue.Held1() <= Tolerance(w.row.payload.leg1Amount) && w.venue.Held2() <= DUST
  }

  // ----- what must hold at every point

  /** An unwind is only ever sent while leg 2 is not a hedge within the band. */
  predicate MayUnwind(v: VenueTruth) {
    v.Held2() < 0.95 * v.fill1 || v.Held2() <= DUST
  }

  predicate VenueOk(v: VenueTruth, amount: real) {
    && 0.0 <= v.unwound <= v.fill1 <= amount
    && 0.0 <= v.fill2 && 0.0 <= v.retryFill && v.Held2() <= v.fill1
    && v.sent1 <= 1 && v.sent2 <= 2
    && (v.sent1 == 0 ==> v.fill1 == 0.0 && v.sent2 == 0)
    && (v.sent2 == 0 ==> v.fill2 == 0.0)
    && (v.sent2 <= 1 ==> v.retryFill == 0.0)
    && (v.sent2 == 2 ==> v.leg2Settled)
    && (v.unwound > 0.0 ==> MayUnwind(v))
  }

  predicate ExactFill(fill: Option<Fill>, amount: real) {
    fill.Some? ==> fill.value.amount == amount && (fill.value.filled <==> amount > 0.0)
  }

  /** Leg 1 is known, hedgeable and matches the venue. */
  predicate Leg1Known(s: Session, v: VenueTruth) {
    && s.leg1Fill.Some? && ExactFill(s.leg1Fill, v.fill1)
    && v.fill1 >= MIN_HEDGEABLE_FILL_PCT * s.leg1Amount
  }

  predicate Leg2NotYetSent(s: Session, v: VenueTruth) {
    v.sent2 == 0 && s.leg2Attempts == 0 && s.leg2Fill.None?
  }

  predicate FirstHedgeKnown(s: Session, v: VenueTruth) {
    && ExactFill(s.leg2Fill, v.fill2)
    && (s.leg2Fill.None? ==> v.fill2 == 0.0)
    && (s.leg2Fill.Some? ==> s.leg2Fill.value.orderId == LEG2_ORDER)
    && v.fill2 < 0.95 * v.fill1
    && v.leg2Settled
  }

  /** The recorded leg-2 fill of a session on its second attempt: the first fill, or both merged. */
  predicate SecondHedgeKnown(s: Session, v: VenueTruth) {
    && v.fill2 < 0.95 * v.fill1
    && v.leg2Settled
    && match s.leg2Fill
       case None => v.fill2 == 0.0
       case Some(f) =>
         || (ExactFill(s.leg2Fill, v.fill2) && f.orderId == LEG2_ORDER)
         || (ExactFill(s.leg2Fill, v.Held2()) && f.orderId == RETRY_ORDER)
  }

  /** What a session knows agrees with the venue, state by state. */
  predicate Fits(s: Session, v: VenueTruth) {
    && s.leg1Amount > 0.0
    && VenueOk(v, s.leg1Amount)
    && (!(s.state.AwaitingLeg1Signs? || s.state.Open? || s.state.Degraded? || s.state.Aborted? || s.state.Failed?) ==>
       s.armedUnwind == Some(s.leg1Amount))
    && match s.state
       case AwaitingLeg1Signs | ConfiguringLeverage =>
         v.sent1 == 0 && s.leg1Fill.None? && Leg2NotYetSent(s, v)
       case Leg1Submitting | Leg1Submitted =>
         Leg2NotYetSent(s, v) && ExactFill(s.leg1Fill, v.fill1)
       case AwaitingLeg2Sign =>
         && Leg1Known(s, v) && Leg2NotYetSent(s, v)
         && s.leg2Open.Some? && 0.0 <= s.leg2Open.value <= v.fill1
       case AwaitingLeg2RetrySign =>
         && Leg1Known(s, v) && v.sent2 == 1 && s.leg2Attempts == 1 && FirstHedgeKnown(s, v)
         && s.leg2Retry.Some? && 0.0 <= s.leg2Retry.value <= v.fill1 - v.fill2
       case Leg2Submitting | Leg2Submitted =>
         && Leg1Known(s, v)
         && (s.leg2Attempts == 1 || s.leg2Attempts == 2)
         && (s.leg2Attempts == 1 ==>
               v.sent2 <= 1 && ExactFill(s.leg2Fill, v.fill2)
               && (s.leg2Fill.Some? ==> s.leg2Fill.value.orderId == LEG2_ORDER))
         && (s.leg2Attempts == 2 ==>
               v.sent2 >= 1 && s.leg2Retry.Some? && SecondHedgeKnown(s, v))
       case Recovering =>
         && MayUnwind(v)
         && (s.leg1Fill.None? ==> v.Held1() <= DUST)
         && (s.leg1Fill.Some? ==> s.leg1Fill.value.filled && DUST < s.leg1Fill.value.amount <= s.leg1Amount
                                  && v.Held1() <= s.leg1Fill.value.amount)
         && v.Held2() == FillAmount(s.leg2Fill)
       case Open | Degraded | Aborted | Failed => true
  }

  /** The recorded fills and the venue are both a hedge: leg 1 at least half of its
      target and untouched, leg 2 within 5% of leg 1. */
  predicate HedgeOpen(p: Position, v: VenueTruth, amount: real) {
    && p.leg1.Some? && p.leg2.Some?
    && p.leg1.value.amount == v.fill1 == v.Held1()
    && v.fill1 >= MIN_HEDGEABLE_FILL_PCT * amount
    && Within5Pct(p.leg1.value.amount, p.leg2.value.amount)
    && Within5Pct(v.Held1(), v.Held2())
  }

  predicate Within5Pct(leg1: real, leg2: real) {
    0.95 * leg1 <= leg2 <= 1.05 * leg1
  }

  predicate Journaled(state: SessionState) {
    !(state.Recovering? || state.Open? || state.Degraded? || state.Aborted? || state.Failed?)
  }

  /** A restart from `w` is safe: the invariant of every store or venue call. */
  predicate CrashSafe(w: World) {
    var s := w.row.payload;
    && s.leg1Amount > 0.0
    && VenueOk(w.venue, s.leg1Amount)
    && Journaled(s.state)
    && w.row.hasExposure == HasPossibleExposure(s.state)
    && ((s.state.AwaitingLeg1Signs? || s.state.ConfiguringLeverage?) ==> w.venue.sent1 == 0 && w.position.None?)
    && (!w.row.terminal && w.position.None? ==> Fits(s, w.venue))
    && (w.row.terminal && w.position.None? && !FinishedJudged(w) ==> w.venue.sent1 == 0)
    && (w.finishedFrom.Some? ==> w.row.terminal && w.position.None?)
    && (w.judgedFrom.Some? ==> w.position.Some?)
    && (w.position.Some? ==>
          match w.position.value.state
          case ExecOpen => HedgeOpen(w.position.value, w.venue, s.leg1Amount)
          case ExecDegraded => true
          case ExecFailed => if FailedBlind(w) then w.venue.Held2() > DUST else Flat(w))
  }

  /** Every point of a run is safe to restart from. */
  predicate AllSafe(visited: set<World>) {
    forall w :: w in visited ==> CrashSafe(w)
  }

  // ----- store and venue calls keep the world safe to restart from

  function Journal(w: World, s: Session): World {
    w.(row := Row(s, HasPossibleExposure(s.state), false))
  }

  function Finish(w: World): World {
    w.(row := w.row.(terminal := true))
  }

  /** `from`: the session a recovery started from, or none when an advance stores the result. */
  function StoreResult(w: World, p: Position, from: Option<Session>): World {
    w.(position := Some(p), judgedFrom := from)
  }

  function Unwind(w: World, filled: real): World {
    w.(venue := w.venue.(unwound := w.venue.unwound + filled))
  }

  predicate Active(w: World) {
    !w.row.terminal && w.position.None?
  }

  /** The journaled session may have left an order at a venue. */
  predicate PastLeverage(w: World) {
    !(w.row.payload.state.AwaitingLeg1Signs? || w.row.payload.state.ConfiguringLeverage?)
  }

  lemma JournalIsSafe(w: World, s: Session)
    requires CrashSafe(w) && Active(w) && Journaled(s.state)
    requires Fits(s, w.venue)
    ensures CrashSafe(Journal(w, s))
  {
  }

  lemma FinishIsSafe(w: World)
    requires CrashSafe(w) && (w.position.Some? || w.venue.sent1 == 0 || w.row.terminal)
    ensures CrashSafe(Finish(w))
  {
  }

  /** Leg 1 is journaled as being submitted and has not left. */
  predicate ReadyForLeg1(w: World) {
    && Active(w) && w.row.payload.state == Leg1Submitting
    && w.row.payload.leg1Fill.None? && w.venue.sent1 == 0
  }

  function SendLeg1(w: World, executed: real): World {
    w.(venue := w.venue.(sent1 := w.venue.sent1 + 1, fill1 := executed))
  }

  lemma SendLeg1IsSafe(w: World, executed: real)
    requires CrashSafe(w) && ReadyForLeg1(w) && 0.0 <= executed <= w.row.payload.leg1Amount
    ensures CrashSafe(SendLeg1(w, executed))
  {
  }

  /** The hedge, or its retry after a definite first outcome, is journaled and has not left. */
  predicate ReadyForLeg2(w: World) {
    var s := w.row.payload;
    && Active(w) && s.state == Leg2Submitting && w.venue.unwound == 0.0
    && if s.leg2Attempts == 1 then
         w.venue.sent2 == 0 && s.leg2Fill.None? && s.leg2Open.Some? && 0.0 <= s.leg2Open.value <= w.venue.fill1
       else
         && s.leg2Attempts == 2 && w.venue.sent2 == 1 && w.venue.leg2Settled
         && s.leg2Retry.Some? && 0.0 <= s.leg2Retry.value <= w.venue.fill1 - w.venue.fill2
         && (s.leg2Fill.Some? ==> s.leg2Fill.value.orderId == LEG2_ORDER)
  }

  function HedgeOrder(w: World): real
    requires ReadyForLeg2(w)
  {
    if w.row.payload.leg2Attempts == 1 then w.row.payload.leg2Open.value else w.row.payload.leg2Retry.value
  }

  function SendLeg2(w: World, executed: real): World {
    if w.row.payload.leg2Attempts == 1
    then w.(venue := w.venue.(sent2 := w.venue.sent2 + 1, fill2 := executed))
    else w.(venue := w.venue.(sent2 := w.venue.sent2 + 1, retryFill := executed))
  }

  lemma SendLeg2IsSafe(w: World, executed: real)
    requires CrashSafe(w) && ReadyForLeg2(w) && 0.0 <= executed <= HedgeOrder(w)
    ensures CrashSafe(SendLeg2(w, executed))
  {
  }

  function SettleLeg2(w: World): World {
    w.(venue := w.venue.(leg2Settled := true))
  }

  lemma SettleLeg2KeepsFits(s: Session, v: VenueTruth)
    requires Fits(s, v)
    ensures Fits(s, v.(leg2Settled := true))
  {
  }

  lemma SettleLeg2IsSafe(w: World)
    requires CrashSafe(w) && Active(w)
    ensures CrashSafe(SettleLeg2(w))
  {
    SettleLeg2KeepsFits(w.row.payload, w.venue);
  }

  predicate Storable(w: World, p: Position, from: Option<Session>) {
    match p.state
    case ExecOpen => HedgeOpen(p, w.venue, w.row.payload.leg1Amount)
    case ExecDegraded => true
    case ExecFailed => if from.Some? && BlindToLeg2(from.value) then w.venue.Held2() > DUST else Flat(w)
  }

  /** A verdict other than open only has to be right when it is failed. */
  lemma NotOpenIsStorable(w: World, p: Position, from: Option<Session>)
    requires p.state == ExecDegraded
             || (p.state == ExecFailed
                 && if from.Some? && BlindToLeg2(from.value) then w.venue.Held2() > DUST else Flat(w))
    ensures Storable(w, p, from)
  {
  }

  lemma StoreIsSafe(w: World, p: Position, from: Option<Session>)
    requires CrashSafe(w) && Active(w) && PastLeverage(w) && Storable(w, p, from)
    ensures CrashSafe(StoreResult(w, p, from))
  {
  }

  lemma UnwindIsSafe(w: World, filled: real)
    requires CrashSafe(w) && w.position.None? && MayUnwind(w.venue) && 0.0 <= filled <= w.venue.Held1()
    ensures CrashSafe(Unwind(w, filled))
  {
    if !w.row.terminal {
      UnwindKeepsFits(w.row.payload, w.venue, filled);
    }
  }

  // ----- the promises, and that CrashSafe gives them

  /** Exposure on a venue is always on record: an active row flagged as exposed, or
      a position stored as open or degraded. */
  predicate ExposureRecorded(w: World) {
    Flat(w)
    || (!w.row.terminal && w.row.hasExposure)
    || (w.position.Some? && (w.position.value.state.ExecOpen? || w.position.value.state.ExecDegraded?))
  }

  /** A position stored as failed (sessions that end failed or aborted) left both legs flat. */
  predicate FailedIsFlat(w: World) {
    w.position.Some? && w.position.value.state == ExecFailed ==> Flat(w)
  }

  predicate OrdersBounded(v: VenueTruth) {
    v.sent1 <= 1 && v.sent2 <= 2 && (v.sent2 == 2 ==> v.leg2Settled)
  }

  predicate OpenIsHedged(w: World) {
    w.position.Some? && w.position.value.state == ExecOpen ==>
      HedgeOpen(w.position.value, w.venue, w.row.payload.leg1Amount)
  }

  /** Exposure is on record exactly when nothing is held, or cleanup did not finish the row
      of a judged session and no finished row carries a failed verdict blind to leg 2. */
  lemma ExposureRecordedExactly(w: World)
    requires CrashSafe(w)
    ensures ExposureRecorded(w) <==> Flat(w) || !(FinishedJudged(w) || (FailedBlind(w) && w.row.terminal))
  {
    if !w.row.terminal && !w.row.hasExposure {
      assert w.row.payload.state == AwaitingLeg1Signs;
    }
  }

  /** A failed verdict is right exactly when no recovery blind to leg 2 gave it. */
  lemma FailedVerdictExactly(w: World)
    requires CrashSafe(w)
    ensures FailedIsFlat(w) <==> !FailedBlind(w)
  {
  }

  lemma BlindIsNotFlat(w: World)
    requires CrashSafe(w)
    ensures FailedBlind(w) ==> !Flat(w)
    ensures FinishedJudged(w) ==> w.row.terminal && w.position.None?
  {
  }

  lemma OpenHedgeSize(w: World)
    requires CrashSafe(w) && w.position.Some? && w.position.value.state == ExecOpen
    ensures w.venue.Held1() >= 0.5 * w.row.payload.leg1Amount
    ensures 0.475 * w.row.payload.leg1Amount <= w.venue.Held2() <= w.venue.Held1()
    ensures OrdersBounded(w.venue)
  {
  }

  // ----- arithmetic of the decisions

  lemma QuotientAtMost(d: real, leg1: real, c: real)
    requires leg1 > 0.0
    ensures d / leg1 <= c <==> d <= c * leg1
  {
    var q := d / leg1;
    assert d == q * leg1;
    if q <= c {
      assert 0.0 <= (c - q) * leg1;
    } else {
      assert 0.0 < (q - c) * leg1;
    }
  }

  lemma MismatchIsBand(leg1: real, leg2: real)
    ensures HedgeMismatch(leg1, leg2) <= MAX_HEDGE_MISMATCH_PCT <==> leg1 > 0.0 && Within5Pct(leg1, leg2)
  {
    if leg1 > 0.0 {
      QuotientAtMost(Abs(leg2 - leg1), leg1, 0.05);
    }
  }

  lemma RatioIsHalf(filled: real, target: real)
    requires target > 0.0
    ensures filled / target < MIN_HEDGEABLE_FILL_PCT <==> filled < MIN_HEDGEABLE_FILL_PCT * target
  {
    var q := filled / target;
    assert filled == q * target;
    if q < 0.5 { assert q * target < 0.5 * target; }
    if q >= 0.5 { assert q * target >= 0.5 * target; }
  }

  /** A confirmed unwind leaves leg 1 flat, also when its fill was never learned:
      then the whole armed amount had to fill. */
  lemma ConfirmedUnwindIsFlat(s: Session, v: VenueTruth, filled: real)
    requires s.leg1Amount > 0.0 && s.armedUnwind == Some(s.leg1Amount)
    requires VenueOk(v, s.leg1Amount) && 0.0 <= filled <= v.Held1()
    requires s.leg1Fill.Some? && s.leg1Fill.value.amount > 0.0 ==>
               v.Held1() <= s.leg1Fill.value.amount <= s.leg1Amount
    requires UnwindFullyFilled(UnwindTarget(s), filled)
    ensures v.Held1() - filled <= Tolerance(s.leg1Amount)
  {
  }

  /** Recording more unwound amount keeps every session copy in agreement with the venue. */
  lemma UnwindKeepsFits(s: Session, v: VenueTruth, filled: real)
    requires Fits(s, v) && MayUnwind(v) && 0.0 <= filled <= v.Held1()
    ensures Fits(s, v.(unwound := v.unwound + filled))
  {
  }

  /** Why a returned fill must be final: a hedge that timed out before all its fills were seen
      is retried for what seemed open. Retry filled, the position is stored as open; it is a
      hedge exactly when no more than 5% of leg 1 had gone unseen. */
  lemma ShortReportOverhedges(leg1: real, executed: real, reported: real)
    requires 0.0 < reported < 0.95 * leg1 && reported <= executed <= leg1
    ensures var seen := Fill(reported, true, true, LEG2_ORDER);
            var retried := Fill(leg1 - reported, true, false, RETRY_ORDER);
            var merged := MergeFills(Some(seen), Some(retried));
            && HedgeMismatch(leg1, reported) > MAX_HEDGE_MISMATCH_PCT && RetryableLeg2Fill(seen, leg1)
            && merged.Some? && merged.value.filled
            && HedgeMismatch(leg1, merged.value.amount) <= MAX_HEDGE_MISMATCH_PCT
            && (Within5Pct(leg1, executed + retried.amount) <==> executed - reported <= 0.05 * leg1)
  {
    MismatchIsBand(leg1, reported);
    MismatchIsBand(leg1, leg1);
  }

  /** What is left of a fill after an unwind: nothing up to 1e-9, else the difference, as a final fill
      of the same order. */
  lemma RemainingExactly(fill: Option<Fill>, unwound: real)
    ensures var rest := RemainingFillAfterUnwind(fill, unwound);
            && (rest.None? <==> fill.None? || fill.value.amount - unwound <= 0.000000001)
            && (rest.Some? ==>
                  && rest.value.amount == fill.value.amount - unwound && rest.value.filled && !rest.value.timedOut
                  && rest.value.orderId == fill.value.orderId)
  {
  }

  /** A recovery takes the sizes it found for fills it does not know, and leaves what it knows alone. */
  lemma OnlyUnknownFillsTaken(s: Session, leg1Amount: real, leg2Amount: real)
    ensures var f := EnsureRecoveryFills(s, leg1Amount, leg2Amount);
            && f == s.(leg1Fill := f.leg1Fill, leg2Fill := f.leg2Fill)
            && (s.leg1Fill.Some? || leg1Amount <= 0.0 ==> f.leg1Fill == s.leg1Fill)
            && (s.leg2Fill.Some? || leg2Amount <= 0.0 ==> f.leg2Fill == s.leg2Fill)
            && (s.leg1Fill.None? && leg1Amount > 0.0 ==>
                  FillPresent(f.leg1Fill) && FillAmount(f.leg1Fill) == leg1Amount)
            && (s.leg2Fill.None? && leg2Amount > 0.0 ==>
                  FillPresent(f.leg2Fill) && FillAmount(f.leg2Fill) == leg2Amount)
  {
  }

  /** A fill is present exactly when it was marked as filled, with a positive amount; an order is fully
      filled up to a relative and an absolute 1e-9. */
  lemma FilledExactly(fill: Fill, requested: real, filled: real)
    ensures FillPresent(Some(fill)) <==> fill.filled && fill.amount > 0.0
    ensures UnwindFullyFilled(requested, filled) <==>
              requested > 0.0 && (filled >= requested - 0.000000001 || filled >= requested - requested * 0.000000001)
  {
  }

  /** Before its leg-1 signatures and once judged a session has no possible exposure, in every other
      state it has; leg 2 may be held once its order may have left. */
  lemma ExposedStates(state: SessionState)
    ensures !HasPossibleExposure(state) <==> state in {AwaitingLeg1Signs, Open, Degraded, Aborted, Failed}
    ensures NeedLeg2(state) <==> state in {AwaitingLeg2RetrySign, Leg2Submitting, Leg2Submitted}
  {
  }

  // ----- the steps of a session keep it in agreement with the venue

  lemma SafeFacts(w: World)
    requires CrashSafe(w)
    ensures VenueOk(w.venue, w.row.payload.leg1Amount)
    ensures Journaled(w.row.payload.state) && w.row.hasExposure == HasPossibleExposure(w.row.payload.state)
    ensures !PastLeverage(w) ==> w.venue.sent1 == 0 && w.position.None?
    ensures Active(w) ==> Fits(w.row.payload, w.venue) && w.finishedFrom.None? && w.judgedFrom.None?
  {
  }

  lemma ArmedFits(s: Session, v: VenueTruth)
    requires Fits(s, v) && s.state == AwaitingLeg1Signs
    ensures v.sent1 == 0 && v.sent2 == 0 && s.leg1Fill.None?
    ensures Fits(s.(armedUnwind := Some(s.leg1Amount), state := ConfiguringLeverage), v)
    ensures Fits(s.(armedUnwind := Some(s.leg1Amount), state := Leg1Submitting), v)
  {
  }

  lemma LeverageKeepsFits(s: Session, v: VenueTruth, n: nat)
    requires Fits(s, v)
    ensures Fits(s.(leverageSet := n), v)
  {
  }

  function Leg1Sent(v: VenueTruth, executed: real): VenueTruth {
    v.(sent1 := 1, fill1 := executed)
  }

  function Leg1Filled(s: Session, executed: real, reply: OrderReply): Session {
    s.(state := Leg1Submitted, leg1Fill := Some(ReportedFill(executed, reply, 0)))
  }

  /** Leg 1 has left and executed `executed`. */
  lemma Leg1SentFits(s: Session, v: VenueTruth, executed: real, reply: OrderReply)
    requires Fits(s, v) && s.state == Leg1Submitting && v.sent1 == 0 && s.leg1Fill.None?
    requires 0.0 <= executed <= s.leg1Amount
    ensures Fits(s, Leg1Sent(v, executed)) && Fits(s.(state := Leg1Submitted), Leg1Sent(v, executed))
    ensures Fits(Leg1Filled(s, executed, reply), Leg1Sent(v, executed))
  {
  }

  lemma Leg1SentFacts(w: World, executed: real)
    requires ReadyForLeg1(w) && VenueOk(w.venue, w.row.payload.leg1Amount)
    ensures var w' := SendLeg1(w, executed);
            && w'.venue == Leg1Sent(w.venue, executed) && w' == w.(venue := w'.venue) && Active(w') && PastLeverage(w')
            && w'.venue.fill1 == executed && w'.venue.unwound == 0.0 && w'.venue.sent1 == 1 && w'.venue.sent2 == 0
            && (executed == 0.0 ==> w'.venue.Held1() == w'.venue.Held2() == 0.0)
  {
  }

  lemma NothingHeldIsFlat(w: World)
    requires w.venue.Held1() <= DUST && w.venue.Held2() <= DUST
    ensures Flat(w)
  {
  }

  lemma AwaitingHedgeFits(s: Session, v: VenueTruth, hedge: real)
    requires Fits(s, v) && s.state == Leg1Submitted && s.leg1Fill.Some?
    requires v.fill1 >= MIN_HEDGEABLE_FILL_PCT * s.leg1Amount && 0.0 <= hedge <= v.fill1
    ensures Fits(s.(leg2Open := Some(hedge), state := AwaitingLeg2Sign), v)
  {
  }

  /** What the armed unwind fills: at most what is armed, and reduce-only. */
  function UnwindExecuted(s: Session, v: VenueTruth, reply: OrderReply): real {
    if s.armedUnwind.None? then 0.0
    else Executed(Max(0.0, Min(s.armedUnwind.value, v.Held1())), reply)
  }

  predicate UnwindConfirms(s: Session, v: VenueTruth, reply: OrderReply) {
    && s.armedUnwind.Some? && reply.kind.Accepted? && reply.confirmed
    && UnwindExecuted(s, v, reply) > 0.0 && UnwindFullyFilled(UnwindTarget(s), UnwindExecuted(s, v, reply))
  }

  /** An unwind must fill the known fill, or all that is armed when none is known; the venue fills what it
      will of the armed amount and of what is held, whichever is less. It is confirmed exactly when it
      was accepted and a fill was seen that reaches the target up to the tolerance. */
  lemma UnwindAims(s: Session, v: VenueTruth, reply: OrderReply)
    requires s.armedUnwind.Some? && v.Held1() >= 0.0 && s.armedUnwind.value >= 0.0
    ensures UnwindTarget(s) == if FillAmount(s.leg1Fill) > 0.0 then FillAmount(s.leg1Fill) else s.armedUnwind.value
    ensures var size := if v.Held1() < s.armedUnwind.value then v.Held1() else s.armedUnwind.value;
            var filled := UnwindExecuted(s, v, reply);
            && (reply.kind.NotSent? || reply.kind.Rejected? ==> filled == 0.0)
            && (reply.kind.Ambiguous? || reply.kind.Accepted? ==>
                  && 0.0 <= filled <= size
                  && (reply.executed >= size ==> filled == size)
                  && (0.0 <= reply.executed <= size ==> filled == reply.executed))
    ensures UnwindConfirms(s, v, reply) <==>
              && reply.kind.Accepted? && reply.confirmed && UnwindExecuted(s, v, reply) > 0.0
              && UnwindTarget(s) > 0.0
              && UnwindTarget(s) - UnwindExecuted(s, v, reply) <= Max(DUST, UnwindTarget(s) * DUST)
  {
  }

  /** The same for leg 1: an unwind that fills what was seen of a leg 1 reported short is confirmed
      and stored as failed; it is flat exactly when no more than the tolerance had gone
      unseen. */
  lemma ShortReportLeavesLeg1(s: Session, w: World, seen: real, reply: OrderReply)
    requires s.leg1Amount > 0.0 && s.armedUnwind == Some(s.leg1Amount) && s.leg1Amount == w.row.payload.leg1Amount
    requires s.leg1Fill.Some? && s.leg1Fill.value.amount == seen && 0.0 < seen <= w.venue.Held1() <= s.leg1Amount
    requires w.venue.Held2() <= DUST
    requires reply == OrderReply(Accepted, seen, true, false)
    ensures UnwindExecuted(s, w.venue, reply) == seen && UnwindConfirms(s, w.venue, reply)
    ensures Flat(Unwind(w, seen)) <==> w.venue.Held1() - seen <= Tolerance(s.leg1Amount)
  {
    assert Min(s.leg1Amount, w.venue.Held1()) == w.venue.Held1();
  }

  /** What an unwind relies on: the armed amount is the whole leg-1 order, a known
      fill bounds what is held, and leg 2 is no hedge. */
  predicate UnwindReady(s: Session, w: World) {
    && s.leg1Amount > 0.0 && s.leg1Amount == w.row.payload.leg1Amount && s.armedUnwind == Some(s.leg1Amount)
    && MayUnwind(w.venue)
    && (s.leg1Fill.Some? && s.leg1Fill.value.amount > 0.0 ==>
          w.venue.Held1() <= s.leg1Fill.value.amount <= s.leg1Amount)
  }

  lemma UnwindReadyFacts(s: Session, w: World)
    requires UnwindReady(s, w)
    ensures s.leg1Amount > 0.0 && s.leg1Amount == w.row.payload.leg1Amount && s.armedUnwind == Some(s.leg1Amount)
    ensures MayUnwind(w.venue)
  {
  }

  /** A confirmed unwind leaves leg 1 flat; any unwind leaves the rest of the venue alone. */
  lemma UnwindOutcome(s: Session, w: World, confirmed: bool, executed: real)
    requires UnwindReady(s, w) && VenueOk(w.venue, s.leg1Amount) && 0.0 <= executed <= w.venue.Held1()
    requires confirmed ==> UnwindFullyFilled(UnwindTarget(s), executed)
    ensures confirmed && w.venue.Held2() <= DUST ==> Flat(Unwind(w, executed))
    ensures SameButUnwound(w.venue, Unwind(w, executed).venue)
    ensures Unwind(w, executed).venue.Held2() == w.venue.Held2()
  {
    if confirmed {
      ConfirmedUnwindIsFlat(s, w.venue, executed);
    }
  }

  lemma Leg1FilledFacts(s: Session, filled: Session, w: World)
    requires Fits(filled, w.venue) && filled.state == Leg1Submitted && filled.leg1Fill.Some?
    requires s == filled.(leg1Fill := None) && s.leg1Amount == w.row.payload.leg1Amount
    requires w.venue.unwound == 0.0
    ensures UnwindReady(s, w) && UnwindReady(filled, w)
    ensures w.venue.sent2 == 0 && w.venue.Held2() == 0.0 && w.venue.fill1 >= 0.0
  {
  }

  lemma AwaitingHedgeFacts(s: Session, w: World)
    requires Fits(s, w.venue) && s.state == AwaitingLeg2Sign && s.leg1Amount == w.row.payload.leg1Amount
    ensures UnwindReady(s, w) && w.venue.sent2 == 0 && w.venue.Held2() == 0.0
    ensures s.leg1Fill.Some? && s.leg2Open.Some?
  {
  }

  lemma HedgeSubmittingFits(s: Session, v: VenueTruth)
    requires Fits(s, v) && s.state == AwaitingLeg2Sign
    ensures Fits(s.(leg2Attempts := 1, state := Leg2Submitting), v)
    ensures v.sent2 == 0 && s.leg2Fill.None? && s.leg2Open.Some? && 0.0 <= s.leg2Open.value <= v.fill1
  {
  }

  /** What is known of a session whose hedge was answered definitely. */
  predicate HedgeAnswered(s: Session, v: VenueTruth) {
    && VenueOk(v, s.leg1Amount) && Leg1Known(s, v) && s.armedUnwind == Some(s.leg1Amount)
    && v.sent2 >= 1 && v.leg2Settled && v.fill1 > 0.0
    && FillAmount(s.leg2Fill) == v.Held2()
  }

  /** The hedge has left and executed `executed`. */
  lemma HedgeSentFits(s: Session, v: VenueTruth, executed: real, reply: OrderReply)
    requires Fits(s, v) && s.state == Leg2Submitting && s.leg2Attempts == 1
    requires s.leg2Fill.None? && v.sent2 == 0 && v.unwound == 0.0 && 0.0 <= executed <= v.fill1
    ensures var v' := v.(sent2 := 1, fill2 := executed);
            var settled := v'.(leg2Settled := true);
            var filled := s.(state := Leg2Submitted, leg2Fill := Some(ReportedFill(executed, reply, LEG2_ORDER)));
            && Fits(s, v') && Fits(s.(state := Leg2Submitted), v') && Fits(filled, settled)
            && HedgeAnswered(filled, settled)
            && (executed < 0.95 * v.fill1 ==> FirstHedgeKnown(filled, settled))
            && (executed == 0.0 ==> HedgeAnswered(s, settled) && FirstHedgeKnown(s, settled))
  {
  }

  lemma RetryFacts(s: Session, v: VenueTruth)
    requires HedgeAnswered(s, v) && FirstHedgeKnown(s, v) && v.sent2 == 1
    ensures MayUnwind(v) && s.leg1Fill.Some? && s.leg1Fill.value.amount == v.fill1 && FillAmount(s.leg2Fill) == v.fill2
    ensures s.leg1Amount > 0.0
    ensures forall size :: HedgeAnswered(s.(leg2Retry := Some(size), state := AwaitingLeg2RetrySign), v)
  {
  }

  lemma RetryFits(s: Session, v: VenueTruth, retry: real)
    requires HedgeAnswered(s, v) && FirstHedgeKnown(s, v) && s.leg2Attempts == 1 && v.sent2 == 1
    requires 0.0 <= retry <= v.fill1 - v.fill2
    ensures Fits(s.(leg2Retry := Some(retry), state := AwaitingLeg2RetrySign), v)
  {
  }

  lemma AwaitingRetryFacts(s: Session, v: VenueTruth)
    requires Fits(s, v) && s.state == AwaitingLeg2RetrySign
    ensures HedgeAnswered(s, v) && MayUnwind(v) && s.leg1Fill.Some?
    ensures var submitting := s.(leg2Attempts := 2, state := Leg2Submitting);
            Fits(submitting, v) && HedgeAnswered(submitting, v)
    ensures v.sent2 == 1 && s.leg2Retry.Some? && 0.0 <= s.leg2Retry.value <= v.fill1 - v.fill2
    ensures s.leg2Fill.Some? ==> s.leg2Fill.value.orderId == LEG2_ORDER
  {
  }

  /** The retry has left and executed `executed`. */
  lemma RetrySentFits(s: Session, v: VenueTruth, executed: real, reply: OrderReply)
    requires Fits(s, v) && s.state == Leg2Submitting && s.leg2Attempts == 2 && v.sent2 == 1
    requires s.leg2Fill.Some? ==> s.leg2Fill.value.orderId == LEG2_ORDER
    requires v.unwound == 0.0 && 0.0 <= executed <= v.fill1 - v.fill2
    ensures var v' := v.(sent2 := 2, retryFill := executed);
            var submitted := s.(state := Leg2Submitted);
            var filled := submitted.(
              leg2Fill := MergeFills(s.leg2Fill, Some(ReportedFill(executed, reply, RETRY_ORDER))));
            && Fits(s, v') && Fits(submitted, v') && Fits(filled, v')
            && HedgeAnswered(filled, v') && filled.leg2Fill.Some?
            && (executed == 0.0 ==> HedgeAnswered(s, v') && MayUnwind(v'))
  {
  }

  /** A hedge within the band, not yet unwound, may be stored as open. */
  lemma HedgeWithinBand(s: Session, w: World)
    requires HedgeAnswered(s, w.venue) && w.venue.unwound == 0.0 && s.leg2Fill.Some?
    requires s.leg1Amount == w.row.payload.leg1Amount
    requires Within5Pct(s.leg1Fill.value.amount, s.leg2Fill.value.amount)
    ensures Storable(w, Position(ExecOpen, s.leg1Fill, s.leg2Fill), None)
  {
  }

  /** A hedge outside the band may be unwound. */
  lemma HedgeOutsideBand(s: Session, v: VenueTruth)
    requires HedgeAnswered(s, v) && !Within5Pct(s.leg1Fill.value.amount, FillAmount(s.leg2Fill))
    ensures MayUnwind(v) && v.Held2() < 0.95 * v.fill1
    ensures v.sent2 == 1 ==> v.fill2 < 0.95 * v.fill1
  {
  }

  lemma UnfilledIsOutside(s: Session, v: VenueTruth)
    requires HedgeAnswered(s, v) && s.leg2Fill.Some?
    requires !s.leg2Fill.value.filled || !Within5Pct(s.leg1Fill.value.amount, s.leg2Fill.value.amount)
    requires s.leg2Fill.value.filled <==> s.leg2Fill.value.amount > 0.0
    ensures !Within5Pct(s.leg1Fill.value.amount, FillAmount(s.leg2Fill))
  {
  }

  lemma HedgeNeverOverfills(s: Session, v: VenueTruth)
    requires HedgeAnswered(s, v)
    ensures FillAmount(s.leg2Fill) <= FillAmount(s.leg1Fill)
    ensures s.armedUnwind == Some(s.leg1Amount) && s.leg1Fill.Some?
  {
  }

  /** The session as `recoverInvalidHedge` stores it: failed only when nothing is left. */
  function JudgedAfterUnwind(s: Session, reported: real): Session {
    var leg1 := RemainingFillAfterUnwind(s.leg1Fill, reported);
    s.(leg1Fill := leg1, state := if leg1.None? && s.leg2Fill.None? then Failed else Degraded)
  }

  /** After the unwind of an invalid hedge: what is stored as failed is flat, and the
      session that stays in memory still agrees with the venue. */
  lemma InvalidHedgeUnwound(s: Session, w: World, executed: real, reported: real)
    requires HedgeAnswered(s, w.venue) && MayUnwind(w.venue) && s.leg1Amount == w.row.payload.leg1Amount
    requires 0.0 <= reported <= executed <= w.venue.Held1()
    ensures var w' := Unwind(w, executed);
            var judged := JudgedAfterUnwind(s, reported);
            && Fits(judged.(state := Recovering), w'.venue) && SameButUnwound(w.venue, w'.venue)
            && (judged.state == Failed ==> Flat(w'))
            && (judged.state == Failed || judged.state == Degraded) && judged.leg1Amount == s.leg1Amount
            && judged.leg2Fill == s.leg2Fill && (judged.state == Failed <==> judged.leg1Fill.None? && s.leg2Fill.None?)
            && w' == w.(venue := w'.venue)
  {
  }

  lemma FreshFits(s: Session)
    requires s.state == AwaitingLeg1Signs && s.leg1Amount > 0.0
    requires s.leg1Fill.None? && s.leg2Fill.None? && s.leg2Attempts == 0
    ensures VenueOk(UNTOUCHED, s.leg1Amount) && Fits(s, UNTOUCHED)
  {
  }

  lemma FreshIsSafe(w: World)
    requires var s := w.row.payload;
             s.state == AwaitingLeg1Signs && s.leg1Amount > 0.0
             && s.leg1Fill.None? && s.leg2Fill.None? && s.leg2Attempts == 0
    requires !w.row.hasExposure && !w.row.terminal && w.position.None? && w.finishedFrom.None? && w.judgedFrom.None?
    requires w.venue == UNTOUCHED
    ensures Fits(w.row.payload, w.venue) && CrashSafe(w)
  {
    hide Fits, VenueOk;
    FreshFits(w.row.payload);
  }

  lemma JudgedFits(s: Session, v: VenueTruth)
    requires s.leg1Amount > 0.0 && VenueOk(v, s.leg1Amount)
    requires s.state.Open? || s.state.Degraded? || s.state.Aborted? || s.state.Failed?
    ensures Fits(s, v)
  {
  }

  /** What a recovery may rely on, whatever exposed state it starts from. */
  lemma RecoveryFacts(s: Session, w: World)
    requires Fits(s, w.venue) && HasPossibleExposure(s.state) && s.state != ConfiguringLeverage
    requires s.leg1Amount == w.row.payload.leg1Amount
    ensures VenueOk(w.venue, s.leg1Amount) && s.leg1Amount > 0.0 && s.armedUnwind == Some(s.leg1Amount)
    ensures w.venue.Held1() >= 0.0 && w.venue.Held2() >= 0.0
    ensures (NeedLeg2(s.state) && w.venue.Held2() > DUST) || UnwindReady(s, w)
    ensures !NeedLeg2(s.state) && s.state != Recovering ==> w.venue.Held2() == 0.0
    ensures s.state == Recovering ==> w.venue.Held2() == FillAmount(s.leg2Fill)
    ensures s.leg1Fill.Some? && !FillPresent(s.leg1Fill) ==> Flat(w)
  {
  }

  lemma RecoveredFillsReady(s: Session, w: World, leg1: real, leg2: real)
    requires UnwindReady(s, w) && VenueOk(w.venue, s.leg1Amount)
    requires s.leg1Fill.None? ==> leg1 == w.venue.Held1()
    ensures UnwindReady(EnsureRecoveryFills(s, leg1, leg2), w)
  {
  }

  /** Both legs exposed and both recorded fills and sizes within the band: leg 1 was
      never unwound, and the position is a hedge. */
  lemma ReconciledHedgeIsOpen(s: Session, w: World, from: Option<Session>)
    requires Fits(s, w.venue) && NeedLeg2(s.state) && s.leg1Amount == w.row.payload.leg1Amount
    requires w.venue.Held1() > DUST && w.venue.Held2() > DUST
    requires var f := EnsureRecoveryFills(s, w.venue.Held1(), w.venue.Held2());
             Within5Pct(FillAmount(f.leg1Fill), FillAmount(f.leg2Fill))
    requires Within5Pct(w.venue.Held1(), w.venue.Held2())
    ensures var f := EnsureRecoveryFills(s, w.venue.Held1(), w.venue.Held2());
            Storable(w, Position(ExecOpen, f.leg1Fill, f.leg2Fill), from)
  {
  }

  lemma SignedSizeFacts(side: Side, size: real)
    requires size >= 0.0
    ensures Abs(SignedSize(side, size)) == size
    ensures ExposureMatches(side, SignedSize(side, size)) <==> size > DUST
  {
  }

  /** Cleanup finishes the row of a session it believes never to have sent an order. */
  function FinishBy(w: World, s: Session): World {
    Finish(w.(finishedFrom := Some(s)))
  }

  lemma FinishSafeIsSafe(w: World, s: Session)
    requires CrashSafe(w) && w.position.None?
    requires Fits(s, w.venue)
    ensures CrashSafe(FinishBy(w, s))
  {
  }

  /** Cleanup loses exposure exactly when the session was judged and its orders left some. */
  lemma CleanupLosesExactly(w: World, s: Session)
    requires CrashSafe(w) && Active(w) && Fits(s, w.venue)
    ensures ExposureRecorded(w)
    ensures !ExposureRecorded(FinishBy(w, s)) <==> s.state != AwaitingLeg1Signs && !Flat(w)
  {
    ExposureRecordedExactly(w);
    FinishSafeIsSafe(w, s);
    ExposureRecordedExactly(FinishBy(w, s));
  }

  // ----- the protocol gets there

  function Fresh(s: Session): World {
    World(Row(s, false, false), None, UNTOUCHED, None, None, false)
  }

  function Hedging(s: Session, fill1: real, reply: OrderReply): Session {
    Leg1Filled(s.(armedUnwind := Some(s.leg1Amount)), fill1, reply).(
      leg2Open := Some(fill1), leg2Attempts := 1, state := Leg2Submitting)
  }

  /** Leg 1 may be sent from a fresh session, and any fill of at least half its target
      makes the hedge ready to be sent. */
  lemma AnyHedgeableFillIsHedged(s: Session, fill1: real, reply: OrderReply)
    requires s.state == AwaitingLeg1Signs && s.leg1Amount > 0.0
    requires s.leg1Fill.None? && s.leg2Fill.None? && s.leg2Attempts == 0
    requires 0.5 * s.leg1Amount <= fill1 <= s.leg1Amount
    ensures var w1 := Journal(Fresh(s), s.(armedUnwind := Some(s.leg1Amount), state := Leg1Submitting));
            var w2 := Journal(SendLeg1(w1, fill1), Hedging(s, fill1, reply));
            && CrashSafe(w1) && ReadyForLeg1(w1)
            && CrashSafe(w2) && ReadyForLeg2(w2) && HedgeOrder(w2) == fill1
            && w2.venue == VenueTruth(1, fill1, 0, 0.0, 0.0, 0.0, false)
  {
    hide CrashSafe, Fits;
    var w0 := Fresh(s);
    FreshIsSafe(w0);
    ArmedFits(s, w0.venue);
    var armed := s.(armedUnwind := Some(s.leg1Amount), state := Leg1Submitting);
    JournalIsSafe(w0, armed);
    var w1 := Journal(w0, armed);
    SendLeg1IsSafe(w1, fill1);
    Leg1SentFits(armed, w1.venue, fill1, reply);
    var filled := Leg1Filled(armed, fill1, reply);
    var sent := SendLeg1(w1, fill1);
    AwaitingHedgeFits(filled, sent.venue, fill1);
    HedgeSubmittingFits(filled.(leg2Open := Some(fill1), state := AwaitingLeg2Sign), sent.venue);
    JournalIsSafe(sent, Hedging(s, fill1, reply));
  }

  /** The session and the world once the hedge has been answered with a final fill. */
  function Hedged(s: Session, fill1: real, fill2: real, reply: OrderReply): Session {
    Hedging(s, fill1, reply).(state := Leg2Submitted, leg2Fill := Some(ReportedFill(fill2, reply, LEG2_ORDER)))
  }

  function HedgedWorld(s: Session, fill1: real, fill2: real, reply: OrderReply): World {
    var armed := s.(armedUnwind := Some(s.leg1Amount), state := Leg1Submitting);
    var hedging := Journal(SendLeg1(Journal(Fresh(s), armed), fill1), Hedging(s, fill1, reply));
    Journal(SettleLeg2(SendLeg2(hedging, fill2)), Hedged(s, fill1, fill2, reply))
  }

  /** Any fill of the hedge may be the answer. */
  lemma AnyHedgeIsAnswered(s: Session, fill1: real, fill2: real, reply: OrderReply)
    requires s.state == AwaitingLeg1Signs && s.leg1Amount > 0.0
    requires s.leg1Fill.None? && s.leg2Fill.None? && s.leg2Attempts == 0
    requires 0.5 * s.leg1Amount <= fill1 <= s.leg1Amount && 0.0 <= fill2 <= fill1
    ensures var w := HedgedWorld(s, fill1, fill2, reply);
            && CrashSafe(w) && Active(w) && PastLeverage(w)
            && w.row == Row(Hedged(s, fill1, fill2, reply), true, false)
            && w.venue == VenueTruth(1, fill1, 1, fill2, 0.0, 0.0, true)
            && HedgeAnswered(Hedged(s, fill1, fill2, reply), w.venue)
  {
    hide CrashSafe, Fits, HedgeAnswered;
    var armed := s.(armedUnwind := Some(s.leg1Amount), state := Leg1Submitting);
    var hedging := Journal(SendLeg1(Journal(Fresh(s), armed), fill1), Hedging(s, fill1, reply));
    AnyHedgeableFillIsHedged(s, fill1, reply);
    SafeFacts(hedging);
    SendLeg2IsSafe(hedging, fill2);
    SettleLeg2IsSafe(SendLeg2(hedging, fill2));
    HedgeSentFits(hedging.row.payload, hedging.venue, fill2, reply);
    JournalIsSafe(SettleLeg2(SendLeg2(hedging, fill2)), Hedged(s, fill1, fill2, reply));
  }

  /** An answer within 5% of leg 1 can be stored as open. */
  lemma AnyHedgeWithinBandOpens(s: Session, fill1: real, fill2: real, reply: OrderReply)
    requires s.state == AwaitingLeg1Signs && s.leg1Amount > 0.0
    requires s.leg1Fill.None? && s.leg2Fill.None? && s.leg2Attempts == 0
    requires 0.5 * s.leg1Amount <= fill1 <= s.leg1Amount && 0.95 * fill1 <= fill2 <= fill1
    ensures var w := HedgedWorld(s, fill1, fill2, reply);
            var p := Position(ExecOpen, w.row.payload.leg1Fill, w.row.payload.leg2Fill);
            CrashSafe(w) && Storable(w, p, None) && CrashSafe(StoreResult(w, p, None))
  {
    hide CrashSafe, Fits, HedgeAnswered, HedgedWorld;
    AnyHedgeIsAnswered(s, fill1, fill2, reply);
    var w := HedgedWorld(s, fill1, fill2, reply);
    HedgeWithinBand(w.row.payload, w);
    StoreIsSafe(w, Position(ExecOpen, w.row.payload.leg1Fill, w.row.payload.leg2Fill), None);
  }

  // ----- how the two exceptions come about, from a fresh session

  /** The session that stays in memory after an unwind of an invalid hedge could not be stored. */
  function LeftRecovering(s: Session, unwound: real): Session {
    JudgedAfterUnwind(s, unwound).(state := Recovering)
  }

  /** The hedge is answered outside the band, the unwind fills nothing, and its result is
      refused. The expired session is recovered; again the unwind fills nothing and the
      degraded result is refused. When that session expires, cleanup finishes its row, and
      no record is left of what both legs hold. */
  lemma CleanupDropsExposure(s: Session, fill1: real, fill2: real, reply: OrderReply)
    requires s.state == AwaitingLeg1Signs && s.leg1Amount > 0.0
    requires s.leg1Fill.None? && s.leg2Fill.None? && s.leg2Attempts == 0
    requires 0.5 * s.leg1Amount <= fill1 <= s.leg1Amount && DUST < fill2 < 0.95 * fill1
    ensures var w := HedgedWorld(s, fill1, fill2, reply);
            var recovering := LeftRecovering(w.row.payload, 0.0);
            var degraded := recovering.(
              leg1Fill := RemainingFillAfterUnwind(recovering.leg1Fill, 0.0), state := Degraded);
            && CrashSafe(w) && Fits(recovering, w.venue) && UnwindReady(recovering, w) && Fits(degraded, w.venue)
            && ExposureRecorded(w) && !ExposureRecorded(FinishBy(w, degraded)) && CrashSafe(FinishBy(w, degraded))
  {
    hide CrashSafe, Fits, HedgeAnswered, HedgedWorld, UnwindReady, LeftRecovering, ExposureRecorded;
    AnyHedgeIsAnswered(s, fill1, fill2, reply);
    var w := HedgedWorld(s, fill1, fill2, reply);
    OutsideBandMayUnwind(w.row.payload, w.venue);
    InvalidHedgeLeft(w.row.payload, w, 0.0);
    var recovering := LeftRecovering(w.row.payload, 0.0);
    RecoveryFacts(recovering, w);
    var degraded := recovering.(leg1Fill := RemainingFillAfterUnwind(recovering.leg1Fill, 0.0), state := Degraded);
    JudgedFits(degraded, w.venue);
    CleanupLosesExactly(w, degraded);
    FinishSafeIsSafe(w, degraded);
  }

  /** The hedge is answered outside the band and leg 1 is unwound, but the degraded result is
      refused. The expired session is recovered in state recovering, without a look at
      leg 2, which is still held: it is stored as failed, and once finished off the record. */
  lemma RecoveringForgetsLeg2(s: Session, fill1: real, fill2: real, reply: OrderReply)
    requires s.state == AwaitingLeg1Signs && s.leg1Amount > 0.0
    requires s.leg1Fill.None? && s.leg2Fill.None? && s.leg2Attempts == 0
    requires 0.5 * s.leg1Amount <= fill1 <= s.leg1Amount && DUST < fill2 < 0.95 * fill1
    ensures var w := Unwind(HedgedWorld(s, fill1, fill2, reply), fill1);
            var recovering := LeftRecovering(w.row.payload, fill1);
            var stored := StoreResult(w, Position(ExecFailed, None, None), Some(recovering));
            && CrashSafe(w) && Fits(recovering, w.venue) && !NeedLeg2(recovering.state)
            && !ExposureMatches(s.side1, SignedSize(s.side1, w.venue.Held1()))
            && BlindToLeg2(recovering) && Storable(w, Position(ExecFailed, None, None), Some(recovering))
            && CrashSafe(stored) && !FailedIsFlat(stored) && !ExposureRecorded(Finish(stored))
  {
    hide CrashSafe, Fits, HedgeAnswered, HedgedWorld, LeftRecovering, ExposureRecorded, FailedIsFlat, Flat;
    AnyHedgeIsAnswered(s, fill1, fill2, reply);
    var before := HedgedWorld(s, fill1, fill2, reply);
    OutsideBandMayUnwind(before.row.payload, before.venue);
    UnwindIsSafe(before, fill1);
    InvalidHedgeLeft(before.row.payload, before, fill1);
    var w := Unwind(before, fill1);
    var recovering := LeftRecovering(w.row.payload, fill1);
    SignedSizeFacts(s.side1, w.venue.Held1());
    LeftHoldsHedge(w.row.payload, fill1);
    var p := Position(ExecFailed, None, None);
    StoreIsSafe(w, p, Some(recovering));
    var stored := StoreResult(w, p, Some(recovering));
    FailedVerdictExactly(stored);
    FinishIsSafe(stored);
    ExposureRecordedExactly(Finish(stored));
    BlindIsNotFlat(Finish(stored));
  }

  lemma OutsideBandMayUnwind(s: Session, v: VenueTruth)
    requires HedgeAnswered(s, v) && v.Held2() < 0.95 * v.fill1
    ensures MayUnwind(v)
  {
  }

  lemma InvalidHedgeLeft(s: Session, w: World, unwound: real)
    requires HedgeAnswered(s, w.venue) && MayUnwind(w.venue) && s.leg1Amount == w.row.payload.leg1Amount
    requires 0.0 <= unwound <= w.venue.Held1()
    ensures Fits(LeftRecovering(s, unwound), Unwind(w, unwound).venue)
    ensures unwound == 0.0 ==> Fits(LeftRecovering(s, unwound), w.venue)
    ensures LeftRecovering(s, unwound).state == Recovering && LeftRecovering(s, unwound).leg1Amount == s.leg1Amount
  {
    hide Fits, HedgeAnswered;
    InvalidHedgeUnwound(s, w, unwound, unwound);
    if unwound == 0.0 {
      assert Unwind(w, unwound).venue == w.venue;
    }
  }

  lemma LeftHoldsHedge(s: Session, unwound: real)
    ensures LeftRecovering(s, unwound).leg2Fill == s.leg2Fill
  {
  }
}
