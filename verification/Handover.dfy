/** One live session among several servers: who holds a copy of it, who holds its lease,
    and what a copy that went stale may still do to the row.

    Every server restores an unexposed row into its own memory, so several may wait for the
    same leg-1 signatures. The one that takes the lease opens; the others keep stale copies
    until they expire. Times are whole seconds since the session was prepared. Each step is
    one statement of the store, with the claim before it, or a step of memory alone. `begun`
    and `sent` are history: the servers that journaled the session as opening, and those
    that sent its leg 1.
 */
module Handover {
  import opened Basics

  /** How long the leg-1 requests can be signed, a session lives and a lease lasts. */
  const SIGNING := 30
  const LIFE := 60
  const LEASE := 90

  /** `Waiting`: for the leg-1 signatures; `Opening`: journaled as exposed, leg 1 not yet sent;
      `Working`: sent here, or taken over for recovery. */
  datatype Copy = Waiting | Opening | Working

  datatype State = State(
    now: nat,
    owner: Option<nat>,
    leaseUntil: nat,
    exposed: bool,
    terminal: bool,
    judged: bool,
    copies: map<nat, Copy>,
    begun: seq<nat>,
    sent: seq<nat>)

  /** Prepared by `server`. */
  function Prepared(server: nat): State {
    State(0, None, 0, false, false, false, map[server := Waiting], [], [])
  }

  datatype Step =
    | Wait(time: nat)
    | Restore(server: nat)
    | Begin(server: nat)
    | SendLeg1(server: nat)
    | GiveUp(server: nat)
    | Decline(server: nat)
    | Cleanup(server: nat)
    | Renew(server: nat)
    | Judge(server: nat)
    | Drop(server: nat)
    | Supersede

  predicate Has(s: State, i: nat, copy: Copy) {
    i in s.copies && s.copies[i] == copy
  }

  /** A stale copy is cleaned up once its requests have expired: a session never put in
      memory by the restore loop, or one that outlived `LIFE`. */
  predicate Enabled(s: State, step: Step) {
    match step
    case Wait(_) => true
    case Restore(i) => i !in s.copies && !s.terminal
    case Begin(i) => Has(s, i, Waiting) && s.now <= SIGNING
    case SendLeg1(i) => Has(s, i, Opening) && s.now <= SIGNING
    case GiveUp(i) => Has(s, i, Opening)
    case Decline(i) => Has(s, i, Waiting)
    case Cleanup(i) => Has(s, i, Waiting) && s.now > SIGNING
    case Renew(i) => i in s.copies
    case Judge(i) => Has(s, i, Working)
    case Drop(i) => i in s.copies
    case Supersede => true
  }

  predicate Claimable(s: State, i: nat) {
    !s.terminal && (s.owner.None? || s.owner.value == i || s.leaseUntil < s.now)
  }

  function Claimed(s: State, i: nat): State {
    s.(owner := Some(i), leaseUntil := s.now + LEASE)
  }

  function Without(s: State, i: nat): State {
    s.(copies := s.copies - {i})
  }

  /** Finishes the row without a claim: its owner may, and anybody while it has none. */
  function FinishOwned(s: State, i: nat): State {
    if s.owner.None? || s.owner.value == i then s.(terminal := true) else s
  }

  function Restored(s: State, i: nat): State {
    if s.exposed then
      if Claimable(s, i) then Claimed(s, i).(copies := s.copies[i := Working]) else s
    else if s.now <= SIGNING then s.(copies := s.copies[i := Waiting])
    else if Claimable(s, i) then Claimed(s, i).(terminal := true)
    else s
  }

  function Next(s: State, step: Step): State {
    match step
    case Wait(time) => s.(now := s.now + time)
    case Restore(i) => Restored(s, i)
    case Begin(i) =>
      if Claimable(s, i)
      then Claimed(s, i).(exposed := true, copies := s.copies[i := Opening], begun := s.begun + [i])
      else Without(s, i)
    case SendLeg1(i) =>
      if Claimable(s, i) then Claimed(s, i).(copies := s.copies[i := Working], sent := s.sent + [i])
      else FinishOwned(Without(s, i), i)
    case GiveUp(i) => FinishOwned(Without(s, i), i)
    case Decline(i) => FinishOwned(Without(s, i), i)
    case Cleanup(i) =>
      if Claimable(s, i) then Claimed(Without(s, i), i).(terminal := true) else Without(s, i)
    case Renew(i) => if Claimable(s, i) then Claimed(s, i) else s
    case Judge(i) =>
      if Claimable(s, i) then Claimed(Without(s, i), i).(terminal := true, judged := true) else s
    case Drop(i) => Without(s, i)
    case Supersede => if s.exposed then s else s.(terminal := true)
  }

  predicate Possible(s: State, steps: seq<Step>)
    decreases |steps|
  {
    steps == [] || (Enabled(s, steps[0]) && Possible(Next(s, steps[0]), steps[1..]))
  }

  function Run(s: State, steps: seq<Step>): State
    decreases |steps|
  {
    if steps == [] then s else Run(Next(s, steps[0]), steps[1..])
  }

  // ----- what each step does

  /** A copy takes exactly the steps of its state, and only in time. */
  lemma EnabledExactly(s: State, i: nat)
    ensures Enabled(s, Restore(i)) <==> i !in s.copies && !s.terminal
    ensures Enabled(s, Renew(i)) <==> i in s.copies
    ensures Enabled(s, Drop(i)) <==> i in s.copies
    ensures Enabled(s, Decline(i)) <==> i in s.copies && s.copies[i].Waiting?
    ensures Enabled(s, Begin(i)) <==> i in s.copies && s.copies[i].Waiting? && s.now <= 30
    ensures Enabled(s, Cleanup(i)) <==> i in s.copies && s.copies[i].Waiting? && s.now > 30
    ensures Enabled(s, GiveUp(i)) <==> i in s.copies && s.copies[i].Opening?
    ensures Enabled(s, SendLeg1(i)) <==> i in s.copies && s.copies[i].Opening? && s.now <= 30
    ensures Enabled(s, Judge(i)) <==> i in s.copies && s.copies[i].Working?
    ensures Enabled(s, Supersede) && forall time :: Enabled(s, Wait(time))
  {
  }

  /** A step that claims takes the lease exactly when the row is active and nobody else's lease runs. */
  lemma LeaseTakenExactly(s: State, step: Step)
    requires Enabled(s, step)
    ensures var t := Next(s, step);
            var claims := match step
              case Begin(_) | SendLeg1(_) | Cleanup(_) | Renew(_) | Judge(_) => true
              case Restore(_) => s.exposed || s.now > 30
              case _ => false;
            if claims && !s.terminal && (s.owner.None? || s.owner == Some(step.server) || s.leaseUntil < s.now)
            then t.owner == Some(step.server) && t.leaseUntil == s.now + 90
            else t.owner == s.owner && t.leaseUntil == s.leaseUntil
  {
  }

  /** What becomes of the copies: others stay, and a server's own goes on only by what it was granted. */
  lemma CopiesMoveExactly(s: State, step: Step)
    requires Enabled(s, step) && !step.Wait? && !step.Supersede?
    ensures var t, i := Next(s, step), step.server;
            var granted := Claimable(s, i);
            && (forall j :: j != i ==> (j in t.copies <==> j in s.copies))
            && (forall j :: j != i && j in s.copies ==> t.copies[j] == s.copies[j])
            && match step
               case Restore(_) =>
                 if s.exposed then (if granted then Has(t, i, Working) else i !in t.copies)
                 else if s.now <= 30 then Has(t, i, Waiting) else i !in t.copies
               case Begin(_) => if granted then Has(t, i, Opening) else i !in t.copies
               case SendLeg1(_) => if granted then Has(t, i, Working) else i !in t.copies
               case Renew(_) => t.copies == s.copies
               case Judge(_) => if granted then i !in t.copies else t.copies == s.copies
               case _ => i !in t.copies
  {
  }

  /** What becomes of the row: it is exposed by beginning, and finished by a verdict, by a cleanup or
      late restore that is granted, by giving up or declining what is its own or nobody's, and,
      unexposed, by a new prepare. */
  lemma RowMovesExactly(s: State, step: Step)
    requires Enabled(s, step)
    ensures var t := Next(s, step);
            && t.now == s.now + (if step.Wait? then step.time else 0)
            && (t.exposed <==> s.exposed || (step.Begin? && Claimable(s, step.server)))
            && t.begun == s.begun + (if step.Begin? && Claimable(s, step.server) then [step.server] else [])
            && t.sent == s.sent + (if step.SendLeg1? && Claimable(s, step.server) then [step.server] else [])
            && (t.judged <==> s.judged || (step.Judge? && Claimable(s, step.server)))
            && (t.terminal <==>
                  || s.terminal
                  || match step
                     case Judge(i) => Claimable(s, i)
                     case Cleanup(i) => Claimable(s, i)
                     case Restore(i) => !s.exposed && s.now > 30 && Claimable(s, i)
                     case GiveUp(i) => s.owner.None? || s.owner == Some(i)
                     case Decline(i) => s.owner.None? || s.owner == Some(i)
                     case SendLeg1(i) => !Claimable(s, i) && (s.owner.None? || s.owner == Some(i))
                     case Supersede => !s.exposed
                     case _ => false)
  {
  }

  // ----- the invariant

  /** The one server that began keeps the lease for as long as anyone could still begin, and
      its own copy never waits again. */
  predicate BegunOk(s: State, b: nat) {
    && s.exposed && !Has(s, b, Waiting)
    && (!s.terminal ==> s.owner.Some? && s.leaseUntil >= LEASE && (s.now <= LEASE ==> s.owner.value == b))
  }

  predicate Inv(s: State) {
    && |s.begun| <= 1 && (s.sent == [] || s.sent == s.begun) && (s.judged ==> s.terminal)
    && (s.begun == [] ==> !s.exposed)
    && (s.begun != [] ==> BegunOk(s, s.begun[0]))
    && (forall i :: i in s.copies && s.copies[i] == Opening ==> s.begun == [i] && s.sent == [])
  }

  lemma BeginKeepsInv(s: State, i: nat)
    requires Inv(s) && Enabled(s, Begin(i))
    ensures Inv(Next(s, Begin(i)))
  {
    if Claimable(s, i) {
      assert s.begun == [];
      assert Next(s, Begin(i)).begun == [i];
    }
  }

  lemma SendKeepsInv(s: State, i: nat)
    requires Inv(s) && Enabled(s, SendLeg1(i))
    ensures Inv(Next(s, SendLeg1(i)))
  {
    assert s.begun == [i];
  }

  lemma RestoreKeepsInv(s: State, i: nat)
    requires Inv(s) && Enabled(s, Restore(i))
    ensures Inv(Next(s, Restore(i)))
  {
  }

  lemma StepKeepsInv(s: State, step: Step)
    requires Inv(s) && Enabled(s, step)
    ensures Inv(Next(s, step))
  {
    match step
    case Begin(i) => BeginKeepsInv(s, i);
    case SendLeg1(i) => SendKeepsInv(s, i);
    case Restore(i) => RestoreKeepsInv(s, i);
    case _ =>
  }

  lemma {:induction false} RunKeepsInv(s: State, steps: seq<Step>)
    requires Inv(s) && Possible(s, steps)
    ensures Inv(Run(s, steps))
    decreases |steps|
  {
    hide Inv, Enabled, Next;
    if steps != [] {
      StepKeepsInv(s, steps[0]);
      RunKeepsInv(Next(s, steps[0]), steps[1..]);
    }
  }

  /** Over every run of any number of servers, with crashes and takeovers, at most one of them
      begins to open the session, and leg 1 is sent at most once, by that one. */
  lemma OneServerOpens(server: nat, steps: seq<Step>)
    requires Possible(Prepared(server), steps)
    ensures var s := Run(Prepared(server), steps);
            |s.begun| <= 1 && (s.sent == [] || s.sent == s.begun)
  {
    RunKeepsInv(Prepared(server), steps);
  }

  /** Leg 1 leaves only under a lease that runs, and its sender keeps it for another 90 seconds. */
  lemma SenderHoldsLease(s: State, i: nat)
    requires Inv(s) && Enabled(s, SendLeg1(i)) && !s.terminal
    ensures s.owner == Some(i) && s.now <= s.leaseUntil
    ensures Next(s, SendLeg1(i)).sent == [i] && Next(s, SendLeg1(i)).leaseUntil == s.now + LEASE
    ensures forall j :: j != i ==> !Claimable(s, j)
  {
    assert s.begun == [i] && s.sent + [i] == [i];
  }

  // ----- exposure that is finished as if nothing had been sent

  /** The row is finished without a verdict although leg 1 was sent. */
  predicate Lost(s: State) {
    s.terminal && !s.judged && s.sent != []
  }

  /** A stale copy finishes the row: after the lease ran out, or after taking it over. */
  predicate Forgets(s: State, step: Step) {
    && s.sent != [] && !s.terminal
    && match step
       case Cleanup(i) => Claimable(s, i)
       case Decline(i) => s.owner == Some(i)
       case _ => false
  }

  lemma StepLosesExactly(s: State, step: Step)
    requires Inv(s) && Enabled(s, step)
    ensures Lost(Next(s, step)) <==> Lost(s) || Forgets(s, step)
  {
  }

  /** By a server that did not begin, and not before 90 seconds have passed. */
  lemma ForgetsOnlyLate(s: State, step: Step)
    requires Inv(s) && Enabled(s, step) && Forgets(s, step)
    ensures s.now > LEASE && Has(s, step.server, Waiting) && s.sent != [step.server]
  {
  }

  predicate ForgetsSomewhere(s: State, steps: seq<Step>)
    decreases |steps|
  {
    steps != [] && (Forgets(s, steps[0]) || ForgetsSomewhere(Next(s, steps[0]), steps[1..]))
  }

  /** Over every run, exposure is lost exactly when a stale copy finished the row. */
  lemma {:induction false} RunLosesExactly(s: State, steps: seq<Step>)
    requires Inv(s) && Possible(s, steps)
    ensures Lost(Run(s, steps)) <==> Lost(s) || ForgetsSomewhere(s, steps)
    decreases |steps|
  {
    hide Inv, Enabled, Next, Lost, Forgets;
    if steps != [] {
      StepKeepsInv(s, steps[0]);
      StepLosesExactly(s, steps[0]);
      RunLosesExactly(Next(s, steps[0]), steps[1..]);
    }
  }

  /** Stale copies act within 90 seconds, as they do when cleanup runs every 30. */
  predicate InTime(s: State, steps: seq<Step>)
    decreases |steps|
  {
    steps == [] ||
    ((steps[0].Cleanup? || steps[0].Decline? ==> s.now <= LEASE) && InTime(Next(s, steps[0]), steps[1..]))
  }

  lemma {:induction false} InTimeNeverForgets(s: State, steps: seq<Step>)
    requires Inv(s) && Possible(s, steps) && InTime(s, steps)
    ensures !ForgetsSomewhere(s, steps)
    decreases |steps|
  {
    if steps != [] {
      if Forgets(s, steps[0]) {
        ForgetsOnlyLate(s, steps[0]);
      }
      StepKeepsInv(s, steps[0]);
      hide Inv, Enabled, Next, Forgets;
      InTimeNeverForgets(Next(s, steps[0]), steps[1..]);
    }
  }

  lemma NothingLostInTime(server: nat, steps: seq<Step>)
    requires Possible(Prepared(server), steps) && InTime(Prepared(server), steps)
    ensures !Lost(Run(Prepared(server), steps))
  {
    InTimeNeverForgets(Prepared(server), steps);
    RunLosesExactly(Prepared(server), steps);
  }

  function Overtaken(preparer: nat, opener: nat, delay: nat): seq<Step> {
    [Restore(opener)]
    + ([Begin(opener)] + ([SendLeg1(opener)] + ([Drop(opener)] + ([Wait(delay)] + ([Cleanup(preparer)] + [])))))
  }

  /** How it comes about: another server restores the session, sends leg 1 at once and crashes;
      the one that prepared it cleans up its copy. Exposure is lost exactly when it does so
      after the lease. */
  lemma LateCleanup(preparer: nat, opener: nat, delay: nat)
    requires preparer != opener && delay > LIFE
    ensures Possible(Prepared(preparer), Overtaken(preparer, opener, delay))
    ensures Lost(Run(Prepared(preparer), Overtaken(preparer, opener, delay))) <==> delay > LEASE
  {
    var s0 := Prepared(preparer);
    var s1 := Next(s0, Restore(opener));
    var s2 := Next(s1, Begin(opener));
    var s3 := Next(s2, SendLeg1(opener));
    var s4 := Next(s3, Drop(opener));
    var s5 := Next(s4, Wait(delay));
    assert s1 == s0.(copies := map[preparer := Waiting, opener := Waiting]);
    assert s3.owner == Some(opener) && s3.leaseUntil == LEASE && s3.sent == [opener] && Has(s3, opener, Working);
    assert Has(s5, preparer, Waiting) && s5.now == delay;
    assert Lost(Next(s5, Cleanup(preparer))) <==> delay > LEASE;
    hide Next, Enabled, Lost;
    var last := [Cleanup(preparer)] + [];
    FirstStep(s5, Cleanup(preparer), []);
    FirstStep(s4, Wait(delay), last);
    FirstStep(s3, Drop(opener), [Wait(delay)] + last);
    FirstStep(s2, SendLeg1(opener), [Drop(opener)] + ([Wait(delay)] + last));
    FirstStep(s1, Begin(opener), [SendLeg1(opener)] + ([Drop(opener)] + ([Wait(delay)] + last)));
    FirstStep(s0, Restore(opener), [Begin(opener)] + ([SendLeg1(opener)] + ([Drop(opener)] + ([Wait(delay)] + last))));
  }

  lemma FirstStep(s: State, step: Step, rest: seq<Step>)
    ensures Possible(s, [step] + rest) <==> Enabled(s, step) && Possible(Next(s, step), rest)
    ensures Run(s, [step] + rest) == Run(Next(s, step), rest)
  {
    assert ([step] + rest)[1..] == rest;
  }
}
