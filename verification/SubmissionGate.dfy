/** The account submission gate: a mutual exclusion lock with two queues and cancellation.

    A call to `lock` is a ticket; tickets are numbered in the order in which they arrived.
    One step is one section under the gate's mutex, or the receive that collects a grant,
    so every interleaving of callers is a sequence of steps. `log` is history: each grant,
    with who was waiting when it was made.
 */
module SubmissionGate {

  datatype Ticket = Ticket(id: nat, priority: bool)

  datatype Grant = Grant(ticket: Ticket, passedOver: seq<Ticket>)

  /** `granted`: the ready channel is closed and not yet received from. */
  datatype Gate = Gate(
    active: bool,
    priorityWaiters: seq<Ticket>,
    waiters: seq<Ticket>,
    granted: set<Ticket>,
    holding: set<Ticket>,
    next: nat,
    log: seq<Grant>)
  {
    function Owners(): set<Ticket> { granted + holding }
    function Waiting(): seq<Ticket> { priorityWaiters + waiters }
  }

  const FRESH := Gate(false, [], [], {}, {}, 0, [])

  datatype Step = Enter(priority: bool) | Wake(ticket: Ticket) | Cancel(ticket: Ticket) | Unlock(ticket: Ticket)

  predicate Enabled(g: Gate, step: Step) {
    match step
    case Enter(_) => true
    case Wake(t) => t in g.granted
    case Cancel(t) => t in g.granted || t in g.Waiting()
    case Unlock(t) => t in g.holding
  }

  function Remove(queue: seq<Ticket>, t: Ticket): seq<Ticket> {
    if queue == [] then []
    else if queue[0] == t then queue[1..]
    else [queue[0]] + Remove(queue[1..], t)
  }

  /** Hands the gate to the next waiter, or leaves it free. */
  function PassOn(g: Gate): Gate {
    if g.priorityWaiters != [] then
      var t := g.priorityWaiters[0];
      g.(priorityWaiters := g.priorityWaiters[1..], granted := g.granted + {t},
         log := g.log + [Grant(t, g.priorityWaiters[1..] + g.waiters)])
    else if g.waiters != [] then
      var t := g.waiters[0];
      g.(waiters := g.waiters[1..], granted := g.granted + {t}, log := g.log + [Grant(t, g.waiters[1..])])
    else g.(active := false)
  }

  function Next(g: Gate, step: Step): Gate {
    match step
    case Enter(priority) =>
      var t := Ticket(g.next, priority);
      var numbered := g.(next := g.next + 1);
      if !g.active then numbered.(active := true, holding := g.holding + {t}, log := g.log + [Grant(t, g.Waiting())])
      else if priority then numbered.(priorityWaiters := g.priorityWaiters + [t])
      else numbered.(waiters := g.waiters + [t])
    case Wake(t) => g.(granted := g.granted - {t}, holding := g.holding + {t})
    case Cancel(t) =>
      if t in g.Waiting() then
        g.(priorityWaiters := Remove(g.priorityWaiters, t), waiters := Remove(g.waiters, t))
      else PassOn(g.(granted := g.granted - {t}))
    case Unlock(t) => PassOn(g.(holding := g.holding - {t}))
  }

  // ----- the invariant

  /** Oldest first, one class, all numbered before `next`. */
  predicate Queue(q: seq<Ticket>, priority: bool, next: nat) {
    && (forall i, j :: 0 <= i < j < |q| ==> q[i].id < q[j].id)
    && (forall t :: t in q ==> t.priority == priority && t.id < next)
  }

  /** A grant overtook nobody: no priority ticket waited behind a normal one, and nobody
      of the same class had arrived earlier. */
  predicate Fair(grant: Grant) {
    forall t :: t in grant.passedOver ==>
      (t.priority ==> grant.ticket.priority) && (t.priority == grant.ticket.priority ==> grant.ticket.id < t.id)
  }

  /** At most one owner, in one of the two stages. */
  predicate AtMostOneOwner(g: Gate) {
    && (forall s, t :: s in g.Owners() && t in g.Owners() ==> s == t)
    && g.granted !! g.holding
  }

  predicate Inv(g: Gate) {
    && AtMostOneOwner(g)
    && (g.active <==> g.Owners() != {})
    && (!g.active ==> g.priorityWaiters == [] && g.waiters == [])
    && Queue(g.priorityWaiters, true, g.next) && Queue(g.waiters, false, g.next)
    && (forall t :: t in g.Owners() ==> t.id < g.next && t !in g.Waiting())
    && (forall grant :: grant in g.log ==> Fair(grant))
  }

  lemma PrependKeepsQueue(t: Ticket, q: seq<Ticket>, priority: bool, next: nat)
    requires Queue(q, priority, next) && t.priority == priority && t.id < next && forall s :: s in q ==> t.id < s.id
    ensures Queue([t] + q, priority, next)
  {
  }

  lemma {:induction false} RemoveKeepsQueue(q: seq<Ticket>, t: Ticket, priority: bool, next: nat)
    requires Queue(q, priority, next)
    ensures Queue(Remove(q, t), priority, next)
    ensures forall s :: s in Remove(q, t) <==> s in q && s != t
  {
    if q != [] {
      QueueFacts(q, priority, next);
      RemoveKeepsQueue(q[1..], t, priority, next);
      if q[0] != t {
        PrependKeepsQueue(q[0], Remove(q[1..], t), priority, next);
      }
    }
  }

  lemma QueueGrows(q: seq<Ticket>, priority: bool, next: nat)
    requires Queue(q, priority, next)
    ensures Queue(q, priority, next + 1)
  {
  }

  lemma AppendKeepsQueue(q: seq<Ticket>, priority: bool, next: nat)
    requires Queue(q, priority, next)
    ensures Queue(q + [Ticket(next, priority)], priority, next + 1)
  {
  }

  lemma QueueFacts(q: seq<Ticket>, priority: bool, next: nat)
    requires Queue(q, priority, next)
    ensures forall t :: t in q ==> t.priority == priority && t.id < next
    ensures q != [] ==>
              && Queue(q[1..], priority, next)
              && (forall t :: t in q <==> t == q[0] || t in q[1..])
              && (forall t :: t in q[1..] ==> q[0].id < t.id)
  {
    if q != [] {
      assert q == [q[0]] + q[1..];
    }
  }

  /** Once the owner has left, passing on restores the invariant. */
  lemma PassOnRestores(g: Gate)
    requires g.active && g.granted == {} && g.holding == {}
    requires Queue(g.priorityWaiters, true, g.next) && Queue(g.waiters, false, g.next)
    requires forall grant :: grant in g.log ==> Fair(grant)
    ensures Inv(PassOn(g))
  {
    hide Queue, Fair;
    QueueFacts(g.priorityWaiters, true, g.next);
    QueueFacts(g.waiters, false, g.next);
    if g.priorityWaiters != [] {
      HeadIsFair(g.priorityWaiters[0], g.priorityWaiters[1..], g.waiters);
    } else if g.waiters != [] {
      HeadIsFair(g.waiters[0], [], g.waiters[1..]);
      assert [] + g.waiters[1..] == g.waiters[1..];
    }
  }

  lemma HeadIsFair(head: Ticket, priorityRest: seq<Ticket>, rest: seq<Ticket>)
    requires forall t :: t in priorityRest ==> t.priority && head.priority && head.id < t.id
    requires forall t :: t in rest ==> !t.priority && (!head.priority ==> head.id < t.id)
    ensures Fair(Grant(head, priorityRest + rest))
  {
  }

  lemma EnterKeepsInv(g: Gate, priority: bool)
    requires Inv(g)
    ensures Inv(Next(g, Enter(priority)))
  {
    hide Queue, Fair;
    var t := Ticket(g.next, priority);
    QueueFacts(g.priorityWaiters, true, g.next);
    QueueFacts(g.waiters, false, g.next);
    QueueGrows(g.priorityWaiters, true, g.next);
    QueueGrows(g.waiters, false, g.next);
    AppendKeepsQueue(if priority then g.priorityWaiters else g.waiters, priority, g.next);
    if !g.active {
      NobodyPassed(t);
      assert g.Waiting() == [];
    }
  }

  lemma NobodyPassed(t: Ticket)
    ensures Fair(Grant(t, []))
  {
  }

  lemma WakeKeepsInv(g: Gate, t: Ticket)
    requires Inv(g) && t in g.granted
    ensures Inv(Next(g, Wake(t))) && Next(g, Wake(t)).holding == {t} && Next(g, Wake(t)).granted == {}
  {
    hide Queue, Fair;
    assert t in g.Owners();
    assert Next(g, Wake(t)).Owners() == g.Owners();
  }

  lemma CancelKeepsInv(g: Gate, t: Ticket)
    requires Inv(g) && Enabled(g, Cancel(t))
    ensures Inv(Next(g, Cancel(t)))
  {
    hide Queue, Fair, PassOn;
    if t in g.Waiting() {
      RemoveKeepsQueue(g.priorityWaiters, t, true, g.next);
      RemoveKeepsQueue(g.waiters, t, false, g.next);
    } else {
      assert t in g.Owners();
      assert g.granted - {t} == {} && g.holding == {};
      PassOnRestores(g.(granted := g.granted - {t}));
    }
  }

  lemma UnlockKeepsInv(g: Gate, t: Ticket)
    requires Inv(g) && t in g.holding
    ensures Inv(Next(g, Unlock(t)))
  {
    hide Queue, Fair, PassOn;
    assert t in g.Owners();
    assert g.holding - {t} == {} && g.granted == {};
    PassOnRestores(g.(holding := g.holding - {t}));
  }

  lemma StepKeepsInv(g: Gate, step: Step)
    requires Inv(g) && Enabled(g, step)
    ensures Inv(Next(g, step))
  {
    hide Inv, Next;
    match step
    case Enter(priority) => EnterKeepsInv(g, priority);
    case Wake(t) => WakeKeepsInv(g, t);
    case Cancel(t) => CancelKeepsInv(g, t);
    case Unlock(t) => UnlockKeepsInv(g, t);
  }

  lemma FreshInv()
    ensures Inv(FRESH)
  {
  }

  // ----- whole runs

  function Run(g: Gate, steps: seq<Step>): Gate
    decreases |steps|
  {
    if steps == [] then g else Run(Next(g, steps[0]), steps[1..])
  }

  predicate Possible(g: Gate, steps: seq<Step>)
    decreases |steps|
  {
    steps == [] || (Enabled(g, steps[0]) && Possible(Next(g, steps[0]), steps[1..]))
  }

  /** Mutual exclusion, no lost grant and fair order in every reachable state. */
  lemma {:induction false} RunKeepsInv(g: Gate, steps: seq<Step>)
    requires Inv(g) && Possible(g, steps)
    ensures Inv(Run(g, steps))
    decreases |steps|
  {
    hide Inv, Next, Enabled;
    if steps != [] {
      StepKeepsInv(g, steps[0]);
      RunKeepsInv(Next(g, steps[0]), steps[1..]);
    }
  }

  /** In every reachable state somebody waiting means that exactly one caller owns the gate,
      and that caller's next step hands it to the oldest waiter of the first class. */
  lemma WaitersAreServed(steps: seq<Step>)
    requires Possible(FRESH, steps) && Run(FRESH, steps).Waiting() != []
    ensures var g := Run(FRESH, steps);
            exists t ::
              && g.Owners() == {t}
              && var step := if t in g.granted then Cancel(t) else Unlock(t);
                 Enabled(g, step) && Next(g, step).granted == {g.Waiting()[0]}
                 && Next(g, step).Waiting() == g.Waiting()[1..]
  {
    hide Queue, Fair, Run, Possible;
    FreshInv();
    RunKeepsInv(FRESH, steps);
    var g := Run(FRESH, steps);
    assert g.active;
    var t :| t in g.Owners();
    assert g.Owners() == {t};
    var step := if t in g.granted then Cancel(t) else Unlock(t);
    assert t !in g.Waiting();
    if t in g.granted {
      assert g.granted - {t} == {};
    } else {
      assert g.granted == {};
    }
    assert Next(g, step).granted == {g.Waiting()[0]};
    assert Next(g, step).Waiting() == g.Waiting()[1..];
  }

  /** A grant is for a ticket that was not granted before; ownership changes only by a grant. */
  lemma OwnersAreGranted(g: Gate, step: Step)
    requires Inv(g) && Enabled(g, step)
    ensures g.log <= Next(g, step).log
    ensures forall t :: t in Next(g, step).Owners() && t !in g.Owners() ==>
              |Next(g, step).log| == |g.log| + 1 && Next(g, step).log[|g.log|].ticket == t
              && (step.Enter? ==> g.Waiting() == [])
  {
  }

  /** Waiting tickets keep their order: whoever stands before another keeps standing there
      until granted or cancelled. */
  lemma QueueOrderIsKept(g: Gate, step: Step, s: Ticket, t: Ticket)
    requires Inv(g) && Enabled(g, step) && s.priority == t.priority && s.id < t.id
    requires s in g.Waiting() && t in g.Waiting() && step != Cancel(s)
    ensures t !in Next(g, step).Owners()
    ensures s in Next(g, step).Waiting() || s in Next(g, step).granted
  {
    hide Queue;
    QueueFacts(g.priorityWaiters, true, g.next);
    QueueFacts(g.waiters, false, g.next);
    if step.Cancel? && step.ticket in g.Waiting() {
      RemoveKeepsQueue(g.priorityWaiters, step.ticket, true, g.next);
      RemoveKeepsQueue(g.waiters, step.ticket, false, g.next);
    }
  }

  // ----- nobody is lost

  /** Arriving at a gate that is held: last of its own class, and nothing else moves. */
  lemma ArrivalQueues(g: Gate, priority: bool)
    requires g.active
    ensures var t, after := Ticket(g.next, priority), Next(g, Enter(priority));
            && after.priorityWaiters == g.priorityWaiters + (if priority then [t] else [])
            && after.waiters == g.waiters + (if priority then [] else [t])
            && after.Owners() == g.Owners() && after.log == g.log && after.active && after.next == g.next + 1
  {
  }

  /** A ticket stops waiting only when it is granted or gives up itself, and stops owning the
      gate only when it gives up its grant or unlocks. */
  lemma LeavesByItself(g: Gate, step: Step, t: Ticket)
    requires Inv(g) && Enabled(g, step)
    ensures t in g.Waiting() && t !in Next(g, step).Waiting() ==> step == Cancel(t) || t in Next(g, step).granted
    ensures t in g.Owners() && t !in Next(g, step).Owners() ==> step == Cancel(t) || step == Unlock(t)
  {
    hide Queue;
    QueueFacts(g.priorityWaiters, true, g.next);
    QueueFacts(g.waiters, false, g.next);
    if step.Cancel? {
      RemoveKeepsQueue(g.priorityWaiters, step.ticket, true, g.next);
      RemoveKeepsQueue(g.waiters, step.ticket, false, g.next);
    }
  }

  /** Whoever waits may give up at any time, which moves nobody else. */
  lemma WaiterMayLeave(g: Gate, t: Ticket)
    requires Inv(g) && t in g.Waiting()
    ensures Enabled(g, Cancel(t))
    ensures var after := Next(g, Cancel(t));
            after.Owners() == g.Owners() && forall u :: u in after.Waiting() <==> u in g.Waiting() && u != t
  {
    hide Queue;
    QueueFacts(g.priorityWaiters, true, g.next);
    QueueFacts(g.waiters, false, g.next);
    RemoveKeepsQueue(g.priorityWaiters, t, true, g.next);
    RemoveKeepsQueue(g.waiters, t, false, g.next);
  }

  /** The tickets that arrive in a run, numbered from `next`. */
  function Arrived(steps: seq<Step>, next: nat): set<Ticket> {
    if steps == [] then {}
    else if steps[0].Enter? then {Ticket(next, steps[0].priority)} + Arrived(steps[1..], next + 1)
    else Arrived(steps[1..], next)
  }

  /** The tickets that gave up or unlocked in a run. */
  function Gone(steps: seq<Step>): set<Ticket> {
    if steps == [] then {}
    else (if steps[0].Cancel? || steps[0].Unlock? then {steps[0].ticket} else {}) + Gone(steps[1..])
  }

  function Present(g: Gate): set<Ticket> {
    g.Owners() + (set t | t in g.Waiting())
  }

  lemma PassOnConserves(g: Gate)
    ensures forall t :: t in Present(PassOn(g)) <==> t in Present(g)
    ensures PassOn(g).next == g.next
  {
    if g.priorityWaiters != [] {
      assert g.priorityWaiters == [g.priorityWaiters[0]] + g.priorityWaiters[1..];
    } else if g.waiters != [] {
      assert g.waiters == [g.waiters[0]] + g.waiters[1..];
    }
  }

  lemma EnterConserves(g: Gate, priority: bool)
    ensures forall t :: t in Present(Next(g, Enter(priority))) <==> t in Present(g) || t == Ticket(g.next, priority)
  {
  }

  lemma LeavingConserves(g: Gate, step: Step)
    requires Inv(g) && Enabled(g, step) && (step.Cancel? || step.Unlock?)
    ensures step.ticket in Present(g) && step.ticket.id < g.next
    ensures forall t :: t in Present(Next(g, step)) <==> t in Present(g) && t != step.ticket
  {
    hide Queue, Fair, PassOn;
    QueueFacts(g.priorityWaiters, true, g.next);
    QueueFacts(g.waiters, false, g.next);
    if step.Cancel? && step.ticket in g.Waiting() {
      RemoveKeepsQueue(g.priorityWaiters, step.ticket, true, g.next);
      RemoveKeepsQueue(g.waiters, step.ticket, false, g.next);
    } else {
      assert step.ticket in g.Owners() && step.ticket !in g.Waiting();
      var left := if step.Cancel? then g.(granted := g.granted - {step.ticket})
                  else g.(holding := g.holding - {step.ticket});
      PassOnConserves(left);
    }
  }

  lemma StepConserves(g: Gate, step: Step)
    requires Inv(g) && Enabled(g, step)
    ensures forall t :: t in Present(g) || (step.Enter? && t == Ticket(g.next, step.priority))
              <==> t in Present(Next(g, step)) || ((step.Cancel? || step.Unlock?) && t == step.ticket)
    ensures step.Cancel? || step.Unlock? ==> step.ticket !in Present(Next(g, step)) && step.ticket.id < g.next
    ensures Next(g, step).next == g.next + if step.Enter? then 1 else 0
  {
    match step
    case Enter(priority) =>
      hide Inv;
      EnterConserves(g, priority);
    case Wake(t) =>
      hide Inv;
    case _ =>
      LeavingConserves(g, step);
      PassOnConserves(g);
      hide Inv, PassOn, Present;
      NextNumber(g, step);
  }

  lemma TicketConserved(g: Gate, step: Step, t: Ticket)
    requires Inv(g) && Enabled(g, step)
    ensures t in Present(g) || (step.Enter? && t == Ticket(g.next, step.priority))
            <==> t in Present(Next(g, step)) || ((step.Cancel? || step.Unlock?) && t == step.ticket)
    ensures step.Cancel? || step.Unlock? ==> step.ticket !in Present(Next(g, step)) && step.ticket.id < g.next
    ensures Next(g, step).next == g.next + if step.Enter? then 1 else 0
  {
    hide Inv, Next, Enabled, Present;
    StepConserves(g, step);
  }

  lemma NextNumber(g: Gate, step: Step)
    ensures Next(g, step).next == g.next + if step.Enter? then 1 else 0
  {
  }

  lemma {:induction false} GoneStaysGone(g: Gate, steps: seq<Step>, t: Ticket)
    requires Inv(g) && Possible(g, steps) && t !in Present(g) && t.id < g.next
    ensures t !in Present(Run(g, steps)) && t !in Gone(steps)
    decreases |steps|
  {
    if steps != [] {
      hide Inv, Next, Enabled, Present;
      StepKeepsInv(g, steps[0]);
      TicketConserved(g, steps[0], t);
      assert t !in Present(Next(g, steps[0])) && !((steps[0].Cancel? || steps[0].Unlock?) && steps[0].ticket == t);
      GoneStaysGone(Next(g, steps[0]), steps[1..], t);
    }
  }

  lemma ArrivedFirst(steps: seq<Step>, next: nat, t: Ticket)
    requires steps != []
    ensures t in Arrived(steps, next) <==>
              if steps[0].Enter? then t == Ticket(next, steps[0].priority) || t in Arrived(steps[1..], next + 1)
              else t in Arrived(steps[1..], next)
    ensures t in Gone(steps) <==>
              ((steps[0].Cancel? || steps[0].Unlock?) && t == steps[0].ticket) || t in Gone(steps[1..])
  {
  }

  lemma FirstStep(g: Gate, steps: seq<Step>)
    requires steps != [] && Possible(g, steps)
    ensures Enabled(g, steps[0]) && Possible(Next(g, steps[0]), steps[1..])
    ensures Run(g, steps) == Run(Next(g, steps[0]), steps[1..])
  {
  }

  lemma {:induction false} CallerAccountedFor(g: Gate, steps: seq<Step>, t: Ticket)
    requires Inv(g) && Possible(g, steps)
    ensures t in Present(g) || t in Arrived(steps, g.next) <==> t in Present(Run(g, steps)) || t in Gone(steps)
    ensures t in Gone(steps) ==> t !in Present(Run(g, steps))
    decreases |steps|
  {
    if steps != [] {
      var step, next, rest := steps[0], Next(g, steps[0]), steps[1..];
      FirstStep(g, steps);
      ArrivedFirst(steps, g.next, t);
      hide *;
      StepKeepsInv(g, step);
      TicketConserved(g, step, t);
      CallerAccountedFor(next, rest, t);
      if (step.Cancel? || step.Unlock?) && step.ticket == t {
        GoneStaysGone(next, rest, t);
      }
    }
  }

  /** Over every run each caller that arrived, or was there before, owns the gate, waits, or has
      left by its own doing, and only one of these. */
  lemma EveryCallerAccountedFor(g: Gate, steps: seq<Step>)
    requires Inv(g) && Possible(g, steps)
    ensures Present(g) + Arrived(steps, g.next) == Present(Run(g, steps)) + Gone(steps)
    ensures Present(Run(g, steps)) !! Gone(steps)
  {
    hide *;
    forall t: Ticket
      ensures t in Present(g) || t in Arrived(steps, g.next) <==> t in Present(Run(g, steps)) || t in Gone(steps)
      ensures t in Gone(steps) ==> t !in Present(Run(g, steps))
    {
      CallerAccountedFor(g, steps, t);
    }
  }

  // ----- the gate itself

  class AccountSubmissionGate {
    var active: bool
    var priorityWaiters: seq<Ticket>
    var waiters: seq<Ticket>
    var next: nat
    ghost var granted: set<Ticket>
    ghost var holding: set<Ticket>
    ghost var log: seq<Grant>

    ghost function View(): Gate
      reads this
    {
      Gate(active, priorityWaiters, waiters, granted, holding, next, log)
    }

    ghost predicate Valid()
      reads this
    {
      Inv(View())
    }

    constructor ()
      ensures Valid() && View() == FRESH
    {
      active, priorityWaiters, waiters, next := false, [], [], 0;
      granted, holding, log := {}, {}, [];
    }

    /** The section of `lock` before it may block. */
    method Lock(priority: bool) returns (ticket: Ticket, held: bool)
      requires Valid()
      modifies this
      ensures Valid() && View() == Next(old(View()), Enter(priority))
      ensures ticket == Ticket(old(next), priority) && held == (ticket in holding) == !old(active)
      ensures !held ==> ticket in View().Waiting() && View().Owners() == old(View().Owners())
    {
      hide Queue, Fair;
      StepKeepsInv(View(), Enter(priority));
      ticket, held := Ticket(next, priority), !active;
      next := next + 1;
      if held {
        active := true;
        holding, log := holding + {ticket}, log + [Grant(ticket, priorityWaiters + waiters)];
      } else if priority {
        priorityWaiters := priorityWaiters + [ticket];
      } else {
        waiters := waiters + [ticket];
      }
    }

    /** `lock` returns after receiving from its ready channel. */
    ghost method Collect(ticket: Ticket)
      requires Valid() && ticket in granted
      modifies this`granted, this`holding
      ensures Valid() && View() == Next(old(View()), Wake(ticket)) && holding == {ticket}
    {
      StepKeepsInv(View(), Wake(ticket));
      granted, holding := granted - {ticket}, holding + {ticket};
      assert ticket in View().Owners();
    }

    /** `lock` gives up because its context ended. A ticket no longer queued was granted
        meanwhile, and passes the grant on. */
    method GiveUp(ticket: Ticket)
      requires Valid() && (ticket in granted || ticket in View().Waiting())
      modifies this
      ensures Valid() && View() == Next(old(View()), Cancel(ticket))
      ensures ticket !in View().Owners() && ticket !in View().Waiting()
    {
      hide Fair, Queue;
      StepKeepsInv(View(), Cancel(ticket));
      QueueFacts(priorityWaiters, true, next);
      QueueFacts(waiters, false, next);
      RemoveKeepsQueue(priorityWaiters, ticket, true, next);
      RemoveKeepsQueue(waiters, ticket, false, next);
      ghost var before := View();
      var removed;
      priorityWaiters, removed := RemoveSubmissionWaiter(priorityWaiters, ticket);
      if !removed {
        waiters, removed := RemoveSubmissionWaiter(waiters, ticket);
      } else {
        assert ticket !in waiters;
        NotQueued(waiters, ticket);
      }
      if !removed {
        NotQueued(before.priorityWaiters, ticket);
        NotQueued(before.waiters, ticket);
        granted := granted - {ticket};
        UnlockLocked();
      }
    }

    method Release(ticket: Ticket)
      requires Valid() && ticket in holding
      modifies this
      ensures Valid() && View() == Next(old(View()), Unlock(ticket))
      ensures ticket !in View().Owners()
    {
      StepKeepsInv(View(), Unlock(ticket));
      assert ticket in View().Owners();
      holding := holding - {ticket};
      UnlockLocked();
    }

    method UnlockLocked()
      modifies this
      ensures View() == PassOn(old(View()))
    {
      if |priorityWaiters| > 0 {
        var t := priorityWaiters[0];
        priorityWaiters := priorityWaiters[1..];
        granted, log := granted + {t}, log + [Grant(t, priorityWaiters + waiters)];
      } else if |waiters| > 0 {
        var t := waiters[0];
        waiters := waiters[1..];
        granted, log := granted + {t}, log + [Grant(t, waiters)];
      } else {
        active := false;
      }
    }
  }

  lemma {:induction false} NotQueued(q: seq<Ticket>, t: Ticket)
    requires t !in q
    ensures Remove(q, t) == q
  {
    if q != [] {
      NotQueued(q[1..], t);
    }
  }

  lemma {:induction false} RemoveAt(q: seq<Ticket>, i: nat)
    requires i < |q| && q[i] !in q[..i]
    ensures Remove(q, q[i]) == q[..i] + q[i + 1..]
  {
    if i > 0 {
      assert q[0] in q[..i];
      assert q[1..][..i - 1] == q[1..i];
      assert forall t :: t in q[1..i] ==> t in q[..i];
      RemoveAt(q[1..], i - 1);
    }
  }

  method RemoveSubmissionWaiter(q: seq<Ticket>, target: Ticket) returns (rest: seq<Ticket>, removed: bool)
    ensures removed <==> target in q
    ensures rest == Remove(q, target)
  {
    rest, removed := q, false;
    var i := 0;
    while i < |q| && !removed
      invariant 0 <= i <= |q|
      invariant removed ==> target in q && rest == Remove(q, target)
      invariant !removed ==> target !in q[..i] && rest == q
    {
      if q[i] == target {
        RemoveAt(q, i);
        rest, removed := q[..i] + q[i + 1..], true;
      }
      i := i + 1;
    }
    if !removed {
      NotQueued(q, target);
    }
  }
}
