/** The lease that fences servers sharing the table of live sessions.

    Any number of servers write the same rows; each statement is atomic, and so is the
    claim that precedes the save of an exposed session. Servers share one clock that never
    goes back. `grants` is history: every lease ever given out.
 */
module SessionLease {
  import opened Basics

  const LEASE: int := 90_000

  /** `owner` and `leaseUntil` are NULL until the first claim. `slot`: accounts and asset. */
  datatype Row = Row(state: string, slot: string, hasExposure: bool, owner: Option<nat>, leaseUntil: Option<int>,
    terminal: bool)

  datatype Grant = Grant(id: string, owner: nat, from: int, until: int)

  datatype Table = Table(rows: map<string, Row>, now: int, grants: seq<Grant>)

  datatype Step =
    | Wait(time: nat)
    | Claim(server: nat, id: string)
    | Save(server: nat, id: string, slot: string, state: string, exposed: bool)
    | Finish(finisher: Option<nat>, id: string, state: string)
    | Flag(id: string, state: string)
    | Supersede(slot: string)

  predicate Claimable(row: Row, server: nat, now: int) {
    && !row.terminal
    && (row.owner.None? || row.owner.value == server || row.leaseUntil.None? || row.leaseUntil.value < now)
  }

  predicate MayClaim(t: Table, server: nat, id: string) {
    id in t.rows && Claimable(t.rows[id], server, t.now)
  }

  function Claimed(t: Table, server: nat, id: string): Table
    requires id in t.rows
  {
    t.(rows := t.rows[id := t.rows[id].(owner := Some(server), leaseUntil := Some(t.now + LEASE))],
       grants := t.grants + [Grant(id, server, t.now, t.now + LEASE)])
  }

  /** An insert, or an update that keeps the owner but clears the terminal mark. */
  function Upserted(t: Table, id: string, slot: string, state: string, exposed: bool): Table {
    if id in t.rows
    then t.(rows := t.rows[id := t.rows[id].(state := state, slot := slot, hasExposure := exposed, terminal := false)])
    else t.(rows := t.rows[id := Row(state, slot, exposed, None, None, false)])
  }

  predicate MayFinish(t: Table, server: Option<nat>, id: string) {
    id in t.rows && !t.rows[id].terminal && (t.rows[id].owner.None? || t.rows[id].owner == server)
  }

  predicate Superseded(row: Row, slot: string) {
    row.slot == slot && !row.terminal && !row.hasExposure
  }

  /** A statement whose condition fails changes nothing. */
  function Next(t: Table, step: Step): Table {
    match step
    case Wait(time) => t.(now := t.now + time)
    case Claim(server, id) => if MayClaim(t, server, id) then Claimed(t, server, id) else t
    case Save(server, id, slot, state, exposed) =>
      if !exposed then Upserted(t, id, slot, state, false)
      else if MayClaim(t, server, id) then Upserted(Claimed(t, server, id), id, slot, state, true)
      else t
    case Finish(server, id, state) =>
      if MayFinish(t, server, id) then t.(rows := t.rows[id := t.rows[id].(state := state, terminal := true)]) else t
    case Flag(id, state) =>
      if id in t.rows && !t.rows[id].terminal then t.(rows := t.rows[id := t.rows[id].(state := state)]) else t
    case Supersede(slot) =>
      t.(rows := map id | id in t.rows ::
           if Superseded(t.rows[id], slot) then t.rows[id].(state := "superseded_safe", terminal := true)
             else t.rows[id])
  }

  function Run(t: Table, steps: seq<Step>): Table
    decreases |steps|
  {
    if steps == [] then t else Run(Next(t, steps[0]), steps[1..])
  }

  // ----- leases of different servers never overlap

  predicate Exclusive(grants: seq<Grant>) {
    forall i, j :: 0 <= i < j < |grants| && grants[i].id == grants[j].id && grants[i].owner != grants[j].owner ==>
      grants[i].until < grants[j].from
  }

  /** What a grant says about its row: other owners' leases are over, nobody's outlives the row's. */
  predicate Reflected(t: Table, g: Grant) {
    && g.until == g.from + LEASE && g.from <= t.now && g.id in t.rows
    && t.rows[g.id].owner.Some? && t.rows[g.id].leaseUntil.Some? && g.until <= t.rows[g.id].leaseUntil.value
    && (g.owner != t.rows[g.id].owner.value ==> g.until < t.now)
  }

  predicate Inv(t: Table) {
    && Exclusive(t.grants)
    && (forall g :: g in t.grants ==> Reflected(t, g))
    && (forall id :: id in t.rows ==> (t.rows[id].owner.Some? <==> t.rows[id].leaseUntil.Some?))
    && (forall id :: id in t.rows && t.rows[id].leaseUntil.Some? ==> t.rows[id].leaseUntil.value <= t.now + LEASE)
  }

  lemma ClaimKeepsInv(t: Table, server: nat, id: string)
    requires Inv(t) && MayClaim(t, server, id)
    ensures Inv(Claimed(t, server, id))
  {
    forall g | g in t.grants
      ensures Reflected(Claimed(t, server, id), g)
      ensures g.id == id && g.owner != server ==> g.until < t.now
    {
      assert Reflected(t, g);
    }
  }

  lemma StepKeepsInv(t: Table, step: Step)
    requires Inv(t)
    ensures Inv(Next(t, step))
  {
    hide Claimed, Exclusive;
    if step.Claim? && MayClaim(t, step.server, step.id) {
      ClaimKeepsInv(t, step.server, step.id);
    } else if step.Save? && step.exposed && MayClaim(t, step.server, step.id) {
      ClaimKeepsInv(t, step.server, step.id);
      UpsertKeepsInv(Claimed(t, step.server, step.id), step.id, step.slot, step.state, true);
    } else if step.Save? && !step.exposed {
      UpsertKeepsInv(t, step.id, step.slot, step.state, false);
    } else {
      forall g | g in t.grants
        ensures Reflected(Next(t, step), g)
      {
        assert Reflected(t, g);
      }
    }
  }

  lemma UpsertKeepsInv(t: Table, id: string, slot: string, state: string, exposed: bool)
    requires Inv(t)
    ensures Inv(Upserted(t, id, slot, state, exposed))
  {
    forall g | g in t.grants
      ensures Reflected(Upserted(t, id, slot, state, exposed), g)
    {
      assert Reflected(t, g);
    }
  }

  lemma {:induction false} RunKeepsInv(t: Table, steps: seq<Step>)
    requires Inv(t)
    ensures Inv(Run(t, steps))
    decreases |steps|
  {
    hide Inv, Next;
    if steps != [] {
      StepKeepsInv(t, steps[0]);
      RunKeepsInv(Next(t, steps[0]), steps[1..]);
    }
  }

  /** A server has an unexpired lease at a time. */
  ghost predicate Holds(t: Table, server: nat, id: string, time: int) {
    exists g :: g in t.grants && g.id == id && g.owner == server && g.from <= time <= g.until
  }

  /** Fencing: over every run and at every time, at most one server holds a session. */
  lemma AtMostOneHolder(now: int, steps: seq<Step>, a: nat, b: nat, id: string, time: int)
    requires var t := Run(Table(map[], now, []), steps); Holds(t, a, id, time) && Holds(t, b, id, time)
    ensures a == b
  {
    RunKeepsInv(Table(map[], now, []), steps);
    var t := Run(Table(map[], now, []), steps);
    var g :| g in t.grants && g.id == id && g.owner == a && g.from <= time <= g.until;
    var h :| h in t.grants && h.id == id && h.owner == b && h.from <= time <= h.until;
    var i :| 0 <= i < |t.grants| && t.grants[i] == g;
    var j :| 0 <= j < |t.grants| && t.grants[j] == h;
  }

  /** While a server holds an active session nobody else can claim it, save it as exposed
      or finish it. */
  lemma HolderIsFenced(t: Table, a: nat, b: nat, id: string, slot: string, state: string)
    requires Inv(t) && Holds(t, a, id, t.now) && a != b
    ensures Next(t, Claim(b, id)) == t
    ensures Next(t, Save(b, id, slot, state, true)) == t
    ensures Next(t, Finish(Some(b), id, state)) == t
  {
    var g :| g in t.grants && g.id == id && g.owner == a && g.from <= t.now <= g.until;
    assert Reflected(t, g);
  }

  // ----- terminal rows

  predicate Terminal(t: Table, id: string) { id in t.rows && t.rows[id].terminal }

  /** A terminal row is revived exactly by a save that does not claim, one of an unexposed
      session; nothing leases it. */
  lemma RevivedExactly(t: Table, step: Step, id: string)
    requires Terminal(t, id)
    ensures !Terminal(Next(t, step), id) <==> step.Save? && step.id == id && !step.exposed
    ensures forall g :: g in Next(t, step).grants && g.id == id ==> g in t.grants
  {
  }

  predicate NoUnexposedSave(steps: seq<Step>, id: string) {
    forall s :: s in steps && s.Save? && s.id == id ==> s.exposed
  }

  /** Over every run of exposed saves a finished session stays finished. */
  lemma {:induction false} TerminalStays(t: Table, steps: seq<Step>, id: string)
    requires Terminal(t, id) && NoUnexposedSave(steps, id)
    ensures Terminal(Run(t, steps), id)
    decreases |steps|
  {
    hide Next, Terminal;
    if steps != [] {
      assert steps[0] in steps;
      RevivedExactly(t, steps[0], id);
      TerminalStays(Next(t, steps[0]), steps[1..], id);
    }
  }

  /** A row is finished exactly by its owner, by anyone while unowned, or, if it has no
      exposure, by superseding its slot. */
  lemma FinishedExactly(t: Table, step: Step, id: string)
    requires id in t.rows && !t.rows[id].terminal
    ensures Terminal(Next(t, step), id) <==>
              || (step.Finish? && step.id == id && (t.rows[id].owner.None? || t.rows[id].owner == step.finisher))
              || (step.Supersede? && t.rows[id].slot == step.slot && !t.rows[id].hasExposure)
  {
  }

  /** The owner of a row changes only to a server that claimed it after the old lease ran out. */
  lemma OwnerChangesAfterExpiry(t: Table, step: Step, id: string)
    requires Inv(t) && id in t.rows && t.rows[id].owner.Some?
    ensures id in Next(t, step).rows && Next(t, step).rows[id].owner.Some?
    ensures Next(t, step).rows[id].owner != t.rows[id].owner ==>
              && t.rows[id].leaseUntil.value < t.now && !t.rows[id].terminal
              && Next(t, step).rows[id].leaseUntil == Some(t.now + LEASE)
  {
  }

  // ----- what each statement does

  /** Nothing but the row named, or the rows of the slot, ever changes, and nothing but the time
      when the clock moves on. */
  lemma OthersStay(t: Table, step: Step, id: string)
    requires id in t.rows && (step.Claim? || step.Save? || step.Finish? || step.Flag? ==> step.id != id)
    requires step.Supersede? ==> t.rows[id].slot != step.slot
    ensures id in Next(t, step).rows && Next(t, step).rows[id] == t.rows[id]
    ensures Next(t, step).now == t.now + (if step.Wait? then step.time else 0)
    ensures step.Wait? ==> Next(t, step) == t.(now := t.now + step.time)
  {
  }

  /** A claim is granted exactly for an active row that nobody owns, that the server owns itself, or
      whose lease ran out; the server then owns it for 90 seconds, and that is on record. */
  lemma ClaimedExactly(t: Table, server: nat, id: string)
    ensures var u := Next(t, Claim(server, id));
            if id in t.rows && !t.rows[id].terminal
               && (t.rows[id].owner.None? || t.rows[id].owner == Some(server) || t.rows[id].leaseUntil.None?
                   || t.rows[id].leaseUntil.value < t.now) then
              && u.rows.Keys == t.rows.Keys
              && u.rows[id] == t.rows[id].(owner := Some(server), leaseUntil := Some(t.now + 90_000))
              && u.grants == t.grants + [Grant(id, server, t.now, t.now + 90_000)]
            else u == t
  {
  }

  /** A save writes state, slot and exposure, and clears the terminal mark; the lease stays, a new row
      has none. A save of an exposed session claims first, and is refused with the claim. */
  lemma SavedExactly(t: Table, server: nat, id: string, slot: string, state: string, exposed: bool)
    ensures var u, claimed := Next(t, Save(server, id, slot, state, exposed)), Next(t, Claim(server, id));
            if exposed && claimed == t then u == t
            else
              var owned := if exposed then claimed else t;
              && id in u.rows && u.grants == owned.grants
              && u.rows[id].state == state && u.rows[id].slot == slot && u.rows[id].hasExposure == exposed
              && !u.rows[id].terminal
              && (id in owned.rows ==>
                    u.rows[id].owner == owned.rows[id].owner && u.rows[id].leaseUntil == owned.rows[id].leaseUntil)
              && (id !in owned.rows ==> u.rows[id].owner.None? && u.rows[id].leaseUntil.None?)
  {
    if exposed && MayClaim(t, server, id) {
      assert Claimed(t, server, id).grants != t.grants;
    }
  }

  /** A finish or a flag writes the state of an active row; a flag leaves it active, and a superseded
      row is marked as such. */
  lemma MarkedExactly(t: Table, step: Step, id: string)
    requires id in t.rows
    ensures var u := Next(t, step);
            && (step.Finish? && step.id == id ==>
                  u.rows[id] == if !t.rows[id].terminal && t.rows[id].owner in {None, step.finisher}
                                then t.rows[id].(state := step.state, terminal := true) else t.rows[id])
            && (step.Flag? && step.id == id ==>
                  u.rows[id] == if t.rows[id].terminal then t.rows[id] else t.rows[id].(state := step.state))
            && (step.Supersede? && t.rows[id].slot == step.slot ==>
                  u.rows[id] == if t.rows[id].terminal || t.rows[id].hasExposure then t.rows[id]
                                else t.rows[id].(state := "superseded_safe", terminal := true))
  {
  }

  /** The store; `now` is read from the clock shared by all servers. */
  class SessionStore {
    var rows: map<string, Row>
    var now: int
    ghost var grants: seq<Grant>

    ghost function View(): Table
      reads this
    {
      Table(rows, now, grants)
    }

    constructor (time: int)
      ensures View() == Table(map[], time, []) && Inv(View())
    {
      rows, now, grants := map[], time, [];
    }

    method ClaimDurableSession(id: string, server: nat) returns (claimed: bool)
      requires Inv(View())
      modifies this
      ensures Inv(View()) && View() == Next(old(View()), Claim(server, id))
      ensures claimed == MayClaim(old(View()), server, id)
    {
      StepKeepsInv(View(), Claim(server, id));
      claimed := false;
      if id in rows {
        var row := rows[id];
        if !row.terminal
           && (row.owner.None? || row.owner.value == server || row.leaseUntil.None? || row.leaseUntil.value < now) {
          rows := rows[id := row.(owner := Some(server), leaseUntil := Some(now + LEASE))];
          grants := grants + [Grant(id, server, now, now + LEASE)];
          claimed := true;
        }
      }
    }

    method UpsertDurableSession(id: string, slot: string, state: string, exposed: bool)
      modifies this`rows
      ensures View() == Upserted(old(View()), id, slot, state, exposed)
    {
      if id in rows {
        rows := rows[id := rows[id].(state := state, slot := slot, hasExposure := exposed, terminal := false)];
      } else {
        rows := rows[id := Row(state, slot, exposed, None, None, false)];
      }
    }

    /** Journals a session; an exposed one only under its lease. */
    method SaveLiveSession(server: nat, id: string, slot: string, state: string, exposed: bool) returns (saved: bool)
      requires Inv(View())
      modifies this
      ensures Inv(View()) && View() == Next(old(View()), Save(server, id, slot, state, exposed))
      ensures saved ==> id in rows && !rows[id].terminal && rows[id].state == state && rows[id].hasExposure == exposed
      ensures saved && exposed ==> Holds(View(), server, id, now) && !Terminal(old(View()), id)
      ensures !saved ==> exposed && View() == old(View())
    {
      StepKeepsInv(View(), Save(server, id, slot, state, exposed));
      saved := true;
      if exposed {
        saved := ClaimDurableSession(id, server);
        if saved {
          assert grants[|grants| - 1] == Grant(id, server, now, now + LEASE);
        }
      }
      if saved {
        UpsertDurableSession(id, slot, state, exposed);
      }
    }

    method FinishDurableSession(server: Option<nat>, id: string, state: string) returns (finished: bool)
      requires Inv(View())
      modifies this`rows
      ensures Inv(View()) && View() == Next(old(View()), Finish(server, id, state))
      ensures finished <==> !Terminal(old(View()), id) && Terminal(View(), id)
    {
      StepKeepsInv(View(), Finish(server, id, state));
      finished := id in rows && !rows[id].terminal && (rows[id].owner.None? || rows[id].owner == server);
      if finished {
        rows := rows[id := rows[id].(state := state, terminal := true)];
      }
    }

    method FlagDurableSession(id: string, state: string)
      requires Inv(View())
      modifies this`rows
      ensures Inv(View()) && View() == Next(old(View()), Flag(id, state))
    {
      StepKeepsInv(View(), Flag(id, state));
      if id in rows && !rows[id].terminal {
        rows := rows[id := rows[id].(state := state)];
      }
    }

    /** Frees a slot; returns the sessions it finished. */
    method SupersedeSafeDurableSessions(slot: string) returns (ids: set<string>)
      requires Inv(View())
      modifies this`rows
      ensures Inv(View()) && View() == Next(old(View()), Supersede(slot))
      ensures forall id :: id in ids <==> Terminal(View(), id) && !Terminal(old(View()), id)
      ensures forall id :: id in ids ==> id in old(rows) && !old(rows)[id].hasExposure
    {
      StepKeepsInv(View(), Supersede(slot));
      ids := set id | id in rows && Superseded(rows[id], slot);
      rows := map id | id in rows ::
        if id in ids then rows[id].(state := "superseded_safe", terminal := true) else rows[id];
    }
  }
}
