/** The store and the monitor that keep the funding ledger, updating tables in place.
    A transaction that fails restores what it had changed.
 */
module FundingStore {
  import opened Basics
  import opened FundingLedger

  ghost predicate AlwaysAnswers(c: Account, source: Window -> Option<seq<Payment>>) {
    forall w :: source(w).Some? && ValidAnswer(c, Some(w), source(w).value)
  }

  /** The request names an account, and the stored coverage, if any, is of the same account and start. */
  predicate Plannable(l: Ledger, c: Account, openedAt: int, target: int) {
    c.position != "" && openedAt != ZERO_TIME && openedAt <= target && EnsureCoverage(l, c, openedAt).Some?
  }

  /** Coverage of other keys stays. */
  ghost predicate OthersKept(l: Ledger, m: Ledger, k: Key) {
    forall j :: j != k ==>
      (j in l.coverage <==> j in m.coverage) && (j in l.coverage ==> m.coverage[j] == l.coverage[j])
  }

  class Store {
    var rows: seq<Row>
    var coverage: map<Key, Coverage>
    var finalized: set<string>
    var realized: map<string, real>
    ghost var log: seq<Row>
    ghost var applied: seq<Applied>

    ghost function View(): Ledger
      reads this
    {
      Ledger(rows, coverage, finalized, realized, log, applied)
    }

    /** A store whose table may hold rows of an earlier version, and no coverage yet. */
    constructor (legacy: seq<Row>)
      requires Distinct(legacy)
      ensures View() == Ledger(legacy, map[], {}, map[], legacy, []) && Books(View())
    {
      rows, coverage, finalized, realized, log, applied := legacy, map[], {}, map[], legacy, [];
    }

    method EnsureFundingCoverage(c: Account, openedAt: int) returns (ok: bool)
      modifies this`coverage
      ensures ok <==> EnsureCoverage(old(View()), c, openedAt).Some?
      ensures View() == if ok then EnsureCoverage(old(View()), c, openedAt).value else old(View())
    {
      var k := KeyOf(c);
      if c.venue == "" || c.account == "" {
        ok := false;
      } else if k !in coverage {
        coverage := coverage[k := Coverage(c.account, openedAt, None, Amount(rows, k), Count(rows, k))];
        ok := true;
      } else {
        ok := coverage[k].account == c.account && coverage[k].start == openedAt;
      }
    }

    /** Inserts a batch row by row; the first invalid or conflicting payment fails it all. */
    method InsertFundingPayments(c: Account, window: Option<Window>, payments: seq<Payment>)
      returns (ok: bool, amount: real, count: nat)
      modifies this`rows, this`log
      ensures ok <==> InsertAll(Batch(old(rows), old(log), 0.0, 0), c, window, payments).Some?
      ensures ok ==> Batch(rows, log, amount, count)
                     == InsertAll(Batch(old(rows), old(log), 0.0, 0), c, window, payments).value
    {
      ok, amount, count := true, 0.0, 0;
      var i := 0;
      while i < |payments| && ok
        invariant 0 <= i <= |payments|
        invariant ok ==> InsertAll(Batch(old(rows), old(log), 0.0, 0), c, window, payments)
                         == InsertAll(Batch(rows, log, amount, count), c, window, payments[i..])
        invariant !ok ==> InsertAll(Batch(old(rows), old(log), 0.0, 0), c, window, payments).None?
      {
        var p := payments[i];
        var row := RowOf(c, p);
        assert payments[i..][1..] == payments[i + 1..];
        if !ValidPayment(c, window, p) {
          ok := false;
        } else {
          var existing := Find(rows, Identity(row));
          if existing.None? {
            rows, log := rows + [row], log + [row];
            amount, count := amount + p.amount, count + 1;
          } else {
            ok := Fact(existing.value) == row;
          }
        }
        i := i + 1;
      }
    }

    method NextFundingWindow(c: Account, openedAt: int, target: int) returns (ok: bool, window: Option<Window>)
      modifies this`coverage
      ensures ok <==> NextWindow(old(View()), c, openedAt, target).Some?
      ensures if ok then NextWindow(old(View()), c, openedAt, target).value == (View(), window)
              else View() == old(View()) && window == None
      ensures View() == Next(old(View()), Plan(c, openedAt, target))
    {
      window := None;
      ok := c.position != "" && openedAt != ZERO_TIME && target >= openedAt;
      if ok {
        ok := EnsureFundingCoverage(c, openedAt);
        if ok {
          var through := coverage[KeyOf(c)].through;
          if through.None? || through.value < target {
            var since := openedAt;
            if through.Some? {
              since := through.value - HISTORY_OVERLAP;
              if since < openedAt {
                since := openedAt;
              }
            }
            var until := since + HISTORY_WINDOW;
            if until > target {
              until := target;
            }
            window := Some(Window(since, until));
          }
        }
      }
    }

    method ApplyFundingWindow(c: Account, openedAt: int, w: Window, payments: seq<Payment>) returns (ok: bool)
      modifies this
      ensures ok <==> ApplyWindow(old(View()), c, openedAt, w, payments).Some?
      ensures View() == if ok then ApplyWindow(old(View()), c, openedAt, w, payments).value else old(View())
      ensures View() == Next(old(View()), Fetch(c, openedAt, w, payments))
    {
      hide InsertAll, Delete, Amount, Count, WindowAllowed;
      var savedRows, savedCoverage := rows, coverage;
      ghost var savedLog := log;
      var k := KeyOf(c);
      ok := EnsureFundingCoverage(c, openedAt);
      ok := ok && WindowAllowed(openedAt, coverage[k].through, w);
      if ok {
        var amount, count;
        ok, amount, count := InsertFundingPayments(c, Some(w), payments);
        if ok {
          var through := w.until;
          if coverage[k].through.Some? && coverage[k].through.value > through {
            through := coverage[k].through.value;
          }
          coverage := coverage[k := coverage[k].(amount := coverage[k].amount + amount,
                                                 count := coverage[k].count + count,
                                                 through := Some(through))];
          rows := Delete(rows, Before(k, through - RAW_RETENTION));
          applied := applied + [Applied(k, w)];
        }
      }
      if !ok {
        rows, coverage, log := savedRows, savedCoverage, savedLog;
      }
    }

    method ApplyObservedFunding(c: Account, openedAt: int, payments: seq<Payment>) returns (ok: bool)
      modifies this
      ensures ok <==> ApplyObserved(old(View()), c, openedAt, payments).Some?
      ensures View() == if ok then ApplyObserved(old(View()), c, openedAt, payments).value else old(View())
      ensures View() == Next(old(View()), Observe(c, openedAt, payments))
    {
      hide InsertAll, Delete, Amount, Count;
      ok := true;
      if payments != [] && c.position !in finalized {
        var savedRows, savedCoverage := rows, coverage;
        ghost var savedLog := log;
        var k := KeyOf(c);
        ok := EnsureFundingCoverage(c, openedAt);
        if ok {
          var amount, count;
          ok, amount, count := InsertFundingPayments(c, None, payments);
          if ok {
            coverage := coverage[k := coverage[k].(amount := coverage[k].amount + amount,
                                                   count := coverage[k].count + count)];
            if coverage[k].through.Some? {
              rows := Delete(rows, Before(k, coverage[k].through.value - RAW_RETENTION));
            }
          }
        }
        if !ok {
          rows, coverage, log := savedRows, savedCoverage, savedLog;
        }
      }
    }

    method ReconcileFunding(
      position: string, venueA: string, venueB: string, openedAt: int, target: int, finalize: bool)
      returns (total: Option<real>)
      modifies this
      ensures (View(), total) == Reconcile(old(View()), position, venueA, venueB, openedAt, target, finalize)
      ensures View() == Next(old(View()), Publish(position, venueA, venueB, openedAt, target, finalize))
      ensures total.None? ==> View() == old(View())
      ensures total.Some? ==> position in realized && realized[position] == total.value
      ensures total.Some? && finalize ==>
                finalized == old(finalized) + {position} && forall r :: r in rows && r.position == position ==> r.legacy
    {
      PublishedExactly(View(), position, venueA, venueB, openedAt, target, finalize);
      var a, b := Key(position, venueA), Key(position, venueB);
      total := None;
      if venueA != venueB
         && a in coverage && coverage[a].start <= openedAt && coverage[a].through.Some?
            && coverage[a].through.value >= target
         && b in coverage && coverage[b].start <= openedAt && coverage[b].through.Some?
            && coverage[b].through.value >= target {
        var sum := coverage[a].amount + coverage[b].amount;
        total := Some(sum);
        realized := realized[position := sum];
        if finalize {
          finalized := finalized + {position};
          rows := Delete(rows, AllOf(position));
        }
      }
    }

    /** One venue's part of a sync: plans, fetches and applies up to four windows. When it
        ends without a failure, the target is covered or coverage moved on by 24 days; it
        fails only when the venue does not answer, or not validly. */
    method SyncVenue(
      c: Account, openedAt: int, target: int, source: Window -> Option<seq<Payment>>, ghost history: seq<Row>)
      returns (complete: bool)
      requires Exact(View(), history) && HistoryOk(history) && c.position !in finalized
      requires forall w :: source(w).Some? ==>
                 FromHistory(c, source(w).value, history) && FullAnswer(c, w, source(w).value, history)
      modifies this
      ensures Exact(View(), history) && finalized == old(finalized) && realized == old(realized)
      ensures Plannable(old(View()), c, openedAt, target) && AlwaysAnswers(c, source) ==> complete
      ensures OthersKept(old(View()), View(), KeyOf(c))
      ensures complete ==> KeyOf(c) in coverage && coverage[KeyOf(c)].start == openedAt
      ensures complete ==>
                var now := Through(View(), c);
                && now.Some?
                && (now.value >= target
                    || now.value >= (if Through(old(View()), c).Some? then Through(old(View()), c).value else openedAt)
                                    + MAX_WINDOWS_PER_SYNC * (HISTORY_WINDOW - HISTORY_OVERLAP))
    {
      hide Exact, Distinct, NextWindow, ApplyWindow, HistoryOk, FromHistory, FullAnswer, ValidAnswer, EnsureCoverage,
           OthersKept;
      OthersKeptChain(View(), View(), View(), KeyOf(c));
      complete := true;
      var done := false;
      var i := 0;
      ghost var answers := Plannable(View(), c, openedAt, target) && AlwaysAnswers(c, source);
      ghost var begin := if Through(View(), c).Some? then Through(View(), c).value else openedAt;
      while i < MAX_WINDOWS_PER_SYNC && !done
        invariant 0 <= i <= MAX_WINDOWS_PER_SYNC
        invariant Exact(View(), history) && finalized == old(finalized) && realized == old(realized)
        invariant OthersKept(old(View()), View(), KeyOf(c))
        invariant complete && (done || i > 0) ==> KeyOf(c) in coverage && coverage[KeyOf(c)].start == openedAt
        invariant answers ==> complete && Plannable(View(), c, openedAt, target)
        invariant !done && i == 0 ==> Through(View(), c) == Through(old(View()), c)
        invariant complete && (done || i > 0) ==> Through(View(), c).Some?
        invariant complete && done ==> Through(View(), c).value >= target
        invariant complete && !done && i > 0 ==>
                    Through(View(), c).value >= target
                    || Through(View(), c).value >= begin + i * (HISTORY_WINDOW - HISTORY_OVERLAP)
        decreases MAX_WINDOWS_PER_SYNC - i, !done
      {
        ghost var before := View();
        if answers {
          PlanSucceeds(before, c, openedAt, target);
        }
        var ok, window := NextFundingWindow(c, openedAt, target);
        if !ok {
          complete, done := false, true;
        } else {
          PlanIsSound(before, history, c, openedAt, target);
          OthersKeptChain(old(View()), before, View(), KeyOf(c));
          if window.None? {
            done := true;
          } else {
            var answer := source(window.value);
            if answer.None? {
              complete, done := false, true;
            } else {
              ghost var planned := View();
              if answers {
                PlannedWindowApplies(before, history, c, openedAt, target, answer.value);
              }
              ok := ApplyFundingWindow(c, openedAt, window.value, answer.value);
              if !ok {
                complete, done := false, true;
              } else {
                WindowKeepsExact(planned, history, c, openedAt, window.value, answer.value);
                AppliedThrough(planned, c, openedAt, window.value, answer.value);
                OthersKeptChain(old(View()), planned, View(), KeyOf(c));
              }
            }
          }
        }
        i := i + 1;
      }
    }

    /** A sync can cover the target: the venue answers, and it is within four windows. */
    ghost predicate Syncable(c: Account, openedAt: int, target: int, source: Window -> Option<seq<Payment>>)
      reads this
    {
      var begin := if Through(View(), c).Some? then Through(View(), c).value else openedAt;
      && Plannable(View(), c, openedAt, target) && AlwaysAnswers(c, source)
      && target <= begin + MAX_WINDOWS_PER_SYNC * (HISTORY_WINDOW - HISTORY_OVERLAP)
    }

    /** Syncs both venues and publishes the total: the sum of the accepted records, among them
        all from the opening to the target. When the venues' records of the position lie
        within that time, it is exactly their sum. */
    method SyncPosition(
      a: Account, b: Account, openedAt: int, target: int, finalize: bool,
      sourceA: Window -> Option<seq<Payment>>, sourceB: Window -> Option<seq<Payment>>, ghost history: seq<Row>)
      returns (total: Option<real>)
      requires Exact(View(), history) && HistoryOk(history) && a.position == b.position && a.position !in finalized
      requires forall w :: sourceA(w).Some? ==>
                 FromHistory(a, sourceA(w).value, history) && FullAnswer(a, w, sourceA(w).value, history)
      requires forall w :: sourceB(w).Some? ==>
                 FromHistory(b, sourceB(w).value, history) && FullAnswer(b, w, sourceB(w).value, history)
      modifies this
      ensures Exact(View(), history)
      ensures (old(Syncable(a, openedAt, target, sourceA)) && old(Syncable(b, openedAt, target, sourceB))
               && a.venue != b.venue) ==> total.Some?
      ensures total.Some? && finalize ==> a.position in finalized
      ensures total.Some? ==> a.position in realized && realized[a.position] == total.value
      ensures total.Some? ==>
                var accepted := AcceptedOf(View(), history);
                && total.value == Amount(accepted, KeyOf(a)) + Amount(accepted, KeyOf(b))
                && forall r :: r in history && openedAt <= r.paidAt <= target ==>
                     For(r, KeyOf(a)) || For(r, KeyOf(b)) ==> r in accepted
      ensures total.Some?
              && (forall r :: r in history && r.position == a.position ==> openedAt <= r.paidAt <= target) ==>
                total.value == Amount(history, KeyOf(a)) + Amount(history, KeyOf(b))
    {
      hide Exact, Distinct, HistoryOk, FromHistory, FullAnswer;
      var completeA := SyncVenue(a, openedAt, target, sourceA, history);
      if a.venue != b.venue {
        OthersPlannable(old(View()), View(), KeyOf(a), b, openedAt, target);
      }
      var completeB := SyncVenue(b, openedAt, target, sourceB, history);
      ghost var synced := View();
      total := ReconcileFunding(a.position, a.venue, b.venue, openedAt, target, finalize);
      StepKeepsExact(synced, history, Publish(a.position, a.venue, b.venue, openedAt, target, finalize));
      if total.Some? {
        PublishedTotalIsAccepted(synced, history, a.position, a.venue, b.venue, openedAt, target, finalize);
        SameLogSameAccepted(synced, View(), history);
      }
      if total.Some? && forall r :: r in history && r.position == a.position ==> openedAt <= r.paidAt <= target {
        PublishedTotalIsHistory(synced, history, a.position, a.venue, b.venue, openedAt, target, finalize);
      }
    }
  }

  lemma {:induction false} SameLogSameAccepted(l: Ledger, m: Ledger, history: seq<Row>)
    requires l.log == m.log
    ensures AcceptedOf(l, history) == AcceptedOf(m, history)
  {
    if history != [] {
      SameLogSameAccepted(l, m, history[..|history| - 1]);
    }
  }

  lemma PlanIsSound(l: Ledger, history: seq<Row>, c: Account, openedAt: int, target: int)
    requires Exact(l, history) && HistoryOk(history) && NextWindow(l, c, openedAt, target).Some?
    ensures var (planned, window) := NextWindow(l, c, openedAt, target).value;
            && Exact(planned, history) && planned.finalized == l.finalized && planned.realized == l.realized
            && Through(planned, c) == Through(l, c)
            && OthersKept(l, planned, KeyOf(c))
            && KeyOf(c) in planned.coverage && planned.coverage[KeyOf(c)].start == openedAt
            && (EnsureCoverage(l, c, openedAt).Some? ==> EnsureCoverage(planned, c, openedAt).Some?)
            && (window.None? ==> Through(l, c).Some? && Through(l, c).value >= target)
            && (window.Some? ==>
                  && Recent(planned, KeyOf(c), window.value.since)
                  && var after := Later(Through(l, c), window.value.until);
                     after >= target
                     || after >= (if Through(l, c).Some? then Through(l, c).value else openedAt)
                                 + HISTORY_WINDOW - HISTORY_OVERLAP)
  {
    StepKeepsExact(l, history, Plan(c, openedAt, target));
    if NextWindow(l, c, openedAt, target).value.1.Some? {
      PlannedWindowAdvances(l, c, openedAt, target);
    }
  }

  lemma OthersKeptChain(l: Ledger, m: Ledger, n: Ledger, k: Key)
    ensures OthersKept(l, l, k)
    ensures OthersKept(l, m, k) && OthersKept(m, n, k) ==> OthersKept(l, n, k)
  {
  }

  lemma OthersPlannable(l: Ledger, m: Ledger, k: Key, c: Account, openedAt: int, target: int)
    requires OthersKept(l, m, k) && KeyOf(c) != k
    ensures Plannable(l, c, openedAt, target) <==> Plannable(m, c, openedAt, target)
    ensures Through(l, c) == Through(m, c)
  {
  }

  lemma PlanSucceeds(l: Ledger, c: Account, openedAt: int, target: int)
    requires Plannable(l, c, openedAt, target)
    ensures NextWindow(l, c, openedAt, target).Some?
  {
  }

  lemma PlannedWindowApplies(
    l: Ledger, history: seq<Row>, c: Account, openedAt: int, target: int, payments: seq<Payment>)
    requires Exact(l, history) && HistoryOk(history) && FromHistory(c, payments, history)
    requires var plan := NextWindow(l, c, openedAt, target); plan.Some? && plan.value.1.Some?
    requires ValidAnswer(c, NextWindow(l, c, openedAt, target).value.1, payments)
    ensures var plan := NextWindow(l, c, openedAt, target).value;
            var applied := ApplyWindow(plan.0, c, openedAt, plan.1.value, payments);
            applied.Some? && EnsureCoverage(applied.value, c, openedAt).Some?
  {
    var plan := NextWindow(l, c, openedAt, target).value;
    PlannedWindowAdvances(l, c, openedAt, target);
    RecordsNeverConflict(Batch(l.rows, l.log, 0.0, 0), history, c, plan.1, payments);
  }

  lemma AppliedThrough(l: Ledger, c: Account, openedAt: int, w: Window, payments: seq<Payment>)
    requires ApplyWindow(l, c, openedAt, w, payments).Some?
    ensures var l' := ApplyWindow(l, c, openedAt, w, payments).value;
            && Through(l', c) == Some(Later(Through(l, c), w.until))
            && l'.finalized == l.finalized && l'.realized == l.realized
            && OthersKept(l, l', KeyOf(c)) && KeyOf(c) in l'.coverage && l'.coverage[KeyOf(c)].start == openedAt
  {
  }
}
