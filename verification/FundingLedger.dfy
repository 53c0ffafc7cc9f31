/** The funding ledger: per position and venue a running amount and count of funding
    payments, kept while raw payment rows are pruned and history windows overlap.

    Times are whole milliseconds, which is how the store keeps them. Each transaction is
    one function from ledger to ledger, `None` meaning that it rolled back. `log` and
    `applied` are history: every row ever inserted, and every window ever applied.
 */
module FundingLedger {
  import opened Basics

  const HOUR := 3_600_000
  const HISTORY_WINDOW := 7 * 24 * HOUR
  const HISTORY_OVERLAP := 24 * HOUR
  const RAW_RETENTION := 7 * 24 * HOUR
  const MAX_WINDOWS_PER_SYNC := 4
  const ZERO_TIME := -62135596800000

  datatype Payment = Payment(
    externalId: string, venue: string, account: string, asset: string, amount: real, paidAt: int)

  /** A live_funding_payments row; a legacy one has no paid_at_ms and is never pruned. */
  datatype Row = Row(
    position: string, venue: string, account: string, externalId: string,
    asset: string, amount: real, paidAt: int, legacy: bool)

  /** One account of one position at one venue. */
  datatype Account = Account(position: string, venue: string, account: string, asset: string)

  datatype Key = Key(position: string, venue: string)

  datatype Coverage = Coverage(account: string, start: int, through: Option<int>, amount: real, count: nat)

  datatype Window = Window(since: int, until: int)

  datatype Applied = Applied(key: Key, window: Window)

  datatype Ledger = Ledger(
    rows: seq<Row>,
    coverage: map<Key, Coverage>,
    finalized: set<string>,
    realized: map<string, real>,
    log: seq<Row>,
    applied: seq<Applied>)

  // ----- rows

  function KeyOf(c: Account): Key { Key(c.position, c.venue) }

  /** The unique index of the table. */
  function Identity(r: Row): (string, string, string) { (r.venue, r.account, r.externalId) }

  function RowOf(c: Account, p: Payment): Row {
    Row(c.position, c.venue, c.account, p.externalId, p.asset, p.amount, p.paidAt, false)
  }

  predicate For(r: Row, k: Key) { r.position == k.position && r.venue == k.venue }

  /** The payment behind a row. */
  function Fact(r: Row): Row { r.(legacy := false) }

  function Find(rows: seq<Row>, id: (string, string, string)): Option<Row> {
    if rows == [] then None
    else if Identity(rows[0]) == id then Some(rows[0])
    else Find(rows[1..], id)
  }

  lemma {:induction false} FindFinds(rows: seq<Row>, id: (string, string, string))
    ensures match Find(rows, id)
            case Some(r) => r in rows && Identity(r) == id
            case None => forall r :: r in rows ==> Identity(r) != id
  {
    if rows != [] {
      FindFinds(rows[1..], id);
    }
  }

  predicate Distinct(rows: seq<Row>) {
    forall i, j :: 0 <= i < j < |rows| ==> Identity(rows[i]) != Identity(rows[j])
  }

  predicate Recorded(rows: seq<Row>, id: (string, string, string)) {
    exists r :: r in rows && Identity(r) == id
  }

  function Amount(rows: seq<Row>, k: Key): real {
    if rows == [] then 0.0
    else Amount(rows[..|rows| - 1], k) + (if For(rows[|rows| - 1], k) then rows[|rows| - 1].amount else 0.0)
  }

  function Count(rows: seq<Row>, k: Key): nat {
    if rows == [] then 0
    else Count(rows[..|rows| - 1], k) + (if For(rows[|rows| - 1], k) then 1 else 0)
  }

  lemma AppendRow(rows: seq<Row>, r: Row, k: Key)
    ensures Amount(rows + [r], k) == Amount(rows, k) + (if For(r, k) then r.amount else 0.0)
    ensures Count(rows + [r], k) == Count(rows, k) + (if For(r, k) then 1 else 0)
  {
    assert (rows + [r])[..|rows|] == rows;
  }

  /** A DELETE on the payment rows of a position: of one venue and before a time, or all. */
  datatype Deletion = Before(key: Key, cutoff: int) | AllOf(position: string)

  predicate Deleted(r: Row, d: Deletion) {
    && !r.legacy
    && match d
       case Before(k, cutoff) => For(r, k) && r.paidAt < cutoff
       case AllOf(position) => r.position == position
  }

  function Delete(rows: seq<Row>, d: Deletion): seq<Row> {
    if rows == [] then []
    else if Deleted(rows[|rows| - 1], d) then Delete(rows[..|rows| - 1], d)
    else Delete(rows[..|rows| - 1], d) + [rows[|rows| - 1]]
  }

  lemma {:induction false} DeleteKeeps(rows: seq<Row>, d: Deletion)
    ensures forall r :: r in Delete(rows, d) <==> r in rows && !Deleted(r, d)
    ensures Distinct(rows) ==> Distinct(Delete(rows, d))
  {
    if rows != [] {
      var front, last := rows[..|rows| - 1], rows[|rows| - 1];
      DeleteKeeps(front, d);
      assert rows == front + [last];
      if Distinct(rows) && !Deleted(last, d) {
        var kept := Delete(front, d);
        forall i | 0 <= i < |kept|
          ensures Identity(kept[i]) != Identity(last)
        {
          assert kept[i] in front;
        }
      }
    }
  }

  lemma {:induction false} DeleteKeepsTotals(rows: seq<Row>, d: Deletion, k: Key)
    requires forall r :: r in rows && For(r, k) ==> !Deleted(r, d)
    ensures Amount(Delete(rows, d), k) == Amount(rows, k)
    ensures Count(Delete(rows, d), k) == Count(rows, k)
  {
    if rows != [] {
      var front, last := rows[..|rows| - 1], rows[|rows| - 1];
      assert rows == front + [last];
      DeleteKeepsTotals(front, d, k);
      AppendRow(Delete(front, d), last, k);
    }
  }

  // ----- inserting a batch

  /** The state of a transaction in the middle of a batch. */
  datatype Batch = Batch(rows: seq<Row>, log: seq<Row>, amount: real, count: nat)

  predicate ValidPayment(c: Account, window: Option<Window>, p: Payment) {
    && p.externalId != "" && p.venue == c.venue && p.account == c.account && p.asset == c.asset
    && p.paidAt != ZERO_TIME
    && (window.Some? ==> window.value.since <= p.paidAt <= window.value.until)
  }

  function InsertOne(b: Batch, c: Account, window: Option<Window>, p: Payment): Option<Batch> {
    var row := RowOf(c, p);
    var existing := Find(b.rows, Identity(row));
    if !ValidPayment(c, window, p) then None
    else if existing.None? then Some(Batch(b.rows + [row], b.log + [row], b.amount + p.amount, b.count + 1))
    else if Fact(existing.value) == row then Some(b)
    else None
  }

  function InsertAll(b: Batch, c: Account, window: Option<Window>, payments: seq<Payment>): Option<Batch>
    decreases |payments|
  {
    if payments == [] then Some(b)
    else
      var next := InsertOne(b, c, window, payments[0]);
      if next.None? then None else InsertAll(next.value, c, window, payments[1..])
  }

  // ----- transactions

  /** Creates the coverage row on first use, seeded with the rows already stored. */
  function EnsureCoverage(l: Ledger, c: Account, openedAt: int): Option<Ledger> {
    var k := KeyOf(c);
    if c.venue == "" || c.account == "" then None
    else if k !in l.coverage then
      Some(l.(coverage := l.coverage[k := Coverage(c.account, openedAt, None, Amount(l.rows, k), Count(l.rows, k))]))
    else if l.coverage[k].account != c.account || l.coverage[k].start != openedAt then None
    else Some(l)
  }

  /** The window to fetch next, or none when coverage has reached the target. */
  function NextWindow(l: Ledger, c: Account, openedAt: int, target: int): Option<(Ledger, Option<Window>)> {
    var ensured := EnsureCoverage(l, c, openedAt);
    if c.position == "" || openedAt == ZERO_TIME || target < openedAt || ensured.None? then None
    else
      var through := ensured.value.coverage[KeyOf(c)].through;
      if through.Some? && through.value >= target then Some((ensured.value, None))
      else
        var since := if through.None? || through.value - HISTORY_OVERLAP < openedAt then openedAt
                     else through.value - HISTORY_OVERLAP;
        var until := if since + HISTORY_WINDOW > target then target else since + HISTORY_WINDOW;
        Some((ensured.value, Some(Window(since, until))))
  }

  predicate WindowAllowed(openedAt: int, through: Option<int>, w: Window) {
    && openedAt <= w.since <= w.until <= w.since + HISTORY_WINDOW
    && (if through.Some? then w.since <= through.value + 1 else w.since == openedAt)
  }

  function Later(through: Option<int>, until: int): int {
    if through.Some? && through.value > until then through.value else until
  }

  function Add(cov: Coverage, b: Batch): Coverage {
    cov.(amount := cov.amount + b.amount, count := cov.count + b.count)
  }

  function ApplyWindow(l: Ledger, c: Account, openedAt: int, w: Window, payments: seq<Payment>): Option<Ledger> {
    var k := KeyOf(c);
    var ensured := EnsureCoverage(l, c, openedAt);
    if ensured.None? || !WindowAllowed(openedAt, ensured.value.coverage[k].through, w) then None
    else
      var e := ensured.value;
      var inserted := InsertAll(Batch(e.rows, e.log, 0.0, 0), c, Some(w), payments);
      if inserted.None? then None
      else
        var through := Later(e.coverage[k].through, w.until);
        Some(e.(rows := Delete(inserted.value.rows, Before(k, through - RAW_RETENTION)),
                log := inserted.value.log,
                coverage := e.coverage[k := Add(e.coverage[k], inserted.value).(through := Some(through))],
                applied := e.applied + [Applied(k, w)]))
  }

  function ApplyObserved(l: Ledger, c: Account, openedAt: int, payments: seq<Payment>): Option<Ledger> {
    var k := KeyOf(c);
    var ensured := EnsureCoverage(l, c, openedAt);
    if payments == [] || c.position in l.finalized then Some(l)
    else if ensured.None? then None
    else
      var e := ensured.value;
      var inserted := InsertAll(Batch(e.rows, e.log, 0.0, 0), c, None, payments);
      if inserted.None? then None
      else
        var through := e.coverage[k].through;
        Some(e.(rows := if through.Some? then Delete(inserted.value.rows, Before(k, through.value - RAW_RETENTION))
                        else inserted.value.rows,
                log := inserted.value.log,
                coverage := e.coverage[k := Add(e.coverage[k], inserted.value)]))
  }

  predicate CoveredTo(l: Ledger, k: Key, openedAt: int, target: int) {
    && k in l.coverage && l.coverage[k].start <= openedAt
    && l.coverage[k].through.Some? && l.coverage[k].through.value >= target
  }

  /** Publishes the total of a position once both venues are covered up to the target. */
  function Reconcile(
    l: Ledger, position: string, venueA: string, venueB: string, openedAt: int, target: int, finalize: bool
  ): (Ledger, Option<real>) {
    var a, b := Key(position, venueA), Key(position, venueB);
    if venueA == venueB || !CoveredTo(l, a, openedAt, target) || !CoveredTo(l, b, openedAt, target) then (l, None)
    else
      var total := l.coverage[a].amount + l.coverage[b].amount;
      (l.(realized := l.realized[position := total],
          finalized := if finalize then l.finalized + {position} else l.finalized,
          rows := if finalize then Delete(l.rows, AllOf(position)) else l.rows),
       Some(total))
  }

  // ----- the books

  /** Stored rows are inserts; totals and coverage describe the inserts and windows of their key. */
  ghost predicate Books(l: Ledger) {
    && Distinct(l.rows)
    && (forall r :: r in l.rows ==> r in l.log)
    && (forall k :: k in l.coverage ==> Balanced(l, k) && NoGap(l, k))
    && (forall k: Key :: k !in l.coverage && k.position !in l.finalized ==>
          Amount(l.rows, k) == Amount(l.log, k) && Count(l.rows, k) == Count(l.log, k))
    && (forall r :: r in l.log && r !in l.rows ==> Prunable(l, r))
  }

  predicate Balanced(l: Ledger, k: Key)
    requires k in l.coverage
  {
    k.position in l.finalized
    || (l.coverage[k].amount == Amount(l.log, k) && l.coverage[k].count == Count(l.log, k))
  }

  /** Every millisecond of the covered time lies in an applied window. */
  ghost predicate NoGap(l: Ledger, k: Key)
    requires k in l.coverage
  {
    l.coverage[k].through.Some? ==>
      && l.coverage[k].start <= l.coverage[k].through.value
      && forall t: int :: l.coverage[k].start <= t <= l.coverage[k].through.value ==> Fetched(l.applied, k, t)
  }

  predicate Fetched(applied: seq<Applied>, k: Key, t: int) {
    exists a :: a in applied && a.key == k && a.window.since <= t <= a.window.until
  }

  /** Why an insert may have lost its row. */
  predicate Prunable(l: Ledger, r: Row) {
    var k := Key(r.position, r.venue);
    || r.position in l.finalized
    || (k in l.coverage && l.coverage[k].through.Some? && r.paidAt < l.coverage[k].through.value - RAW_RETENTION)
  }

  // ----- what a batch does

  predicate Within(part: seq<Row>, whole: seq<Row>) {
    forall r :: r in part ==> r in whole
  }

  lemma InsertOneKeeps(b: Batch, c: Account, window: Option<Window>, p: Payment)
    requires Distinct(b.rows) && InsertOne(b, c, window, p).Some?
    ensures var b' := InsertOne(b, c, window, p).value;
            var row := RowOf(c, p);
            if Recorded(b.rows, Identity(row)) then b' == b && exists r :: r in b.rows && Fact(r) == row
            else Distinct(b'.rows) && b' == Batch(b.rows + [row], b.log + [row], b.amount + p.amount, b.count + 1)
    ensures exists r :: r in InsertOne(b, c, window, p).value.rows && Fact(r) == RowOf(c, p)
  {
    var row := RowOf(c, p);
    FindFinds(b.rows, Identity(row));
    assert row in b.rows + [row] && Fact(row) == row;
  }

  /** A batch appends the same new rows to the table and to the inserts, and counts them. */
  lemma {:induction false} BatchAppends(b: Batch, c: Account, window: Option<Window>, payments: seq<Payment>)
    requires Distinct(b.rows) && InsertAll(b, c, window, payments).Some?
    ensures var b' := InsertAll(b, c, window, payments).value;
            Distinct(b'.rows) && b.log <= b'.log && b'.rows == b.rows + b'.log[|b.log|..]
    decreases |payments|
  {
    if payments != [] {
      InsertOneKeeps(b, c, window, payments[0]);
      var next := InsertOne(b, c, window, payments[0]).value;
      BatchAppends(next, c, window, payments[1..]);
    }
  }

  lemma {:induction false} BatchCounts(b: Batch, c: Account, window: Option<Window>, payments: seq<Payment>, k: Key)
    requires Distinct(b.rows) && InsertAll(b, c, window, payments).Some?
    ensures var b' := InsertAll(b, c, window, payments).value;
            && b'.count >= b.count
            && Amount(b'.log, k) == Amount(b.log, k) + (if k == KeyOf(c) then b'.amount - b.amount else 0.0)
            && Amount(b'.rows, k) == Amount(b.rows, k) + (if k == KeyOf(c) then b'.amount - b.amount else 0.0)
            && Count(b'.log, k) == Count(b.log, k) + (if k == KeyOf(c) then b'.count - b.count else 0)
            && Count(b'.rows, k) == Count(b.rows, k) + (if k == KeyOf(c) then b'.count - b.count else 0)
    decreases |payments|
  {
    if payments != [] {
      var p := payments[0];
      InsertOneKeeps(b, c, window, p);
      AppendRow(b.rows, RowOf(c, p), k);
      AppendRow(b.log, RowOf(c, p), k);
      BatchCounts(InsertOne(b, c, window, p).value, c, window, payments[1..], k);
    }
  }

  /** Every payment of the batch is stored; whatever was inserted came from the batch. */
  lemma {:induction false} BatchStores(b: Batch, c: Account, window: Option<Window>, payments: seq<Payment>)
    requires Distinct(b.rows) && InsertAll(b, c, window, payments).Some?
    ensures var b' := InsertAll(b, c, window, payments).value;
            && (forall p :: p in payments ==> exists r :: r in b'.rows && Fact(r) == RowOf(c, p))
            && (forall r :: r in b'.log ==> r in b.log || exists p :: p in payments && r == RowOf(c, p))
            && (forall p :: p in payments ==> ValidPayment(c, window, p))
    decreases |payments|
  {
    if payments != [] {
      InsertOneKeeps(b, c, window, payments[0]);
      var next := InsertOne(b, c, window, payments[0]).value;
      BatchStores(next, c, window, payments[1..]);
      BatchAppends(next, c, window, payments[1..]);
      var b' := InsertAll(b, c, window, payments).value;
      forall p | p in payments
        ensures exists r :: r in b'.rows && Fact(r) == RowOf(c, p)
      {
        if p == payments[0] {
          var r :| r in next.rows && Fact(r) == RowOf(c, p);
          assert r in b'.rows;
        } else {
          assert p in payments[1..];
        }
      }
    }
  }

  /** A payment whose insert is remembered only in history: its row was pruned. */
  predicate Forgotten(rows: seq<Row>, log: seq<Row>, c: Account, p: Payment) {
    Recorded(log, Identity(RowOf(c, p))) && !Recorded(rows, Identity(RowOf(c, p)))
  }

  lemma DistinctPrefix(rows: seq<Row>, more: seq<Row>)
    requires rows <= more && Distinct(more)
    ensures Distinct(rows)
  {
    assert forall i :: 0 <= i < |rows| ==> rows[i] == more[i];
  }

  lemma AppendDistinct(rows: seq<Row>, r: Row)
    requires Distinct(rows)
    ensures Distinct(rows + [r]) <==> !Recorded(rows, Identity(r))
    ensures forall id :: Recorded(rows + [r], id) <==> Recorded(rows, id) || id == Identity(r)
  {
    var all := rows + [r];
    assert all[|rows|] == r;
    assert r in all;
    if Recorded(rows, Identity(r)) {
      var s :| s in rows && Identity(s) == Identity(r);
      var i :| 0 <= i < |rows| && rows[i] == s;
      assert all[i] == s;
    }
  }

  /** Exactly once: a batch inserts no payment twice if and only if none of its payments
      was inserted before and has lost its row. */
  lemma {:induction false} BatchExactlyOnce(b: Batch, c: Account, window: Option<Window>, payments: seq<Payment>)
    requires Distinct(b.rows) && Distinct(b.log) && Within(b.rows, b.log) && InsertAll(b, c, window, payments).Some?
    ensures Distinct(InsertAll(b, c, window, payments).value.log)
            <==> forall p :: p in payments ==> !Forgotten(b.rows, b.log, c, p)
    decreases |payments|
  {
    if payments != [] {
      var p := payments[0];
      var row := RowOf(c, p);
      InsertOneKeeps(b, c, window, p);
      var next := InsertOne(b, c, window, p).value;
      var rest := payments[1..];
      assert payments == [p] + rest;
      if next == b {
        BatchExactlyOnce(b, c, window, rest);
      } else {
        AppendDistinct(b.log, row);
        AppendDistinct(b.rows, row);
        if Recorded(b.log, Identity(row)) {
          assert p in payments && Forgotten(b.rows, b.log, c, p);
          BatchAppends(next, c, window, rest);
          if Distinct(InsertAll(b, c, window, payments).value.log) {
            DistinctPrefix(next.log, InsertAll(b, c, window, payments).value.log);
          }
        } else {
          BatchExactlyOnce(next, c, window, rest);
          assert forall q :: Forgotten(next.rows, next.log, c, q) <==> Forgotten(b.rows, b.log, c, q);
        }
      }
    }
  }

  // ----- what a transaction keeps

  lemma EnsureKeepsBooks(l: Ledger, c: Account, openedAt: int)
    requires Books(l) && EnsureCoverage(l, c, openedAt).Some?
    ensures Books(EnsureCoverage(l, c, openedAt).value)
  {
    var e := EnsureCoverage(l, c, openedAt).value;
    forall k | k in e.coverage
      ensures Balanced(e, k) && NoGap(e, k)
    {
      if k in l.coverage {
        assert Balanced(l, k) && NoGap(l, k);
      }
    }
    forall r | r in e.log && r !in e.rows
      ensures Prunable(e, r)
    {
      assert Prunable(l, r);
    }
  }

  /** `l'` is `e` with a batch added to the totals of its key, and perhaps old rows pruned. */
  predicate Posted(e: Ledger, c: Account, window: Option<Window>, payments: seq<Payment>, l': Ledger) {
    var inserted := InsertAll(Batch(e.rows, e.log, 0.0, 0), c, window, payments);
    var k := KeyOf(c);
    && inserted.Some? && k in e.coverage && l'.coverage.Keys == e.coverage.Keys
    && l'.log == inserted.value.log && l'.finalized == e.finalized
    && (forall j :: j in e.coverage && j != k ==> l'.coverage[j] == e.coverage[j])
    && l'.coverage[k].amount == e.coverage[k].amount + inserted.value.amount
    && l'.coverage[k].count == e.coverage[k].count + inserted.value.count
    && (e.coverage[k].through.Some? ==>
          l'.coverage[k].through.Some? && l'.coverage[k].through.value >= e.coverage[k].through.value)
    && (l'.rows == inserted.value.rows
        || (l'.coverage[k].through.Some?
            && l'.rows == Delete(inserted.value.rows, Before(k, l'.coverage[k].through.value - RAW_RETENTION))))
  }

  lemma PostingKeepsTotals(e: Ledger, c: Account, window: Option<Window>, payments: seq<Payment>, l': Ledger)
    requires Books(e) && Posted(e, c, window, payments, l')
    ensures forall j :: j in l'.coverage ==> Balanced(l', j)
    ensures forall j: Key :: j !in l'.coverage && j.position !in l'.finalized ==>
              Amount(l'.rows, j) == Amount(l'.log, j) && Count(l'.rows, j) == Count(l'.log, j)
  {
    hide Find, InsertAll, Distinct, Prunable;
    var b0 := Batch(e.rows, e.log, 0.0, 0);
    var b := InsertAll(b0, c, window, payments).value;
    var k := KeyOf(c);
    forall j | j in l'.coverage
      ensures Balanced(l', j)
    {
      assert Balanced(e, j);
      BatchCounts(b0, c, window, payments, j);
    }
    forall j: Key | j !in l'.coverage && j.position !in l'.finalized
      ensures Amount(l'.rows, j) == Amount(l'.log, j) && Count(l'.rows, j) == Count(l'.log, j)
    {
      BatchCounts(b0, c, window, payments, j);
      if l'.rows != b.rows {
        DeleteKeepsTotals(b.rows, Before(k, l'.coverage[k].through.value - RAW_RETENTION), j);
      }
    }
  }

  lemma PostingKeepsBooks(e: Ledger, c: Account, window: Option<Window>, payments: seq<Payment>, l': Ledger)
    requires Books(e) && Posted(e, c, window, payments, l')
    requires forall j :: j in l'.coverage ==> NoGap(l', j)
    ensures Books(l')
  {
    hide Find, InsertAll, Distinct, NoGap, Balanced;
    var b0 := Batch(e.rows, e.log, 0.0, 0);
    var b := InsertAll(b0, c, window, payments).value;
    var k := KeyOf(c);
    BatchAppends(b0, c, window, payments);
    if l'.rows != b.rows {
      DeleteKeeps(b.rows, Before(k, l'.coverage[k].through.value - RAW_RETENTION));
    }
    forall r | r in l'.log && r !in l'.rows
      ensures Prunable(l', r)
    {
      if r !in b.rows {
        assert r !in e.rows && r in e.log;
        assert Prunable(e, r);
      }
    }
    PostingKeepsTotals(e, c, window, payments, l');
  }

  lemma WindowKeepsBooks(l: Ledger, c: Account, openedAt: int, w: Window, payments: seq<Payment>)
    requires Books(l) && ApplyWindow(l, c, openedAt, w, payments).Some?
    ensures Books(ApplyWindow(l, c, openedAt, w, payments).value)
  {
    hide Books, Find;
    EnsureKeepsBooks(l, c, openedAt);
    var e := EnsureCoverage(l, c, openedAt).value;
    var l' := ApplyWindow(l, c, openedAt, w, payments).value;
    var k := KeyOf(c);
    forall j | j in l'.coverage
      ensures NoGap(l', j)
    {
      BooksNoGap(e, j);
      WindowLeavesNoGap(e, c, openedAt, w, l', j);
    }
    PostingKeepsBooks(e, c, Some(w), payments, l');
  }

  lemma BooksNoGap(l: Ledger, k: Key)
    requires Books(l) && k in l.coverage
    ensures NoGap(l, k)
  {
  }

  lemma WindowLeavesNoGap(e: Ledger, c: Account, openedAt: int, w: Window, l': Ledger, j: Key)
    requires KeyOf(c) in e.coverage && j in e.coverage && NoGap(e, j)
    requires e.coverage[KeyOf(c)].start == openedAt && WindowAllowed(openedAt, e.coverage[KeyOf(c)].through, w)
    requires l'.applied == e.applied + [Applied(KeyOf(c), w)]
    requires j in l'.coverage && l'.coverage[j].start == e.coverage[j].start
    requires l'.coverage[j].through == if j == KeyOf(c) then Some(Later(e.coverage[j].through, w.until))
             else e.coverage[j].through
    ensures NoGap(l', j)
  {
    var step := Applied(KeyOf(c), w);
    assert step in l'.applied;
    forall t: int | l'.coverage[j].through.Some? && l'.coverage[j].start <= t <= l'.coverage[j].through.value
      ensures Fetched(l'.applied, j, t)
    {
      if e.coverage[j].through.Some? && t <= e.coverage[j].through.value {
        assert Fetched(e.applied, j, t);
        var a :| a in e.applied && a.key == j && a.window.since <= t <= a.window.until;
        assert a in l'.applied;
      }
    }
  }

  lemma ObservedKeepsBooks(l: Ledger, c: Account, openedAt: int, payments: seq<Payment>)
    requires Books(l) && ApplyObserved(l, c, openedAt, payments).Some?
    ensures Books(ApplyObserved(l, c, openedAt, payments).value)
  {
    hide Books, Find;
    if payments != [] && c.position !in l.finalized {
      EnsureKeepsBooks(l, c, openedAt);
      var e := EnsureCoverage(l, c, openedAt).value;
      var l' := ApplyObserved(l, c, openedAt, payments).value;
      forall j | j in l'.coverage
        ensures NoGap(l', j)
      {
        BooksNoGap(e, j);
        assert l'.applied == e.applied && l'.coverage[j].through == e.coverage[j].through;
        assert l'.coverage[j].start == e.coverage[j].start;
      }
      PostingKeepsBooks(e, c, None, payments, l');
    }
  }

  lemma ReconcileKeepsBooks(
    l: Ledger, position: string, venueA: string, venueB: string, openedAt: int, target: int, finalize: bool)
    requires Books(l)
    ensures Books(Reconcile(l, position, venueA, venueB, openedAt, target, finalize).0)
  {
    var l' := Reconcile(l, position, venueA, venueB, openedAt, target, finalize).0;
    DeleteKeeps(l.rows, AllOf(position));
    forall k: Key | k !in l'.coverage && k.position !in l'.finalized
      ensures Amount(l'.rows, k) == Amount(l'.log, k) && Count(l'.rows, k) == Count(l'.log, k)
    {
      if l'.rows != l.rows {
        DeleteKeepsTotals(l.rows, AllOf(position), k);
      }
    }
    forall k | k in l'.coverage
      ensures Balanced(l', k) && NoGap(l', k)
    {
      assert Balanced(l, k) && NoGap(l, k);
    }
    forall r | r in l'.log && r !in l'.rows
      ensures Prunable(l', r)
    {
      if r !in l.rows {
        assert Prunable(l, r);
      }
    }
  }

  // ----- exactly once

  /** A window counts every payment once if and only if it brings back none whose row was pruned. */
  lemma WindowExactlyOnce(l: Ledger, c: Account, openedAt: int, w: Window, payments: seq<Payment>)
    requires Books(l) && Distinct(l.log) && ApplyWindow(l, c, openedAt, w, payments).Some?
    ensures Distinct(ApplyWindow(l, c, openedAt, w, payments).value.log)
            <==> forall p :: p in payments ==> !Forgotten(l.rows, l.log, c, p)
  {
    BatchExactlyOnce(Batch(l.rows, l.log, 0.0, 0), c, Some(w), payments);
  }

  lemma ObservedExactlyOnce(l: Ledger, c: Account, openedAt: int, payments: seq<Payment>)
    requires Books(l) && Distinct(l.log) && ApplyObserved(l, c, openedAt, payments).Some? && c.position !in l.finalized
    ensures Distinct(ApplyObserved(l, c, openedAt, payments).value.log)
            <==> forall p :: p in payments ==> !Forgotten(l.rows, l.log, c, p)
  {
    if payments != [] {
      BatchExactlyOnce(Batch(l.rows, l.log, 0.0, 0), c, None, payments);
    }
  }

  /** The venues' own records: every payment of every position, each with its own id. */
  predicate HistoryOk(history: seq<Row>) {
    Distinct(history) && forall r :: r in history ==> !r.legacy
  }

  predicate FromHistory(c: Account, payments: seq<Payment>, history: seq<Row>) {
    forall p :: p in payments ==> RowOf(c, p) in history
  }

  predicate InWindow(r: Row, k: Key, w: Window) {
    For(r, k) && w.since <= r.paidAt <= w.until
  }

  /** The venue answered with all it has in the window. */
  predicate FullAnswer(c: Account, w: Window, payments: seq<Payment>, history: seq<Row>) {
    forall r :: r in history && InWindow(r, KeyOf(c), w) ==> exists p :: p in payments && RowOf(c, p) == r
  }

  predicate Accepted(l: Ledger, r: Row) {
    exists s :: s in l.log && Fact(s) == r
  }

  predicate Truthful(l: Ledger, history: seq<Row>) {
    && (forall r :: r in l.log ==> Fact(r) in history)
    && (forall a, r :: a in l.applied && r in history && InWindow(r, a.key, a.window) ==> Accepted(l, r))
  }

  /** The ledger counts real payments, each once, and all that its windows asked for. */
  ghost predicate Exact(l: Ledger, history: seq<Row>) {
    Books(l) && Distinct(l.log) && Truthful(l, history)
  }

  /** No payment from `cutoff` on can have lost its row. */
  predicate Recent(l: Ledger, k: Key, since: int) {
    k in l.coverage && l.coverage[k].through.Some? ==> since >= l.coverage[k].through.value - RAW_RETENTION
  }

  lemma SameIdentity(history: seq<Row>, r: Row, s: Row)
    requires Distinct(history) && r in history && s in history && Identity(r) == Identity(s)
    ensures r == s
  {
    var i :| 0 <= i < |history| && history[i] == r;
    var j :| 0 <= j < |history| && history[j] == s;
  }

  lemma RecentNotForgotten(l: Ledger, history: seq<Row>, c: Account, p: Payment)
    requires Exact(l, history) && HistoryOk(history) && RowOf(c, p) in history
    requires c.position !in l.finalized && Recent(l, KeyOf(c), p.paidAt)
    ensures !Forgotten(l.rows, l.log, c, p)
  {
    var row := RowOf(c, p);
    if Forgotten(l.rows, l.log, c, p) {
      var r :| r in l.log && Identity(r) == Identity(row);
      assert r !in l.rows;
      SameIdentity(history, Fact(r), row);
    }
  }

  predicate ValidAnswer(c: Account, window: Option<Window>, payments: seq<Payment>) {
    forall p :: p in payments ==> ValidPayment(c, window, p)
  }

  /** Valid payments from the venues' records never conflict with stored rows. */
  lemma {:induction false} RecordsNeverConflict(
    b: Batch, history: seq<Row>, c: Account, window: Option<Window>, payments: seq<Payment>)
    requires HistoryOk(history) && FromHistory(c, payments, history) && ValidAnswer(c, window, payments)
    requires forall r :: r in b.rows ==> Fact(r) in history
    ensures InsertAll(b, c, window, payments).Some?
    decreases |payments|
  {
    if payments != [] {
      var p := payments[0];
      FindFinds(b.rows, Identity(RowOf(c, p)));
      var existing := Find(b.rows, Identity(RowOf(c, p)));
      if existing.Some? {
        SameIdentity(history, Fact(existing.value), RowOf(c, p));
      }
      var next := InsertOne(b, c, window, p).value;
      RecordsNeverConflict(next, history, c, window, payments[1..]);
    }
  }

  lemma WindowKeepsExact(
    l: Ledger, history: seq<Row>, c: Account, openedAt: int, w: Window, payments: seq<Payment>)
    requires Exact(l, history) && HistoryOk(history) && FromHistory(c, payments, history)
    requires FullAnswer(c, w, payments, history)
    requires c.position !in l.finalized && Recent(l, KeyOf(c), w.since)
    requires ApplyWindow(l, c, openedAt, w, payments).Some?
    ensures Exact(ApplyWindow(l, c, openedAt, w, payments).value, history)
  {
    hide Books, Distinct, Prunable, Find;
    var b0 := Batch(l.rows, l.log, 0.0, 0);
    var l' := ApplyWindow(l, c, openedAt, w, payments).value;
    BooksRows(l);
    BatchStores(b0, c, Some(w), payments);
    BatchAppends(b0, c, Some(w), payments);
    forall p | p in payments
      ensures !Forgotten(l.rows, l.log, c, p)
    {
      assert ValidPayment(c, Some(w), p);
      RecentNotForgotten(l, history, c, p);
    }
    WindowExactlyOnce(l, c, openedAt, w, payments);
    WindowKeepsBooks(l, c, openedAt, w, payments);
    StoredIsTruthful(l, history, c, Some(w), payments, l');
  }

  lemma BooksRows(l: Ledger)
    requires Books(l)
    ensures Distinct(l.rows) && Within(l.rows, l.log)
  {
  }

  lemma StoredIsTruthful(
    l: Ledger, history: seq<Row>, c: Account, window: Option<Window>, payments: seq<Payment>, l': Ledger)
    requires Truthful(l, history) && HistoryOk(history) && FromHistory(c, payments, history)
    requires Distinct(l.rows) && Within(l.rows, l.log)
    requires var b := InsertAll(Batch(l.rows, l.log, 0.0, 0), c, window, payments);
             b.Some? && l'.log == b.value.log
    requires if window.Some? then
               l'.applied == l.applied + [Applied(KeyOf(c), window.value)]
                 && FullAnswer(c, window.value, payments, history)
             else l'.applied == l.applied
    ensures Truthful(l', history)
  {
    var b0 := Batch(l.rows, l.log, 0.0, 0);
    var b := InsertAll(b0, c, window, payments).value;
    BatchStores(b0, c, window, payments);
    BatchAppends(b0, c, window, payments);
    forall a, r | a in l'.applied && r in history && InWindow(r, a.key, a.window)
      ensures Accepted(l', r)
    {
      if a in l.applied {
        assert Accepted(l, r);
        var s :| s in l.log && Fact(s) == r;
        assert s in l'.log;
      } else {
        var p :| p in payments && RowOf(c, p) == r;
        var s :| s in b.rows && Fact(s) == r;
        assert s in l'.log;
      }
    }
  }

  lemma ObservedKeepsExact(l: Ledger, history: seq<Row>, c: Account, openedAt: int, payments: seq<Payment>)
    requires Exact(l, history) && HistoryOk(history) && FromHistory(c, payments, history)
    requires forall p :: p in payments ==> Recent(l, KeyOf(c), p.paidAt)
    requires ApplyObserved(l, c, openedAt, payments).Some?
    ensures Exact(ApplyObserved(l, c, openedAt, payments).value, history)
  {
    hide Books, Distinct, Prunable, Find;
    if payments != [] && c.position !in l.finalized {
      var b0 := Batch(l.rows, l.log, 0.0, 0);
      BooksRows(l);
      forall p | p in payments
        ensures !Forgotten(l.rows, l.log, c, p)
      {
        RecentNotForgotten(l, history, c, p);
      }
      ObservedExactlyOnce(l, c, openedAt, payments);
      ObservedKeepsBooks(l, c, openedAt, payments);
      StoredIsTruthful(l, history, c, None, payments, ApplyObserved(l, c, openedAt, payments).value);
    }
  }

  // ----- what each transaction does

  /** Coverage is refused exactly without a venue or an account, or for another account or start
      than before; its first row counts what is stored, and nothing else changes. */
  lemma EnsuredExactly(l: Ledger, c: Account, openedAt: int)
    ensures var k, ensured := KeyOf(c), EnsureCoverage(l, c, openedAt);
            && (ensured.Some? <==>
                  && c.venue != "" && c.account != ""
                  && (k in l.coverage ==> l.coverage[k].account == c.account && l.coverage[k].start == openedAt))
            && (ensured.Some? ==>
                  var e := ensured.value;
                  && k in e.coverage && e.coverage[k].account == c.account && e.coverage[k].start == openedAt
                  && (k in l.coverage ==> e == l)
                  && (k !in l.coverage ==>
                        && e.coverage[k].through.None? && e.coverage[k].amount == Amount(l.rows, k)
                        && e.coverage[k].count == Count(l.rows, k) && e.coverage - {k} == l.coverage
                        && e == l.(coverage := e.coverage)))
  {
  }

  /** Another payment is stored under the same identity. */
  predicate Conflicts(rows: seq<Row>, row: Row) {
    exists r :: r in rows && Identity(r) == Identity(row)
      && (r.position != row.position || r.asset != row.asset || r.amount != row.amount || r.paidAt != row.paidAt)
  }

  lemma ConflictsAfter(rows: seq<Row>, row: Row, other: Row)
    requires !row.legacy && !other.legacy
    ensures Conflicts(rows + [row], other) <==>
              Conflicts(rows, other) || (Identity(row) == Identity(other) && row != other)
  {
    var all := rows + [row];
    assert row in all;
    if Conflicts(rows, other) {
      var r :| r in rows && Identity(r) == Identity(other)
        && (r.position != other.position || r.asset != other.asset || r.amount != other.amount
            || r.paidAt != other.paidAt);
      assert r in all;
    }
  }

  /** A batch succeeds exactly when every payment is the account's, has an id and a time, in the
      window if there is one, none conflicts with a stored one, and no two of the batch
      conflict. */
  lemma {:induction false} BatchSucceedsExactly(
    b: Batch, c: Account, window: Option<Window>, payments: seq<Payment>)
    requires Distinct(b.rows)
    ensures InsertAll(b, c, window, payments).Some? <==>
              && (forall p :: p in payments ==>
                    && p.externalId != "" && p.venue == c.venue && p.account == c.account && p.asset == c.asset
                    && p.paidAt != ZERO_TIME && !Conflicts(b.rows, RowOf(c, p))
                    && (window.Some? ==> window.value.since <= p.paidAt && p.paidAt <= window.value.until))
              && forall p, q :: p in payments && q in payments && p.externalId == q.externalId ==>
                   RowOf(c, p) == RowOf(c, q)
    decreases |payments|
  {
    if payments != [] {
      var p, rest := payments[0], payments[1..];
      var row := RowOf(c, p);
      assert payments == [p] + rest;
      FindFinds(b.rows, Identity(row));
      var existing := Find(b.rows, Identity(row));
      if existing.Some? {
        SameIdentityStored(b.rows, existing.value, row);
      }
      if InsertOne(b, c, window, p).Some? {
        InsertOneKeeps(b, c, window, p);
        var next := InsertOne(b, c, window, p).value;
        BatchSucceedsExactly(next, c, window, rest);
        forall q | q in rest
          ensures Conflicts(next.rows, RowOf(c, q)) <==>
                    Conflicts(b.rows, RowOf(c, q)) || (p.externalId == q.externalId && row != RowOf(c, q))
        {
          ConflictsAfter(b.rows, row, RowOf(c, q));
          if existing.Some? && p.externalId == q.externalId {
            SameIdentityStored(b.rows, existing.value, RowOf(c, q));
          }
        }
      }
    }
  }

  lemma SameIdentityStored(rows: seq<Row>, r: Row, row: Row)
    requires Distinct(rows) && r in rows && Identity(r) == Identity(row) && !row.legacy
    ensures Conflicts(rows, row) <==> r.(legacy := false) != row
  {
    forall s | s in rows && Identity(s) == Identity(row)
      ensures s == r
    {
      SameIdentity(rows, s, r);
    }
  }

  /** What is inserted: the payments not stored before. */
  predicate NewIn(rows: seq<Row>, c: Account, payments: seq<Payment>, r: Row) {
    !Recorded(rows, Identity(r)) && exists p :: p in payments && r == RowOf(c, p)
  }

  lemma {:induction false} BatchInsertsNew(b: Batch, c: Account, window: Option<Window>, payments: seq<Payment>)
    requires Distinct(b.rows) && InsertAll(b, c, window, payments).Some?
    ensures var b' := InsertAll(b, c, window, payments).value;
            forall r :: r in b'.rows <==> r in b.rows || NewIn(b.rows, c, payments, r)
    decreases |payments|
  {
    if payments != [] {
      var p, rest := payments[0], payments[1..];
      var row := RowOf(c, p);
      assert payments == [p] + rest;
      InsertOneKeeps(b, c, window, p);
      var next := InsertOne(b, c, window, p).value;
      AppendDistinct(b.rows, row);
      BatchInsertsNew(next, c, window, rest);
      BatchSucceedsExactly(b, c, window, payments);
      forall r
        ensures r in InsertAll(b, c, window, payments).value.rows <==> r in b.rows || NewIn(b.rows, c, payments, r)
      {
        if NewIn(b.rows, c, payments, r) {
          var q :| q in payments && r == RowOf(c, q);
          if q != p {
            assert q in rest;
          }
        }
        if NewIn(next.rows, c, rest, r) {
          var q :| q in rest && r == RowOf(c, q);
          assert q in payments;
        }
        assert p in payments;
      }
    }
  }

  /** A row is old once its key is covered seven days beyond it; rows without a time never are. */
  predicate Old(r: Row, k: Key, through: int) {
    r.position == k.position && r.venue == k.venue && !r.legacy && r.paidAt + RAW_RETENTION < through
  }

  /** A window is applied exactly when its account is covered, it lies after the opening within
      seven days and leaves no gap, and its batch succeeds. */
  lemma WindowAppliesExactly(l: Ledger, c: Account, openedAt: int, w: Window, payments: seq<Payment>)
    ensures ApplyWindow(l, c, openedAt, w, payments).Some? <==>
              && EnsureCoverage(l, c, openedAt).Some?
              && openedAt <= w.since <= w.until && w.until - w.since <= 7 * 24 * HOUR
              && (Through(l, c).None? ==> w.since == openedAt)
              && (Through(l, c).Some? ==> w.since - Through(l, c).value <= 1)
              && InsertAll(Batch(l.rows, l.log, 0.0, 0), c, Some(w), payments).Some?
  {
  }

  /** Only the total and coverage of one key move, its total by what was inserted. */
  predicate OnlyKeyChanged(l: Ledger, l': Ledger, k: Key, openedAt: int) {
    && k in l'.coverage && l'.coverage.Keys == l.coverage.Keys + {k}
    && (forall j :: j in l.coverage && j != k ==> l'.coverage[j] == l.coverage[j])
    && l'.coverage[k].start == openedAt && (k in l.coverage ==> l'.coverage[k].account == l.coverage[k].account)
    && l'.finalized == l.finalized && l'.realized == l.realized && l.log <= l'.log
    && var before := if k in l.coverage then l.coverage[k].amount else Amount(l.rows, k);
       var count := if k in l.coverage then l.coverage[k].count else Count(l.rows, k);
       && l'.coverage[k].amount == before + Amount(l'.log, k) - Amount(l.log, k)
       && l'.coverage[k].count == count + Count(l'.log, k) - Count(l.log, k)
  }

  lemma PostingChangesOnlyKey(
    l: Ledger, c: Account, openedAt: int, window: Option<Window>, payments: seq<Payment>, l': Ledger)
    requires Distinct(l.rows) && EnsureCoverage(l, c, openedAt).Some?
    requires InsertAll(Batch(l.rows, l.log, 0.0, 0), c, window, payments).Some?
    requires var e, k := EnsureCoverage(l, c, openedAt).value, KeyOf(c);
             var b := InsertAll(Batch(l.rows, l.log, 0.0, 0), c, window, payments).value;
             && l'.coverage.Keys == e.coverage.Keys && l'.finalized == l.finalized && l'.realized == l.realized
             && l'.log == b.log && (forall j :: j in e.coverage && j != k ==> l'.coverage[j] == e.coverage[j])
             && l'.coverage[k] == Add(e.coverage[k], b).(through := l'.coverage[k].through)
    ensures OnlyKeyChanged(l, l', KeyOf(c), openedAt)
  {
    var b := Batch(l.rows, l.log, 0.0, 0);
    BatchAppends(b, c, window, payments);
    BatchCounts(b, c, window, payments, KeyOf(c));
    EnsuredExactly(l, c, openedAt);
    hide InsertAll, Amount, Count, Distinct, EnsureCoverage;
  }

  /** It adds the payments not stored before to rows and total, moves coverage on, never back,
      and prunes exactly the old rows of its key; all else stays. */
  lemma WindowStores(l: Ledger, c: Account, openedAt: int, w: Window, payments: seq<Payment>)
    requires Books(l) && ApplyWindow(l, c, openedAt, w, payments).Some?
    ensures var l', k := ApplyWindow(l, c, openedAt, w, payments).value, KeyOf(c);
            && OnlyKeyChanged(l, l', k, openedAt) && l'.applied == l.applied + [Applied(k, w)]
            && l'.coverage[k].through.Some?
            && var through := l'.coverage[k].through.value;
               && (through == w.until || Through(l, c) == Some(through)) && through >= w.until
               && (Through(l, c).Some? ==> through >= Through(l, c).value)
               && (forall r :: r in l'.rows <==> (r in l.rows || NewIn(l.rows, c, payments, r)) && !Old(r, k, through))
  {
    var b := Batch(l.rows, l.log, 0.0, 0);
    var l' := ApplyWindow(l, c, openedAt, w, payments).value;
    BooksRows(l);
    hide Books;
    EnsuredExactly(l, c, openedAt);
    BatchInsertsNew(b, c, Some(w), payments);
    PostingChangesOnlyKey(l, c, openedAt, Some(w), payments, l');
    hide InsertAll, Delete, Amount, Count, Distinct, NewIn, OnlyKeyChanged, EnsureCoverage;
    DeleteOld(InsertAll(b, c, Some(w), payments).value.rows, KeyOf(c), l'.coverage[KeyOf(c)].through.value);
  }

  lemma DeleteOld(rows: seq<Row>, k: Key, through: int)
    ensures forall r :: r in Delete(rows, Before(k, through - RAW_RETENTION)) <==> r in rows && !Old(r, k, through)
  {
    DeleteKeeps(rows, Before(k, through - RAW_RETENTION));
  }

  /** Observed payments are stored exactly when there are none, the position is final, or the
      account is covered and the batch succeeds. */
  lemma ObservedAppliesExactly(l: Ledger, c: Account, openedAt: int, payments: seq<Payment>)
    ensures ApplyObserved(l, c, openedAt, payments).Some? <==>
              || payments == [] || c.position in l.finalized
              || (EnsureCoverage(l, c, openedAt).Some?
                  && InsertAll(Batch(l.rows, l.log, 0.0, 0), c, None, payments).Some?)
    ensures payments == [] || c.position in l.finalized ==> ApplyObserved(l, c, openedAt, payments) == Some(l)
  {
  }

  /** They are added to rows and total; coverage stays, and so do other keys. */
  lemma ObservedStores(l: Ledger, c: Account, openedAt: int, payments: seq<Payment>)
    requires Books(l) && ApplyObserved(l, c, openedAt, payments).Some?
    requires payments != [] && c.position !in l.finalized
    ensures var l', k := ApplyObserved(l, c, openedAt, payments).value, KeyOf(c);
            && OnlyKeyChanged(l, l', k, openedAt) && Through(l', c) == Through(l, c) && l'.applied == l.applied
            && (forall r :: r in l'.rows <==>
                  && (r in l.rows || NewIn(l.rows, c, payments, r))
                  && (Through(l, c).Some? ==> !Old(r, k, Through(l, c).value)))
  {
    var b := Batch(l.rows, l.log, 0.0, 0);
    var l' := ApplyObserved(l, c, openedAt, payments).value;
    BooksRows(l);
    hide Books;
    EnsuredExactly(l, c, openedAt);
    BatchInsertsNew(b, c, None, payments);
    PostingChangesOnlyKey(l, c, openedAt, None, payments, l');
    hide InsertAll, Delete, Amount, Count, Distinct, NewIn, OnlyKeyChanged, EnsureCoverage;
    if Through(l, c).Some? {
      DeleteOld(InsertAll(b, c, None, payments).value.rows, KeyOf(c), Through(l, c).value);
    }
  }

  /** A total is published exactly when both venues cover the time from the opening to the target,
      and is then realized; finalizing marks the position and leaves none of its rows that carry
      a time; nothing else changes. */
  lemma PublishedExactly(
    l: Ledger, position: string, venueA: string, venueB: string, openedAt: int, target: int, finalize: bool)
    ensures var (l', total) := Reconcile(l, position, venueA, venueB, openedAt, target, finalize);
            && (total.Some? <==>
                  && venueA != venueB
                  && forall venue :: venue in [venueA, venueB] ==>
                       && Key(position, venue) in l.coverage && l.coverage[Key(position, venue)].start <= openedAt
                       && l.coverage[Key(position, venue)].through.Some?
                       && l.coverage[Key(position, venue)].through.value >= target)
            && (total.None? ==> l' == l)
            && (total.Some? ==>
                  && position in l'.realized && l'.realized[position] == total.value
                  && l'.realized.Keys == l.realized.Keys + {position}
                  && (forall p :: p in l.realized && p != position ==> l'.realized[p] == l.realized[p])
                  && l'.coverage == l.coverage && l'.log == l.log && l'.applied == l.applied
                  && (forall p :: p in l'.finalized <==> p in l.finalized || (finalize && p == position))
                  && (forall r :: r in l'.rows <==> r in l.rows && !(finalize && r.position == position && !r.legacy))
                  && (!finalize ==> l'.rows == l.rows))
  {
    DeleteKeeps(l.rows, AllOf(position));
    assert venueA in [venueA, venueB] && venueB in [venueA, venueB];
  }

  // ----- planning windows

  function Through(l: Ledger, c: Account): Option<int> {
    if KeyOf(c) in l.coverage then l.coverage[KeyOf(c)].through else None
  }

  /** A planned window is accepted, is recent, and gets coverage to the target or at
      least six days further. */
  lemma PlannedWindowAdvances(l: Ledger, c: Account, openedAt: int, target: int)
    requires Books(l)
    requires var plan := NextWindow(l, c, openedAt, target); plan.Some? && plan.value.1.Some?
    ensures var plan := NextWindow(l, c, openedAt, target).value;
            var w := plan.1.value;
            var before := Through(l, c);
            && WindowAllowed(openedAt, before, w) && w.until <= target
            && Recent(plan.0, KeyOf(c), w.since)
            && ApplyWindow(plan.0, c, openedAt, w, []).Some?
            && var after := Later(before, w.until);
               after == target
               || (if before.Some? then after >= before.value + HISTORY_WINDOW - HISTORY_OVERLAP
                   else after == openedAt + HISTORY_WINDOW)
  {
    if KeyOf(c) in l.coverage {
      BooksNoGap(l, KeyOf(c));
    }
  }

  /** A plan fails exactly for a request that names nothing or ends before the opening, or whose
      coverage is refused. A planned window starts a day before the covered time, but not
      before the opening, and is as long as the target and seven days allow. */
  lemma PlannedExactly(l: Ledger, c: Account, openedAt: int, target: int)
    ensures var plan := NextWindow(l, c, openedAt, target);
            && (plan.Some? <==>
                  && c.position != "" && openedAt != ZERO_TIME && openedAt <= target
                  && EnsureCoverage(l, c, openedAt).Some?)
            && (plan.Some? ==> Some(plan.value.0) == EnsureCoverage(l, c, openedAt))
            && (plan.Some? && plan.value.1.Some? ==>
                  var w := plan.value.1.value;
                  && w.since >= openedAt
                  && (Through(l, c).None? ==> w.since == openedAt)
                  && (Through(l, c).Some? ==>
                        && w.since + 24 * HOUR >= Through(l, c).value
                        && (w.since == openedAt || w.since + 24 * HOUR == Through(l, c).value))
                  && w.until <= target && w.until - w.since <= 7 * 24 * HOUR
                  && (w.until == target || w.until - w.since == 7 * 24 * HOUR))
  {
  }

  /** Nothing is planned exactly when the target is already covered. */
  lemma NothingPlannedIffCovered(l: Ledger, c: Account, openedAt: int, target: int)
    requires NextWindow(l, c, openedAt, target).Some?
    ensures NextWindow(l, c, openedAt, target).value.1.None?
            <==> CoveredTo(l, KeyOf(c), openedAt, target) && l.coverage[KeyOf(c)].start == openedAt
  {
  }

  // ----- whole runs

  datatype Step =
    | Plan(c: Account, openedAt: int, target: int)
    | Fetch(c: Account, openedAt: int, w: Window, payments: seq<Payment>)
    | Observe(c: Account, openedAt: int, payments: seq<Payment>)
    | Publish(position: string, venueA: string, venueB: string, openedAt: int, target: int, finalize: bool)

  /** A failed transaction changes nothing. */
  function Committed(l: Ledger, result: Option<Ledger>): Ledger {
    if result.Some? then result.value else l
  }

  function Next(l: Ledger, step: Step): Ledger {
    match step
    case Plan(c, openedAt, target) =>
      var plan := NextWindow(l, c, openedAt, target);
      if plan.Some? then plan.value.0 else l
    case Fetch(c, openedAt, w, payments) => Committed(l, ApplyWindow(l, c, openedAt, w, payments))
    case Observe(c, openedAt, payments) => Committed(l, ApplyObserved(l, c, openedAt, payments))
    case Publish(position, a, b, openedAt, target, finalize) =>
      Reconcile(l, position, a, b, openedAt, target, finalize).0
  }

  /** What the venues and the monitor keep to: answers come from the venues' records,
      only positions not yet finalized are fetched, windows and observations are recent. */
  predicate Admissible(l: Ledger, history: seq<Row>, step: Step) {
    match step
    case Fetch(c, _, w, payments) =>
      && FromHistory(c, payments, history) && FullAnswer(c, w, payments, history)
      && c.position !in l.finalized && Recent(l, KeyOf(c), w.since)
    case Observe(c, _, payments) =>
      FromHistory(c, payments, history) && forall p :: p in payments ==> Recent(l, KeyOf(c), p.paidAt)
    case _ => true
  }

  lemma StepKeepsExact(l: Ledger, history: seq<Row>, step: Step)
    requires Exact(l, history) && HistoryOk(history) && Admissible(l, history, step)
    ensures Exact(Next(l, step), history)
  {
    hide Books, Distinct, Find, ApplyWindow, ApplyObserved;
    match step
    case Plan(c, openedAt, target) =>
      if NextWindow(l, c, openedAt, target).Some? {
        EnsureKeepsBooks(l, c, openedAt);
      }
    case Fetch(c, openedAt, w, payments) =>
      if ApplyWindow(l, c, openedAt, w, payments).Some? {
        WindowKeepsExact(l, history, c, openedAt, w, payments);
      }
    case Observe(c, openedAt, payments) =>
      if ApplyObserved(l, c, openedAt, payments).Some? {
        ObservedKeepsExact(l, history, c, openedAt, payments);
      }
    case Publish(position, a, b, openedAt, target, finalize) =>
      ReconcileKeepsBooks(l, position, a, b, openedAt, target, finalize);
  }

  function RunAll(l: Ledger, steps: seq<Step>): Ledger
    decreases |steps|
  {
    if steps == [] then l else RunAll(Next(l, steps[0]), steps[1..])
  }

  predicate AllAdmissible(l: Ledger, history: seq<Row>, steps: seq<Step>)
    decreases |steps|
  {
    steps == [] || (Admissible(l, history, steps[0]) && AllAdmissible(Next(l, steps[0]), history, steps[1..]))
  }

  /** Over every run the ledger stays exact. */
  lemma {:induction false} RunKeepsExact(l: Ledger, history: seq<Row>, steps: seq<Step>)
    requires Exact(l, history) && HistoryOk(history) && AllAdmissible(l, history, steps)
    ensures Exact(RunAll(l, steps), history)
    decreases |steps|
  {
    hide Exact, Admissible, Next;
    if steps != [] {
      StepKeepsExact(l, history, steps[0]);
      RunKeepsExact(Next(l, steps[0]), history, steps[1..]);
    }
  }

  lemma StepKeepsFinal(l: Ledger, history: seq<Row>, step: Step, k: Key)
    requires Admissible(l, history, step) && k.position in l.finalized && k in l.coverage
    ensures var l' := Next(l, step);
            k.position in l'.finalized && k in l'.coverage && l'.coverage[k] == l.coverage[k]
  {
    hide InsertAll, Delete, Amount, Count, WindowAllowed;
  }

  /** Once a position is final its totals stay as they are over every run, whatever is observed. */
  lemma {:induction false} FinalTotalsStay(l: Ledger, history: seq<Row>, steps: seq<Step>, k: Key)
    requires AllAdmissible(l, history, steps) && k.position in l.finalized && k in l.coverage
    ensures var l' := RunAll(l, steps);
            k.position in l'.finalized && k in l'.coverage && l'.coverage[k] == l.coverage[k]
    decreases |steps|
  {
    hide Admissible, Next;
    if steps != [] {
      StepKeepsFinal(l, history, steps[0], k);
      FinalTotalsStay(Next(l, steps[0]), history, steps[1..], k);
    }
  }

  // ----- the published total

  function Facts(rows: seq<Row>): seq<Row> {
    seq(|rows|, i requires 0 <= i < |rows| => Fact(rows[i]))
  }

  lemma {:induction false} FactsAmount(rows: seq<Row>, k: Key)
    ensures Amount(Facts(rows), k) == Amount(rows, k)
    ensures Distinct(rows) ==> Distinct(Facts(rows))
    ensures forall r :: r in Facts(rows) <==> exists s :: s in rows && Fact(s) == r
  {
    var facts := Facts(rows);
    forall r
      ensures r in facts <==> exists s :: s in rows && Fact(s) == r
    {
      if s :| s in rows && Fact(s) == r {
        var i :| 0 <= i < |rows| && rows[i] == s;
        assert facts[i] == r;
      }
    }
    if rows != [] {
      var front := rows[..|rows| - 1];
      assert Facts(rows)[..|rows| - 1] == Facts(front);
      FactsAmount(front, k);
    }
  }

  lemma {:induction false} NoRowsNoAmount(rows: seq<Row>, k: Key)
    requires forall r :: r in rows ==> !For(r, k)
    ensures Amount(rows, k) == 0.0
  {
    if rows != [] {
      NoRowsNoAmount(rows[..|rows| - 1], k);
    }
  }

  function Without(rows: seq<Row>, j: nat): seq<Row>
    requires j < |rows|
  {
    rows[..j] + rows[j + 1..]
  }

  lemma {:induction false} TakeOut(rows: seq<Row>, j: nat, k: Key)
    requires j < |rows|
    ensures Amount(rows, k) == Amount(Without(rows, j), k) + (if For(rows[j], k) then rows[j].amount else 0.0)
  {
    if j == |rows| - 1 {
      assert Without(rows, j) == rows[..j];
    } else {
      var front, last := rows[..|rows| - 1], rows[|rows| - 1];
      TakeOut(front, j, k);
      assert Without(rows, j) == Without(front, j) + [last];
      AppendRow(Without(front, j), last, k);
    }
  }

  lemma TakeOutDistinct(rows: seq<Row>, j: nat)
    requires j < |rows| && Distinct(rows)
    ensures Distinct(Without(rows, j))
    ensures forall r :: r in Without(rows, j) <==> r in rows && r != rows[j]
  {
    var rest := Without(rows, j);
    assert forall i :: 0 <= i < |rest| ==> rest[i] == if i < j then rows[i] else rows[i + 1];
    forall r | r in rows && r != rows[j]
      ensures r in rest
    {
      var i :| 0 <= i < |rows| && rows[i] == r;
      assert rest[if i < j then i else i - 1] == r;
    }
  }

  /** Two lists with the same rows of a key, each once, have the same amount. */
  lemma {:induction false} SameRowsSameAmount(xs: seq<Row>, ys: seq<Row>, k: Key)
    requires Distinct(xs) && Distinct(ys)
    requires forall r :: For(r, k) ==> (r in xs <==> r in ys)
    ensures Amount(xs, k) == Amount(ys, k)
  {
    if xs == [] {
      NoRowsNoAmount(ys, k);
    } else {
      var front, last := xs[..|xs| - 1], xs[|xs| - 1];
      assert xs == front + [last];
      assert last !in front;
      if For(last, k) {
        assert last in ys;
        var j :| 0 <= j < |ys| && ys[j] == last;
        TakeOut(ys, j, k);
        TakeOutDistinct(ys, j);
        SameRowsSameAmount(front, Without(ys, j), k);
      } else {
        SameRowsSameAmount(front, ys, k);
      }
    }
  }

  /** The venues' records that the ledger has accepted. */
  function AcceptedOf(l: Ledger, history: seq<Row>): seq<Row> {
    if history == [] then []
    else
      var last := history[|history| - 1];
      AcceptedOf(l, history[..|history| - 1]) + (if Accepted(l, last) then [last] else [])
  }

  lemma {:induction false} AcceptedAreRecords(l: Ledger, history: seq<Row>)
    ensures forall r :: r in AcceptedOf(l, history) <==> r in history && Accepted(l, r)
    ensures Distinct(history) ==> Distinct(AcceptedOf(l, history))
  {
    hide Accepted;
    if history != [] {
      var front, last := history[..|history| - 1], history[|history| - 1];
      assert history == front + [last];
      AcceptedAreRecords(l, front);
      if Distinct(history) {
        assert forall r :: r in front ==> Identity(r) != Identity(last);
      }
    }
  }

  /** Every record of a key in its covered time is accepted, and its total is what was accepted. */
  lemma CoveredAmountIsAccepted(l: Ledger, history: seq<Row>, k: Key, openedAt: int, target: int)
    requires Exact(l, history) && HistoryOk(history) && k.position !in l.finalized
    requires CoveredTo(l, k, openedAt, target)
    ensures l.coverage[k].amount == Amount(AcceptedOf(l, history), k)
    ensures forall r :: r in history && For(r, k) && openedAt <= r.paidAt <= target ==> Accepted(l, r)
  {
    assert Balanced(l, k) && NoGap(l, k);
    FactsAmount(l.log, k);
    AcceptedAreRecords(l, history);
    forall r | r in history && For(r, k) && openedAt <= r.paidAt <= target
      ensures Accepted(l, r)
    {
      assert Fetched(l.applied, k, r.paidAt);
      var a :| a in l.applied && a.key == k && a.window.since <= r.paidAt <= a.window.until;
      assert InWindow(r, a.key, a.window);
    }
    SameRowsSameAmount(Facts(l.log), AcceptedOf(l, history), k);
  }

  /** Whenever a total is published, it is the sum of the venues' records accepted so far, each
      once, and those include all from the opening to the target; later ones may have been
      observed. */
  lemma PublishedTotalIsAccepted(
    l: Ledger, history: seq<Row>, position: string, venueA: string, venueB: string,
    openedAt: int, target: int, finalize: bool)
    requires Exact(l, history) && HistoryOk(history) && position !in l.finalized
    requires Reconcile(l, position, venueA, venueB, openedAt, target, finalize).1.Some?
    ensures var accepted := AcceptedOf(l, history);
            && Reconcile(l, position, venueA, venueB, openedAt, target, finalize).1
               == Some(Amount(accepted, Key(position, venueA)) + Amount(accepted, Key(position, venueB)))
            && Distinct(accepted) && (forall r :: r in accepted ==> r in history)
            && forall r :: r in history && openedAt <= r.paidAt <= target ==>
                 For(r, Key(position, venueA)) || For(r, Key(position, venueB)) ==> r in accepted
  {
    AcceptedAreRecords(l, history);
    CoveredAmountIsAccepted(l, history, Key(position, venueA), openedAt, target);
    CoveredAmountIsAccepted(l, history, Key(position, venueB), openedAt, target);
  }

  /** Once both venues are covered over the whole life of a position, the published total
      is the sum of everything the venues ever paid it. */
  lemma PublishedTotalIsHistory(
    l: Ledger, history: seq<Row>, position: string, venueA: string, venueB: string,
    openedAt: int, target: int, finalize: bool)
    requires Exact(l, history) && HistoryOk(history) && position !in l.finalized
    requires forall r :: r in history && r.position == position ==> openedAt <= r.paidAt <= target
    requires Reconcile(l, position, venueA, venueB, openedAt, target, finalize).1.Some?
    ensures Reconcile(l, position, venueA, venueB, openedAt, target, finalize).1
            == Some(Amount(history, Key(position, venueA)) + Amount(history, Key(position, venueB)))
  {
    hide Exact, Reconcile, AcceptedOf, Amount, Distinct;
    var accepted := AcceptedOf(l, history);
    PublishedTotalIsAccepted(l, history, position, venueA, venueB, openedAt, target, finalize);
    SameRowsSameAmount(accepted, history, Key(position, venueA));
    SameRowsSameAmount(accepted, history, Key(position, venueB));
  }

  // ----- the promise that fails without recent windows

  /** The guards accept a window that starts before the raw rows kept: a payment whose row
      was pruned is then counted a second time. */
  lemma StaleWindowCountsTwice()
    ensures var c := Account("p", "v", "a", "BTC");
            var paid := Payment("1", "v", "a", "BTC", 5.0, 0);
            var gone := Ledger(
              [], map[KeyOf(c) := Coverage("a", 0, Some(2 * HISTORY_WINDOW), 5.0, 1)], {}, map[],
              [RowOf(c, paid)], [Applied(KeyOf(c), Window(0, HISTORY_WINDOW)),
                Applied(KeyOf(c), Window(HISTORY_WINDOW, 2 * HISTORY_WINDOW))]);
            var again := ApplyWindow(gone, c, 0, Window(0, HISTORY_WINDOW), [paid]);
            && Exact(gone, [RowOf(c, paid)])
            && again.Some? && again.value.coverage[KeyOf(c)].amount == 10.0 && again.value.coverage[KeyOf(c)].count == 2
  {
    var c := Account("p", "v", "a", "BTC");
    var paid := Payment("1", "v", "a", "BTC", 5.0, 0);
    var row := RowOf(c, paid);
    var first, second := Applied(KeyOf(c), Window(0, HISTORY_WINDOW)),
      Applied(KeyOf(c), Window(HISTORY_WINDOW, 2 * HISTORY_WINDOW));
    var gone := Ledger(
      [], map[KeyOf(c) := Coverage("a", 0, Some(2 * HISTORY_WINDOW), 5.0, 1)], {}, map[], [row], [first, second]);
    assert [row] == [] + [row];
    AppendRow([], row, KeyOf(c));
    assert first in gone.applied && second in gone.applied;
    forall k: Key | k != KeyOf(c)
      ensures Amount(gone.log, k) == 0.0 && Count(gone.log, k) == 0
    {
      AppendRow([], row, k);
    }
    assert row in gone.log && Fact(row) == row;
    assert InsertAll(Batch([], gone.log, 0.0, 0), c, Some(Window(0, HISTORY_WINDOW)), [paid])
        == Some(Batch([row], gone.log + [row], 5.0, 1));
  }
}
