/** Ordered locking of account feeds: each caller locks a deduplicated, key-sorted list
    of feeds, then uses submission gates one at a time, then unlocks.

    A state is a sequence of threads; who holds a lock or a gate is read off their
    positions. The scheduler may take any enabled step. Cancellations, of a caller that is
    locking or that waits for a gate, are extra steps that progress never relies on.
 */
module OrderedLocking {
  import opened Basics

  // ----- the order of keys

  /** Go's string order. */
  predicate Before(a: string, b: string) {
    if b == "" then false
    else if a == "" then true
    else a[0] < b[0] || (a[0] == b[0] && Before(a[1..], b[1..]))
  }

  lemma {:induction false} BeforeIsStrict(a: string)
    ensures !Before(a, a)
  {
    if a != "" { BeforeIsStrict(a[1..]); }
  }

  lemma {:induction false} BeforeIsTotal(a: string, b: string)
    ensures Before(a, b) || Before(b, a) || a == b
  {
    if a != "" && b != "" && a[0] == b[0] {
      BeforeIsTotal(a[1..], b[1..]);
      assert a == [a[0]] + a[1..] && b == [b[0]] + b[1..];
    }
  }

  lemma {:induction false} BeforeIsTransitive(a: string, b: string, c: string)
    requires Before(a, b) && Before(b, c)
    ensures Before(a, c)
  {
    if a != "" && a[0] == b[0] && b[0] == c[0] {
      BeforeIsTransitive(a[1..], b[1..], c[1..]);
    }
  }

  /** A proper prefix comes first, and otherwise the first character that differs decides. */
  lemma {:induction false} BeforeExactly(prefix: string, a: string, b: string)
    ensures b != "" ==> Before(prefix, prefix + b) && !Before(prefix + b, prefix)
    ensures a != "" && b != "" && a[0] != b[0] ==> (Before(prefix + a, prefix + b) <==> a[0] < b[0])
  {
    if prefix != "" {
      BeforeExactly(prefix[1..], a, b);
      assert (prefix + a)[1..] == prefix[1..] + a && (prefix + b)[1..] == prefix[1..] + b;
    } else {
      assert prefix + a == a && prefix + b == b;
    }
  }

  // ----- the list a caller locks

  /** `id` is the entry's identity as an object. */
  datatype Entry = Entry(id: nat, key: string)

  predicate Ordered(entries: seq<Entry>) {
    forall i, j :: 0 <= i < j < |entries| ==> Before(entries[i].key, entries[j].key)
  }

  function Insert(e: Entry, sorted: seq<Entry>): seq<Entry> {
    if sorted == [] || Before(e.key, sorted[0].key) then [e] + sorted
    else [sorted[0]] + Insert(e, sorted[1..])
  }

  function Sort(entries: seq<Entry>): seq<Entry> {
    if entries == [] then [] else Insert(entries[0], Sort(entries[1..]))
  }

  lemma {:induction false} InsertAdds(e: Entry, sorted: seq<Entry>)
    ensures multiset(Insert(e, sorted)) == multiset(sorted) + multiset{e}
    ensures forall f :: f in Insert(e, sorted) <==> f == e || f in sorted
  {
    if sorted != [] {
      assert sorted == [sorted[0]] + sorted[1..];
      InsertAdds(e, sorted[1..]);
    }
  }

  lemma PrependKeepsOrder(e: Entry, sorted: seq<Entry>)
    requires Ordered(sorted) && forall f :: f in sorted ==> Before(e.key, f.key)
    ensures Ordered([e] + sorted)
  {
  }

  lemma {:induction false} InsertKeepsOrder(e: Entry, sorted: seq<Entry>)
    requires Ordered(sorted) && forall f :: f in sorted ==> f.key != e.key
    ensures Ordered(Insert(e, sorted))
  {
    hide Before;
    if sorted == [] {
    } else if Before(e.key, sorted[0].key) {
      forall f | f in sorted
        ensures Before(e.key, f.key)
      {
        if f != sorted[0] {
          BeforeIsTransitive(e.key, sorted[0].key, f.key);
        }
      }
      PrependKeepsOrder(e, sorted);
    } else {
      var rest := sorted[1..];
      BeforeIsTotal(e.key, sorted[0].key);
      InsertKeepsOrder(e, rest);
      InsertAdds(e, rest);
      PrependKeepsOrder(sorted[0], Insert(e, rest));
    }
  }

  predicate KeysDistinct(entries: seq<Entry>) {
    forall i, j :: 0 <= i < j < |entries| ==> entries[i].key != entries[j].key
  }

  /** Sorting entries with distinct keys gives the same entries in strictly rising order. */
  lemma {:induction false} SortOrders(entries: seq<Entry>)
    requires KeysDistinct(entries)
    ensures Ordered(Sort(entries)) && multiset(Sort(entries)) == multiset(entries)
  {
    if entries != [] {
      var rest := entries[1..];
      assert entries == [entries[0]] + rest;
      SortOrders(rest);
      forall f | f in Sort(rest)
        ensures f.key != entries[0].key
      {
        assert f in multiset(Sort(rest));
        assert f in rest;
      }
      InsertKeepsOrder(entries[0], Sort(rest));
      InsertAdds(entries[0], Sort(rest));
    }
  }

  /** Entries alive at one time have one object for a key. */
  predicate OneObjectPerKey(leases: seq<Option<Entry>>) {
    forall l, m :: l in leases && m in leases && l.Some? && m.Some? && l.value.key == m.value.key ==> l == m
  }

  /** Drops missing leases and repeated entries, then sorts by key. */
  method LockEntries(leases: seq<Option<Entry>>) returns (entries: seq<Entry>)
    requires OneObjectPerKey(leases)
    ensures Ordered(entries)
    ensures forall e :: e in entries <==> Some(e) in leases
  {
    var unique: seq<Entry> := [];
    for i := 0 to |leases|
      invariant KeysDistinct(unique)
      invariant forall e :: e in unique <==> Some(e) in leases[..i]
    {
      assert leases[..i + 1] == leases[..i] + [leases[i]];
      if leases[i].Some? && leases[i].value !in unique {
        forall e | e in unique
          ensures e.key != leases[i].value.key
        {
          assert Some(e) in leases[..i];
        }
        unique := unique + [leases[i].value];
      }
    }
    assert leases[..|leases|] == leases;
    SortOrders(unique);
    entries := Sort(unique);
    forall e
      ensures e in entries <==> e in unique
    {
      assert e in entries <==> e in multiset(entries);
      assert e in unique <==> e in multiset(unique);
    }
  }

  // ----- threads

  /** `held` locks are taken, from the front of `locks`; `inGate`: holds the gate `gates[0]`. */
  datatype Thread = Thread(locks: seq<string>, gates: seq<string>, held: nat, inGate: bool, releasing: bool)

  predicate Rising(keys: seq<string>) {
    forall i, j :: 0 <= i < j < |keys| ==> Before(keys[i], keys[j])
  }

  predicate ThreadOk(t: Thread) {
    && Rising(t.locks) && t.held <= |t.locks|
    && (t.inGate ==> t.gates != [] && t.held == |t.locks| && !t.releasing)
    && (t.releasing ==> t.gates == [])
  }

  predicate HoldsLock(t: Thread, key: string) {
    t.held <= |t.locks| && key in t.locks[..t.held]
  }

  predicate HoldsGate(t: Thread, gate: string) {
    t.inGate && t.gates != [] && t.gates[0] == gate
  }

  predicate Finished(t: Thread) {
    t.releasing && t.held == 0
  }

  /** A thread still taking its locks. */
  predicate Locking(t: Thread) {
    !t.releasing && t.held < |t.locks|
  }

  predicate Enabled(threads: seq<Thread>, i: nat) {
    && i < |threads| && !Finished(threads[i])
    && (Locking(threads[i]) ==>
          forall t :: t in threads ==> !HoldsLock(t, threads[i].locks[threads[i].held]))
    && (!Locking(threads[i]) && !threads[i].inGate && threads[i].gates != [] ==>
          forall t :: t in threads ==> !HoldsGate(t, threads[i].gates[0]))
  }

  /** A thread locks, or enters a gate, or leaves it, or starts unlocking, or unlocks last first. */
  function Advance(t: Thread): Thread
    requires !Finished(t)
  {
    if Locking(t) then t.(held := t.held + 1)
    else if t.inGate && t.gates != [] then t.(inGate := false, gates := t.gates[1..])
    else if t.gates != [] then t.(inGate := true)
    else if !t.releasing then t.(releasing := true)
    else t.(held := t.held - 1)
  }

  function Step(threads: seq<Thread>, i: nat): seq<Thread>
    requires Enabled(threads, i)
  {
    threads[i := Advance(threads[i])]
  }

  /** A thread that waits for its next gate, or is about to enter it. */
  predicate AtGate(t: Thread) {
    !t.releasing && !Locking(t) && !t.inGate && t.gates != []
  }

  /** The context of a thread that is still locking, or waits for a gate, ends: it unlocks
      what it has. */
  function Abandon(threads: seq<Thread>, i: nat): seq<Thread>
    requires i < |threads| && (Locking(threads[i]) || AtGate(threads[i]))
  {
    threads[i := threads[i].(releasing := true, gates := [])]
  }

  /** A thread gives up waiting for a gate and goes on to the next, if any. */
  function Skip(threads: seq<Thread>, i: nat): seq<Thread>
    requires i < |threads| && AtGate(threads[i])
  {
    threads[i := threads[i].(gates := threads[i].gates[1..])]
  }

  ghost predicate Exclusive(threads: seq<Thread>) {
    forall i, j, key :: 0 <= i < j < |threads| ==>
      !(HoldsLock(threads[i], key) && HoldsLock(threads[j], key))
      && !(HoldsGate(threads[i], key) && HoldsGate(threads[j], key))
  }

  ghost predicate Inv(threads: seq<Thread>) {
    (forall t :: t in threads ==> ThreadOk(t)) && Exclusive(threads)
  }

  /** A thread that takes nothing new: what it holds it held before. */
  lemma HoldsLess(t: Thread, u: Thread)
    requires ThreadOk(t) && !Finished(t) && u == Advance(t)
    ensures ThreadOk(u)
    ensures forall key :: HoldsLock(u, key) ==> HoldsLock(t, key) || (Locking(t) && key == t.locks[t.held])
    ensures forall key :: HoldsGate(u, key) ==>
              HoldsGate(t, key) || (!Locking(t) && t.gates != [] && !t.inGate && key == t.gates[0])
  {
    if Locking(t) {
      assert t.locks[..t.held + 1] == t.locks[..t.held] + [t.locks[t.held]];
    }
  }

  lemma ExclusiveAfter(threads: seq<Thread>, i: nat, u: Thread)
    requires i < |threads| && Exclusive(threads)
    requires forall key, t :: t in threads && HoldsLock(u, key) && !HoldsLock(threads[i], key) ==> !HoldsLock(t, key)
    requires forall key, t :: t in threads && HoldsGate(u, key) && !HoldsGate(threads[i], key) ==> !HoldsGate(t, key)
    ensures Exclusive(threads[i := u])
  {
    var after := threads[i := u];
    forall a, b, key | 0 <= a < b < |after|
      ensures !(HoldsLock(after[a], key) && HoldsLock(after[b], key))
      ensures !(HoldsGate(after[a], key) && HoldsGate(after[b], key))
    {
      assert threads[a] in threads && threads[b] in threads;
    }
  }

  lemma StepKeepsInv(threads: seq<Thread>, i: nat)
    requires Inv(threads) && Enabled(threads, i)
    ensures Inv(Step(threads, i))
  {
    hide HoldsLock, HoldsGate, ThreadOk, Exclusive;
    HoldsLess(threads[i], Advance(threads[i]));
    ExclusiveAfter(threads, i, Advance(threads[i]));
  }

  lemma AbandonKeepsInv(threads: seq<Thread>, i: nat)
    requires Inv(threads) && i < |threads| && (Locking(threads[i]) || AtGate(threads[i]))
    ensures Inv(Abandon(threads, i))
  {
    assert threads[i] in threads;
    ExclusiveAfter(threads, i, threads[i].(releasing := true, gates := []));
  }

  lemma SkipKeepsInv(threads: seq<Thread>, i: nat)
    requires Inv(threads) && i < |threads| && AtGate(threads[i])
    ensures Inv(Skip(threads, i))
  {
    assert threads[i] in threads;
    ExclusiveAfter(threads, i, threads[i].(gates := threads[i].gates[1..]));
  }

  // ----- no deadlock

  function Keys(threads: seq<Thread>): set<string> {
    set t, key | t in threads && key in t.locks :: key
  }

  function Above(keys: set<string>, key: string): set<string> {
    set k | k in keys && Before(key, k)
  }

  /** From a thread that is locking, some thread can move: follow who holds the wanted
      lock; each next one wants a later key. */
  lemma {:induction false} LockingUnblocks(threads: seq<Thread>, i: nat)
    requires Inv(threads) && i < |threads| && Locking(threads[i])
    requires forall t :: t in threads ==> !t.inGate
    ensures exists j :: Enabled(threads, j)
    decreases |Above(Keys(threads), threads[i].locks[threads[i].held])|
  {
    var key := threads[i].locks[threads[i].held];
    if !Enabled(threads, i) {
      var t :| t in threads && HoldsLock(t, key);
      var j :| 0 <= j < |threads| && threads[j] == t;
      var m :| 0 <= m < t.held && t.locks[..t.held][m] == key;
      assert ThreadOk(t);
      if Locking(t) {
        var wanted := t.locks[t.held];
        assert Before(t.locks[m], t.locks[t.held]);
        assert t in threads && wanted in t.locks;
        AboveShrinks(Keys(threads), key, wanted);
        LockingUnblocks(threads, j);
      } else {
        assert threads[j].held > 0 && !threads[j].inGate;
        assert Enabled(threads, j);
      }
    }
  }

  lemma AboveShrinks(keys: set<string>, key: string, wanted: string)
    requires Before(key, wanted) && wanted in keys
    ensures |Above(keys, wanted)| < |Above(keys, key)|
  {
    forall k | k in Above(keys, wanted)
      ensures k in Above(keys, key)
    {
      BeforeIsTransitive(key, wanted, k);
    }
    BeforeIsStrict(wanted);
    assert Above(keys, wanted) <= Above(keys, key) - {wanted};
    SubsetSize(Above(keys, wanted), Above(keys, key) - {wanted});
  }

  /** Every state with an unfinished thread has an enabled step. */
  lemma NoDeadlock(threads: seq<Thread>)
    requires Inv(threads) && exists t :: t in threads && !Finished(t)
    ensures exists i :: Enabled(threads, i)
  {
    if g :| g in threads && g.inGate {
      var i :| 0 <= i < |threads| && threads[i] == g;
      assert ThreadOk(g);
      assert Enabled(threads, i);
    } else {
      var t :| t in threads && !Finished(t);
      var i :| 0 <= i < |threads| && threads[i] == t;
      if Locking(t) {
        LockingUnblocks(threads, i);
      } else {
        assert Enabled(threads, i);
      }
    }
  }

  // ----- whole runs

  function ThreadWork(t: Thread): nat
    requires ThreadOk(t)
  {
    if t.releasing then t.held
    else 2 * |t.locks| - t.held + 2 * |t.gates| + 1 - (if t.inGate then 1 else 0)
  }

  function Work(threads: seq<Thread>): nat
    requires forall t :: t in threads ==> ThreadOk(t)
  {
    if threads == [] then 0 else ThreadWork(threads[0]) + Work(threads[1..])
  }

  lemma {:induction false} WorkAfter(threads: seq<Thread>, i: nat, u: Thread)
    requires i < |threads| && ThreadOk(u) && forall t :: t in threads ==> ThreadOk(t)
    ensures forall t :: t in threads[i := u] ==> ThreadOk(t)
    ensures Work(threads[i := u]) == Work(threads) - ThreadWork(threads[i]) + ThreadWork(u)
  {
    assert threads[0] in threads && threads[i] in threads;
    if i > 0 {
      assert threads[i := u][1..] == threads[1..][i - 1 := u];
      WorkAfter(threads[1..], i - 1, u);
    } else {
      assert threads[i := u][1..] == threads[1..];
    }
  }

  lemma StepUsesWork(threads: seq<Thread>, i: nat)
    requires Inv(threads) && Enabled(threads, i) && Inv(Step(threads, i))
    ensures Work(Step(threads, i)) == Work(threads) - 1
  {
    assert threads[i] in threads;
    HoldsLess(threads[i], Advance(threads[i]));
    WorkAfter(threads, i, Advance(threads[i]));
  }

  /** One scheduler decision: let a thread move, or end the context of one that is locking or
      waits for a gate, which then gives up everything, or only this gate. */
  datatype Decision = Move(thread: nat) | End(thread: nat) | Leave(thread: nat)

  predicate Allowed(threads: seq<Thread>, d: Decision) {
    match d
    case Move(i) => Enabled(threads, i)
    case End(i) => i < |threads| && (Locking(threads[i]) || AtGate(threads[i]))
    case Leave(i) => i < |threads| && AtGate(threads[i])
  }

  function After(threads: seq<Thread>, d: Decision): seq<Thread>
    requires Allowed(threads, d)
  {
    match d
    case Move(i) => Step(threads, i)
    case End(i) => Abandon(threads, i)
    case Leave(i) => Skip(threads, i)
  }

  predicate Schedule(threads: seq<Thread>, run: seq<Decision>, last: seq<Thread>)
    decreases |run|
  {
    if run == [] then last == threads
    else Allowed(threads, run[0]) && Schedule(After(threads, run[0]), run[1..], last)
  }

  lemma DecisionUsesWork(threads: seq<Thread>, d: Decision)
    requires Inv(threads) && Allowed(threads, d)
    ensures Inv(After(threads, d)) && Work(After(threads, d)) < Work(threads)
  {
    match d
    case Move(i) =>
      StepKeepsInv(threads, i);
      StepUsesWork(threads, i);
    case End(i) =>
      AbandonKeepsInv(threads, i);
      assert threads[i] in threads;
      WorkAfter(threads, i, threads[i].(releasing := true, gates := []));
    case Leave(i) =>
      SkipKeepsInv(threads, i);
      assert threads[i] in threads;
      WorkAfter(threads, i, threads[i].(gates := threads[i].gates[1..]));
  }

  /** A thread can move unless it has finished, or waits for a lock or a gate that one holds; it can be
      cancelled exactly while it takes its locks or waits for a gate. */
  lemma MovesExactly(threads: seq<Thread>, i: nat)
    requires i < |threads|
    ensures var t := threads[i];
            var locking := !t.releasing && t.held < |t.locks|;
            var atGate := !t.releasing && t.held >= |t.locks| && !t.inGate && t.gates != [];
            && (Allowed(threads, Move(i)) <==>
                  && !(t.releasing && t.held == 0)
                  && (locking ==> forall u :: u in threads ==> !HoldsLock(u, t.locks[t.held]))
                  && (t.gates != [] && !locking && !t.inGate ==>
                        forall u :: u in threads ==> !(u.inGate && u.gates != [] && u.gates[0] == t.gates[0])))
            && (Allowed(threads, End(i)) <==> locking || atGate)
            && (Allowed(threads, Leave(i)) <==> atGate)
  {
  }

  /** What a move takes or gives back, and that a cancelled thread keeps its locks until it has
      released them. */
  lemma MovedExactly(threads: seq<Thread>, d: Decision)
    requires Allowed(threads, d)
    ensures var t, u := threads[d.thread], After(threads, d)[d.thread];
            && |After(threads, d)| == |threads|
            && (forall j :: 0 <= j < |threads| && j != d.thread ==> After(threads, d)[j] == threads[j])
            && u.locks == t.locks
            && (d.End? ==> u.releasing && u.gates == [] && u.held == t.held)
            && (d.Leave? ==> u == t.(gates := t.gates[1..]))
            && (d.Move? ==>
                  if !t.releasing && t.held < |t.locks| then u == t.(held := t.held + 1)
                  else if t.gates != [] then
                    u == if t.inGate then t.(inGate := false, gates := t.gates[1..]) else t.(inGate := true)
                  else if t.releasing then u == t.(held := t.held - 1)
                  else u == t.(releasing := true))
  {
  }

  /** Locks and gates stay exclusive over every run; runs are bounded, and one that cannot
      go on has finished every thread. */
  lemma {:induction false} EveryRunFinishes(threads: seq<Thread>, run: seq<Decision>, last: seq<Thread>)
    requires Inv(threads) && Schedule(threads, run, last)
    ensures Inv(last) && |run| <= Work(threads)
    ensures (forall i :: !Enabled(last, i)) ==> forall t :: t in last ==> Finished(t)
    decreases |run|
  {
    hide Inv, Enabled, After, Allowed;
    if run != [] {
      DecisionUsesWork(threads, run[0]);
      EveryRunFinishes(After(threads, run[0]), run[1..], last);
    } else if exists t :: t in last && !Finished(t) {
      NoDeadlock(last);
    }
  }

  /** Why keys must be distinct: a list with two objects of one key locks itself out. */
  lemma RepeatedKeyBlocks(key: string)
    ensures !Rising([key, key]) && !Enabled([Thread([key, key], [], 1, false, false)], 0)
  {
    BeforeIsStrict(key);
    assert [key, key][0] == [key, key][1] == key;
    var t := Thread([key, key], [], 1, false, false);
    assert t.locks[..1] == [key];
    assert HoldsLock(t, key);
    assert t in [t];
  }
}
