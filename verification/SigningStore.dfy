/** The store of one-shot signing requests, and the close batches that allow one set of
    close orders per position at a time.

    A call holds the store's mutex, so a call is one step. `outstanding` and `issued` are
    history: requests consumed and not yet given back or completed, and every request
    ever stored under its (random, hence fresh) id.
 */
module SigningStore {

  datatype Request = Request(id: nat, position: string, close: bool, expires: int)

  datatype Batch = Batch(requests: seq<Request>, expires: int, inFlight: set<nat>, complete: set<nat>)

  datatype Store = Store(
    requests: map<nat, Request>,
    batches: map<string, Batch>,
    outstanding: set<nat>,
    issued: map<nat, Request>,
    now: int)

  predicate ClosesPosition(r: Request) { r.close && r.position != "" }

  function Ids(requests: seq<Request>): set<nat> { set r | r in requests :: r.id }

  // ----- the steps

  function Unexpired(requests: map<nat, Request>, now: int): map<nat, Request> {
    map id | id in requests && now <= requests[id].expires :: requests[id]
  }

  predicate InExpiredBatch(batches: map<string, Batch>, now: int, id: nat) {
    exists p :: p in batches && now > batches[p].expires && id in Ids(batches[p].requests)
  }

  /** Drops expired requests, and expired batches with what is left of them. */
  function CleanBatches(s: Store): Store {
    s.(requests := map id | id in s.requests && s.now <= s.requests[id].expires && !InExpiredBatch(s.batches, s.now, id)
                     :: s.requests[id],
       batches := map p | p in s.batches && s.now <= s.batches[p].expires :: s.batches[p])
  }

  datatype Answer = Nothing | InProgress | Prepared(requests: seq<Request>)

  function Remaining(requests: seq<Request>, pending: map<nat, Request>, complete: set<nat>): seq<Request> {
    if requests == [] then []
    else
      var r := requests[|requests| - 1];
      Remaining(requests[..|requests| - 1], pending, complete)
      + (if r.id !in complete && r.id in pending then [r] else [])
  }

  /** What is still to be signed of the position's batch. */
  function Existing(s: Store, position: string): Answer {
    if position !in s.batches then Nothing
    else
      var b := s.batches[position];
      var left := Remaining(b.requests, s.requests, b.complete);
      if b.inFlight != {} || left == [] then InProgress else Prepared(left)
  }

  /** Earliest expiry of the requests not yet expired, or `none` if all are. */
  function Earliest(requests: seq<Request>, now: int, none: int): int {
    if requests == [] then none
    else
      var r := requests[|requests| - 1];
      var e := Earliest(requests[..|requests| - 1], now, none);
      if now <= r.expires && (e == none || r.expires < e) then r.expires else e
  }

  function Add(pending: map<nat, Request>, requests: seq<Request>, now: int): map<nat, Request> {
    if requests == [] then pending
    else
      var r := requests[|requests| - 1];
      var rest := Add(pending, requests[..|requests| - 1], now);
      if now <= r.expires then rest[r.id := r] else rest
  }

  function Issue(issued: map<nat, Request>, requests: seq<Request>): map<nat, Request> {
    if requests == [] then issued
    else
      var r := requests[|requests| - 1];
      Issue(issued, requests[..|requests| - 1])[r.id := r]
  }

  const NEVER := -62135596800000

  /** Keeps the position's batch if there is one, else stores the new requests as its batch. */
  function Prepare(s0: Store, position: string, requests: seq<Request>): Store {
    var s := CleanBatches(s0);
    if Existing(s, position) != Nothing then s
    else
      var expires := Earliest(requests, s.now, NEVER);
      s.(requests := Add(s.requests, requests, s.now),
         issued := Issue(s.issued, requests),
         batches := if expires == NEVER then s.batches else s.batches[position := Batch(requests, expires, {}, {})])
  }

  function ConsumeOk(s: Store, r: Request): Store {
    var marked := if ClosesPosition(r) && r.position in s.batches
                  then var b := s.batches[r.position];
                       s.batches[r.position := b.(inFlight := b.inFlight + {r.id})]
                  else s.batches;
    s.(requests := s.requests - {r.id}, batches := marked, outstanding := s.outstanding + {r.id})
  }

  /** `matches`: the signed action agrees with the request; `signed`: it carries a signature. */
  function Consume(s: Store, id: nat, matches: bool, signed: bool): Store {
    if id !in s.requests || !matches then s
    else if s.now > s.requests[id].expires then s.(requests := s.requests - {id})
    else if !signed then s
    else ConsumeOk(s, s.requests[id])
  }

  /** Stores a request; one that failed to be submitted is given back this way. */
  function Put(s: Store, r: Request): Store {
    var unexpired := s.(requests := Unexpired(s.requests, s.now), outstanding := s.outstanding - {r.id},
                        issued := s.issued[r.id := r]);
    if s.now > r.expires then unexpired
    else unexpired.(requests := unexpired.requests[r.id := r],
                    batches := if ClosesPosition(r) && r.position in s.batches
                               then var b := s.batches[r.position];
                                    s.batches[r.position := b.(inFlight := b.inFlight - {r.id})]
                               else s.batches)
  }

  function Complete(s: Store, r: Request): Store {
    var done := s.(outstanding := s.outstanding - {r.id});
    if !ClosesPosition(r) || r.position !in s.batches then done
    else
      var b := s.batches[r.position];
      var complete := b.complete + {r.id};
      if |complete| == |b.requests| then done.(batches := s.batches - {r.position})
      else done.(batches := s.batches[r.position := b.(inFlight := b.inFlight - {r.id}, complete := complete)])
  }

  function Cleanup(s: Store, maxAge: int): Store {
    s.(requests := map id | id in s.requests && s.requests[id].expires >= s.now - maxAge :: s.requests[id])
  }

  // ----- the invariant

  predicate DistinctIds(requests: seq<Request>) {
    forall i, j :: 0 <= i < j < |requests| ==> requests[i].id != requests[j].id
  }

  /** Where every request of a batch is: pending, in flight, complete, or never stored. */
  predicate BatchOk(s: Store, position: string, b: Batch) {
    && position != "" && DistinctIds(b.requests)
    && (forall r :: r in b.requests ==> r.close && r.position == position && r.id in s.issued && s.issued[r.id] == r)
    && b.inFlight <= Ids(b.requests) && b.complete <= Ids(b.requests) && b.inFlight !! b.complete
    && (forall r :: r in b.requests && r.id in s.outstanding ==> r.id in b.inFlight)
    && (s.now <= b.expires ==> b.inFlight <= s.outstanding)
    && (forall id :: id in b.complete || id in b.inFlight ==> id !in s.requests)
    && (forall r :: r in b.requests && (r.id in s.requests || r.id in s.outstanding) ==> b.expires <= r.expires)
    && (forall r :: r in b.requests && r.expires >= b.expires && s.now <= b.expires ==>
          r.id in s.requests || r.id in b.inFlight || r.id in b.complete)
  }

  /** The request belongs to its position's batch. */
  predicate Current(s: Store, r: Request) {
    r.position in s.batches && r in s.batches[r.position].requests
  }

  predicate KnownIds(s: Store) {
    && (forall id :: id in s.requests ==> id in s.issued && s.requests[id] == s.issued[id])
    && (forall id :: id in s.outstanding ==> id in s.issued && id !in s.requests)
    && (forall id :: id in s.issued ==> s.issued[id].id == id)
  }

  /** A close request can be consumed only as part of its position's one batch. */
  predicate Exclusive(s: Store) {
    forall id :: id in s.requests && ClosesPosition(s.requests[id]) ==> Current(s, s.requests[id])
  }

  predicate Inv(s: Store) {
    && KnownIds(s) && Exclusive(s)
    && (forall p :: p in s.batches ==> BatchOk(s, p, s.batches[p]))
  }

  lemma SameId(s: Store, p: string, r: Request, id: nat)
    requires Inv(s) && p in s.batches && r in s.batches[p].requests && r.id == id && id in s.issued
    ensures s.issued[id] == r
  {
    assert BatchOk(s, p, s.batches[p]);
  }

  lemma LiveIsNotExpired(s: Store, p: string, r: Request)
    requires Inv(s) && p in s.batches && r in s.batches[p].requests && s.now <= s.batches[p].expires
    ensures !InExpiredBatch(s.batches, s.now, r.id)
  {
    assert BatchOk(s, p, s.batches[p]);
    forall q, u | q in s.batches && s.now > s.batches[q].expires && u in s.batches[q].requests
      ensures u.id != r.id
    {
      assert BatchOk(s, q, s.batches[q]);
    }
  }

  lemma CleanKeepsInv(s: Store)
    requires Inv(s)
    ensures Inv(CleanBatches(s))
  {
    var t := CleanBatches(s);
    forall id | id in t.requests && ClosesPosition(t.requests[id])
      ensures Current(t, t.requests[id])
    {
      var r := s.requests[id];
      assert Current(s, r);
      assert id in Ids(s.batches[r.position].requests);
    }
    forall p | p in t.batches
      ensures BatchOk(t, p, t.batches[p])
    {
      var b := s.batches[p];
      assert BatchOk(s, p, b);
      forall r | r in b.requests && r.expires >= b.expires && t.now <= b.expires
        ensures r.id in t.requests || r.id in b.inFlight || r.id in b.complete
      {
        LiveIsNotExpired(s, p, r);
      }
    }
  }

  lemma ConsumedBatch(s: Store, r: Request, p: string)
    requires Inv(s) && r.id in s.requests && s.requests[r.id] == r && s.now <= r.expires && p in s.batches
    ensures p in ConsumeOk(s, r).batches && BatchOk(ConsumeOk(s, r), p, ConsumeOk(s, r).batches[p])
  {
    var b := s.batches[p];
    assert BatchOk(s, p, b);
    forall u | u in b.requests && u.id == r.id
      ensures u == r
    {
      SameId(s, p, u, r.id);
    }
    if ClosesPosition(r) {
      assert Current(s, r);
    }
  }

  lemma ConsumeKeepsInv(s: Store, id: nat, matches: bool, signed: bool)
    requires Inv(s)
    ensures Inv(Consume(s, id, matches, signed))
  {
    hide BatchOk;
    var t := Consume(s, id, matches, signed);
    if id in s.requests && matches && s.now > s.requests[id].expires {
      UnexpiredKeepsInv(s, t.requests);
    } else if id in s.requests && matches && signed {
      var r := s.requests[id];
      forall p | p in t.batches
        ensures BatchOk(t, p, t.batches[p])
      {
        ConsumedBatch(s, r, p);
      }
      forall j | j in t.requests && ClosesPosition(t.requests[j])
        ensures Current(t, t.requests[j])
      {
        assert Current(s, s.requests[j]);
      }
    }
  }

  predicate Live(s: Store, position: string) {
    position in s.batches && s.now <= s.batches[position].expires
  }

  /** Dropping expired requests. */
  lemma UnexpiredKeepsInv(s: Store, kept: map<nat, Request>)
    requires Inv(s)
    requires forall id :: id in kept ==> id in s.requests && kept[id] == s.requests[id]
    requires forall id :: id in s.requests && id !in kept ==> s.now > s.requests[id].expires
    ensures Inv(s.(requests := kept))
  {
    var t := s.(requests := kept);
    forall p | p in t.batches
      ensures BatchOk(t, p, t.batches[p])
    {
      assert BatchOk(s, p, s.batches[p]);
    }
    forall id | id in t.requests && ClosesPosition(t.requests[id])
      ensures Current(t, t.requests[id])
    {
      assert Current(s, s.requests[id]);
    }
  }

  /** Giving back a consumed request keeps the store in order exactly when its batch is
      still the position's one, or the request has expired itself. */
  lemma GiveBackKeepsInvExactly(s: Store, r: Request)
    requires Inv(s) && r.id in s.outstanding && s.issued[r.id] == r
    ensures Inv(Put(s, r)) <==> !ClosesPosition(r) || Current(s, r) || s.now > r.expires
  {
    var unexpired := s.(requests := Unexpired(s.requests, s.now));
    UnexpiredKeepsInv(s, unexpired.requests);
    assert Unexpired(unexpired.requests, s.now) == unexpired.requests;
    assert Put(unexpired, r) == Put(s, r);
    GiveBackToUnexpired(unexpired, r);
  }

  lemma GiveBackToUnexpired(s: Store, r: Request)
    requires Inv(s) && r.id in s.outstanding && s.issued[r.id] == r && s.requests == Unexpired(s.requests, s.now)
    ensures Inv(Put(s, r)) <==> !ClosesPosition(r) || Current(s, r) || s.now > r.expires
  {
    hide BatchOk, Unexpired;
    var t := Put(s, r);
    if s.now > r.expires || !ClosesPosition(r) || Current(s, r) {
      forall p | p in t.batches
        ensures BatchOk(t, p, t.batches[p])
      {
        GivenBackBatch(s, r, p);
      }
      forall id | id in t.requests && ClosesPosition(t.requests[id])
        ensures Current(t, t.requests[id])
      {
        assert id != r.id ==> Current(s, s.requests[id]);
      }
    } else {
      assert r.id in t.requests && !Current(t, r);
    }
  }

  lemma GivenBackBatch(s: Store, r: Request, p: string)
    requires Inv(s) && r.id in s.outstanding && s.issued[r.id] == r && p in s.batches
    requires s.requests == Unexpired(s.requests, s.now)
    requires s.now > r.expires || !ClosesPosition(r) || Current(s, r)
    ensures p in Put(s, r).batches && BatchOk(Put(s, r), p, Put(s, r).batches[p])
  {
    assert BatchOk(s, p, s.batches[p]);
    forall u | u in s.batches[p].requests && u.id == r.id
      ensures u == r
    {
    }
  }

  lemma {:induction false} IdsCount(requests: seq<Request>)
    requires DistinctIds(requests)
    ensures |Ids(requests)| == |requests|
  {
    if requests != [] {
      var front, last := requests[..|requests| - 1], requests[|requests| - 1];
      IdsCount(front);
      assert requests == front + [last];
      assert Ids(requests) == Ids(front) + {last.id};
      assert last.id !in Ids(front);
    }
  }

  lemma FullSubset(a: set<nat>, b: set<nat>)
    requires a <= b && |a| == |b|
    ensures a == b
  {
    assert b == a + (b - a);
    assert |b| == |a| + |b - a|;
  }

  /** A batch is closed only when every one of its requests is complete. */
  lemma ClosedIsComplete(s: Store, r: Request)
    requires Inv(s) && r.id in s.outstanding && s.issued[r.id] == r && ClosesPosition(r) && Current(s, r)
    ensures r.position !in Complete(s, r).batches
            <==> Ids(s.batches[r.position].requests) == s.batches[r.position].complete + {r.id}
  {
    var b := s.batches[r.position];
    assert BatchOk(s, r.position, b);
    IdsCount(b.requests);
    assert r.id in Ids(b.requests);
    if |b.complete + {r.id}| == |b.requests| {
      FullSubset(b.complete + {r.id}, Ids(b.requests));
    }
  }

  /** Some request of the batch has not been completed. */
  predicate Unfinished(b: Batch, complete: set<nat>) { !(Ids(b.requests) <= complete) }

  /** In any store: completing a request removes a batch that is not finished exactly when
      the count is full and one of the requests counted is not of the batch. */
  lemma RemovedTooEarlyExactly(s: Store, r: Request)
    requires ClosesPosition(r) && r.position in s.batches && DistinctIds(s.batches[r.position].requests)
    ensures var b := s.batches[r.position];
            var counted := b.complete + {r.id};
            r.position !in Complete(s, r).batches && Unfinished(b, counted)
            <==> |counted| == |b.requests| && !(counted <= Ids(b.requests))
  {
    var b := s.batches[r.position];
    var counted := b.complete + {r.id};
    IdsCount(b.requests);
    if |counted| == |b.requests| && counted <= Ids(b.requests) {
      FullSubset(counted, Ids(b.requests));
    }
    if |counted| == |b.requests| && Ids(b.requests) <= counted {
      FullSubset(Ids(b.requests), counted);
    }
  }

  /** Nothing of a closed batch is left to be consumed. */
  lemma CompleteKeepsExclusive(s: Store, r: Request)
    requires Inv(s) && r.id in s.outstanding && s.issued[r.id] == r
    requires !ClosesPosition(r) || Current(s, r) || r.position !in s.batches
    ensures Exclusive(Complete(s, r))
  {
    var t := Complete(s, r);
    if ClosesPosition(r) && Current(s, r) {
      ClosedIsComplete(s, r);
      assert BatchOk(s, r.position, s.batches[r.position]);
    }
    hide BatchOk;
    forall id | id in t.requests && ClosesPosition(t.requests[id])
      ensures Current(t, t.requests[id])
    {
      assert Current(s, s.requests[id]);
      assert id in Ids(s.batches[s.requests[id].position].requests);
    }
  }

  /** A batch without the request. */
  lemma OtherBatch(s: Store, p: string, id: nat)
    requires p in s.batches && BatchOk(s, p, s.batches[p]) && id !in Ids(s.batches[p].requests)
    ensures BatchOk(s.(outstanding := s.outstanding - {id}), p, s.batches[p])
  {
    assert forall r :: r in s.batches[p].requests ==> r.id in Ids(s.batches[p].requests);
  }

  lemma OwnBatch(s: Store, r: Request)
    requires Inv(s) && r.id in s.outstanding && s.issued[r.id] == r && ClosesPosition(r) && Current(s, r)
    ensures var b := s.batches[r.position];
            BatchOk(s.(outstanding := s.outstanding - {r.id}), r.position,
                    b.(inFlight := b.inFlight - {r.id}, complete := b.complete + {r.id}))
  {
    assert BatchOk(s, r.position, s.batches[r.position]);
    assert r.id in Ids(s.batches[r.position].requests);
  }

  lemma SameBatchElsewhere(s: Store, t: Store, p: string, b: Batch)
    requires BatchOk(s, p, b)
    requires t.requests == s.requests && t.outstanding == s.outstanding && t.issued == s.issued && t.now == s.now
    ensures BatchOk(t, p, b)
  {
  }

  lemma CompleteKeepsInv(s: Store, r: Request)
    requires Inv(s) && r.id in s.outstanding && s.issued[r.id] == r
    requires !ClosesPosition(r) || Current(s, r) || r.position !in s.batches
    ensures Inv(Complete(s, r))
  {
    hide BatchOk, Exclusive;
    var t := Complete(s, r);
    CompleteKeepsExclusive(s, r);
    var less := s.(outstanding := s.outstanding - {r.id});
    forall p | p in t.batches
      ensures BatchOk(t, p, t.batches[p])
    {
      if ClosesPosition(r) && Current(s, r) && p == r.position {
        OwnBatch(s, r);
      } else {
        NotInOtherBatch(s, r, p);
        OtherBatch(s, p, r.id);
      }
      SameBatchElsewhere(less, t, p, t.batches[p]);
    }
  }

  lemma NotInOtherBatch(s: Store, r: Request, p: string)
    requires Inv(s) && r.id in s.issued && s.issued[r.id] == r && p in s.batches
    requires !(ClosesPosition(r) && p == r.position && Current(s, r))
    ensures r.id !in Ids(s.batches[p].requests)
  {
    assert BatchOk(s, p, s.batches[p]);
  }

  /** Completing a consumed request keeps the store in order exactly when the request closes
      nothing, or is of the present batch, or its position has no batch, or it fills the
      count of a batch of which nothing can be consumed any more. */
  lemma CompleteKeepsInvExactly(s: Store, r: Request)
    requires Inv(s) && r.id in s.outstanding && s.issued[r.id] == r
    ensures Inv(Complete(s, r)) <==>
              || !ClosesPosition(r) || Current(s, r) || r.position !in s.batches
              || (|s.batches[r.position].complete| + 1 == |s.batches[r.position].requests|
                  && forall u :: u in s.batches[r.position].requests ==> u.id !in s.requests)
  {
    if !ClosesPosition(r) || Current(s, r) || r.position !in s.batches {
      CompleteKeepsInv(s, r);
    } else {
      NotInOtherBatch(s, r, r.position);
      assert BatchOk(s, r.position, s.batches[r.position]);
      assert r.id !in s.batches[r.position].complete;
      if |s.batches[r.position].complete| + 1 == |s.batches[r.position].requests| {
        LateCloseKeepsInvExactly(s, r);
      } else {
        LateCompleteSpoils(s, r);
      }
    }
  }

  /** A late completion that does not remove the batch stays in its count. */
  lemma LateCompleteSpoils(s: Store, r: Request)
    requires ClosesPosition(r) && r.position in s.batches
    requires r.id !in Ids(s.batches[r.position].requests) && r.id !in s.batches[r.position].complete
    requires |s.batches[r.position].complete| + 1 != |s.batches[r.position].requests|
    ensures !Inv(Complete(s, r))
  {
    var b := Complete(s, r).batches[r.position];
    assert r.id in b.complete;
    assert !BatchOk(Complete(s, r), r.position, b);
  }

  lemma LateCloseKeepsInvExactly(s: Store, r: Request)
    requires Inv(s) && r.id in s.outstanding && s.issued[r.id] == r && ClosesPosition(r) && r.position in s.batches
    requires r.id !in Ids(s.batches[r.position].requests)
    requires Complete(s, r) == s.(outstanding := s.outstanding - {r.id}, batches := s.batches - {r.position})
    ensures Inv(Complete(s, r)) <==> forall u :: u in s.batches[r.position].requests ==> u.id !in s.requests
  {
    var t := Complete(s, r);
    forall p | p in t.batches
      ensures BatchOk(t, p, t.batches[p])
    {
      NotInOtherBatch(s, r, p);
      OtherBatch(s, p, r.id);
      SameBatchElsewhere(s.(outstanding := s.outstanding - {r.id}), t, p, s.batches[p]);
    }
    LateCloseIsExclusiveExactly(s, r);
  }

  lemma LateCloseIsExclusiveExactly(s: Store, r: Request)
    requires Inv(s) && r.position in s.batches
    ensures Exclusive(s.(outstanding := s.outstanding - {r.id}, batches := s.batches - {r.position}))
            <==> forall u :: u in s.batches[r.position].requests ==> u.id !in s.requests
  {
    var t := s.(outstanding := s.outstanding - {r.id}, batches := s.batches - {r.position});
    hide BatchOk;
    if u :| u in s.batches[r.position].requests && u.id in s.requests {
      SameId(s, r.position, u, u.id);
      BatchPosition(s, r.position, u);
      assert s.requests[u.id] == u && !Current(t, u);
    } else {
      forall id | id in t.requests && ClosesPosition(t.requests[id])
        ensures Current(t, t.requests[id])
      {
        assert Current(s, s.requests[id]);
        KnownId(s, id);
      }
    }
  }

  lemma BatchPosition(s: Store, p: string, r: Request)
    requires Inv(s) && p in s.batches && r in s.batches[p].requests
    ensures r.position == p && ClosesPosition(r) && r.id in s.issued
  {
    assert BatchOk(s, p, s.batches[p]);
  }

  lemma KnownId(s: Store, id: nat)
    requires Inv(s) && id in s.requests
    ensures s.requests[id].id == id
  {
  }

  // ----- preparing a batch

  predicate FreshFor(s: Store, position: string, requests: seq<Request>) {
    && position != "" && s.now > NEVER && DistinctIds(requests)
    && forall r :: r in requests ==> r.close && r.position == position && r.id !in s.issued
  }

  lemma {:induction false} EarliestFacts(requests: seq<Request>, now: int)
    requires now > NEVER
    ensures var e := Earliest(requests, now, NEVER);
            && (e == NEVER <==> forall r :: r in requests ==> now > r.expires)
            && (e != NEVER ==> e >= now && forall r :: r in requests && now <= r.expires ==> e <= r.expires)
  {
    if requests != [] {
      var front, last := requests[..|requests| - 1], requests[|requests| - 1];
      assert requests == front + [last];
      EarliestFacts(front, now);
    }
  }

  /** The last request of a list and the ones before it. */
  lemma DistinctFront(requests: seq<Request>)
    requires DistinctIds(requests) && requests != []
    ensures var front, last := requests[..|requests| - 1], requests[|requests| - 1];
            && DistinctIds(front)
            && (forall r :: r in front ==> r.id != last.id)
            && (forall r :: r in requests <==> r in front || r == last)
  {
    assert requests == requests[..|requests| - 1] + [requests[|requests| - 1]];
  }

  lemma {:induction false} AddFacts(pending: map<nat, Request>, requests: seq<Request>, now: int)
    requires DistinctIds(requests)
    ensures var added := Add(pending, requests, now);
            && (forall r :: r in requests && now <= r.expires ==> r.id in added && added[r.id] == r)
            && (forall id :: id in added ==>
                  (id in pending && added[id] == pending[id])
                    || (added[id] in requests && added[id].id == id && now <= added[id].expires))
            && (forall id :: id in pending && id !in Ids(requests) ==> id in added && added[id] == pending[id])
  {
    if requests != [] {
      DistinctFront(requests);
      hide DistinctIds;
      AddFacts(pending, requests[..|requests| - 1], now);
    }
  }

  lemma {:induction false} IssueFacts(issued: map<nat, Request>, requests: seq<Request>)
    requires DistinctIds(requests) && forall r :: r in requests ==> r.id !in issued
    ensures var t := Issue(issued, requests);
            && (forall r :: r in requests ==> r.id in t && t[r.id] == r)
            && (forall id :: id in issued ==> id in t && t[id] == issued[id])
            && (forall id :: id in t && id !in issued ==> t[id] in requests && t[id].id == id)
  {
    if requests != [] {
      DistinctFront(requests);
      hide DistinctIds;
      IssueFacts(issued, requests[..|requests| - 1]);
    }
  }

  /** What `Prepare` stores, as facts. */
  predicate PreparedFrom(s: Store, position: string, requests: seq<Request>, expires: int, t: Store) {
    && t.outstanding == s.outstanding && t.now == s.now
    && (forall r :: r in requests ==> r.id in t.issued && t.issued[r.id] == r)
    && (forall id :: id in s.issued ==> id in t.issued && t.issued[id] == s.issued[id])
    && (forall id :: id in t.issued && id !in s.issued ==> t.issued[id] in requests && t.issued[id].id == id)
    && (forall id :: id in s.requests ==> id in t.requests && t.requests[id] == s.requests[id])
    && (forall id :: id in t.requests && id !in s.requests ==> t.requests[id] in requests && t.requests[id].id == id)
    && (forall r :: r in requests && r.expires >= s.now ==> r.id in t.requests)
    && (forall r :: r in requests && r.expires >= s.now ==> expires != NEVER && s.now <= expires <= r.expires)
    && (forall id :: id in t.requests && id !in s.requests ==> t.requests[id].expires >= s.now)
    && t.batches == if expires == NEVER then s.batches else s.batches[position := Batch(requests, expires, {}, {})]
  }

  lemma PrepareStores(s: Store, position: string, requests: seq<Request>)
    requires Inv(s) && FreshFor(s, position, requests) && position !in s.batches && CleanBatches(s) == s
    ensures PreparedFrom(s, position, requests, Earliest(requests, s.now, NEVER), Prepare(s, position, requests))
  {
    hide BatchOk;
    EarliestFacts(requests, s.now);
    AddFacts(s.requests, requests, s.now);
    IssueFacts(s.issued, requests);
    forall id | id in s.requests
      ensures id !in Ids(requests)
    {
    }
  }

  lemma PreparedBatch(s: Store, position: string, requests: seq<Request>, expires: int, t: Store, p: string)
    requires Inv(s) && FreshFor(s, position, requests) && position !in s.batches
    requires PreparedFrom(s, position, requests, expires, t) && p in t.batches
    ensures BatchOk(t, p, t.batches[p])
  {
    if p in s.batches {
      assert BatchOk(s, p, s.batches[p]);
    }
  }

  lemma PreparedKeepsInv(s: Store, position: string, requests: seq<Request>, expires: int, t: Store)
    requires Inv(s) && FreshFor(s, position, requests) && position !in s.batches
    requires PreparedFrom(s, position, requests, expires, t)
    ensures Inv(t)
  {
    hide BatchOk;
    forall p | p in t.batches
      ensures BatchOk(t, p, t.batches[p])
    {
      PreparedBatch(s, position, requests, expires, t, p);
    }
    forall id | id in t.requests && ClosesPosition(t.requests[id])
      ensures Current(t, t.requests[id])
    {
      assert id in s.requests ==> Current(s, s.requests[id]);
    }
  }

  lemma CleanTwice(s: Store)
    ensures CleanBatches(CleanBatches(s)) == CleanBatches(s)
  {
    var t := CleanBatches(s);
    assert CleanBatches(t).batches == t.batches;
    assert CleanBatches(t).requests == t.requests;
  }

  lemma PrepareKeepsInv(s0: Store, position: string, requests: seq<Request>)
    requires Inv(s0) && FreshFor(s0, position, requests)
    ensures Inv(Prepare(s0, position, requests))
  {
    hide BatchOk, Inv, Earliest, Add, Issue, PreparedFrom;
    CleanKeepsInv(s0);
    CleanTwice(s0);
    var s := CleanBatches(s0);
    if position !in s.batches {
      PrepareStores(s, position, requests);
      PreparedKeepsInv(s, position, requests, Earliest(requests, s.now, NEVER), Prepare(s, position, requests));
    }
  }

  // ----- whole runs

  datatype Step =
    | Wait(time: nat)
    | PrepareClose(position: string, requests: seq<Request>)
    | Look
    | Submit(id: nat, matches: bool, signed: bool)
    | GiveBack(request: Request)
    | Done(request: Request)
    | PutOther(request: Request)
    | Sweep(maxAge: nat)

  function Next(s: Store, step: Step): Store {
    match step
    case Wait(time) => s.(now := s.now + time)
    case PrepareClose(position, requests) => Prepare(s, position, requests)
    case Look => CleanBatches(s)
    case Submit(id, matches, signed) => Consume(s, id, matches, signed)
    case GiveBack(r) => Put(s, r)
    case Done(r) => Complete(s, r)
    case PutOther(r) => Put(s, r)
    case Sweep(maxAge) => Cleanup(s, maxAge)
  }

  /** A consumed request is given back or completed once, while its batch is the position's
      one (or, given back, has expired itself; or, completed, the position has no batch). */
  predicate Admissible(s: Store, step: Step) {
    match step
    case PrepareClose(position, requests) => FreshFor(s, position, requests)
    case GiveBack(r) =>
      r.id in s.outstanding && r.id in s.issued && s.issued[r.id] == r
        && (!ClosesPosition(r) || Current(s, r) || s.now > r.expires)
    case Done(r) =>
      r.id in s.outstanding && r.id in s.issued && s.issued[r.id] == r
        && (!ClosesPosition(r) || Current(s, r) || r.position !in s.batches)
    case PutOther(r) => r.id !in s.issued && !ClosesPosition(r)
    case _ => true
  }

  lemma WaitKeepsInv(s: Store, time: nat)
    requires Inv(s)
    ensures Inv(s.(now := s.now + time))
  {
    forall p | p in s.batches
      ensures BatchOk(s.(now := s.now + time), p, s.batches[p])
    {
      assert BatchOk(s, p, s.batches[p]);
    }
  }

  lemma PutOtherBatch(s: Store, r: Request, p: string)
    requires Inv(s) && r.id !in s.issued && p in s.batches && s.requests == Unexpired(s.requests, s.now)
    requires !ClosesPosition(r)
    ensures BatchOk(Put(s, r), p, s.batches[p])
  {
    assert BatchOk(s, p, s.batches[p]);
    assert r.id !in s.requests && r.id !in s.outstanding;
    assert Put(s, r).outstanding == s.outstanding;
  }

  lemma PutOtherKeepsInv(s: Store, r: Request)
    requires Inv(s) && r.id !in s.issued && !ClosesPosition(r)
    ensures Inv(Put(s, r))
  {
    var unexpired := s.(requests := Unexpired(s.requests, s.now));
    UnexpiredKeepsInv(s, unexpired.requests);
    assert Unexpired(unexpired.requests, s.now) == unexpired.requests;
    assert Put(unexpired, r) == Put(s, r);
    PutOtherToUnexpired(unexpired, r);
  }

  lemma PutOtherToUnexpired(s: Store, r: Request)
    requires Inv(s) && r.id !in s.issued && !ClosesPosition(r) && s.requests == Unexpired(s.requests, s.now)
    ensures Inv(Put(s, r))
  {
    hide BatchOk, Unexpired;
    var t := Put(s, r);
    forall p | p in t.batches
      ensures BatchOk(t, p, t.batches[p])
    {
      PutOtherBatch(s, r, p);
    }
    forall id | id in t.requests && ClosesPosition(t.requests[id])
      ensures Current(t, t.requests[id])
    {
      assert Current(s, s.requests[id]);
    }
  }

  lemma StepKeepsInv(s: Store, step: Step)
    requires Inv(s) && Admissible(s, step)
    ensures Inv(Next(s, step))
  {
    hide Inv, BatchOk, Prepare, CleanBatches, Consume, Put, Complete, FreshFor, Current;
    match step
    case Wait(time) => WaitKeepsInv(s, time);
    case PrepareClose(position, requests) => PrepareKeepsInv(s, position, requests);
    case Look => CleanKeepsInv(s);
    case Submit(id, matches, signed) => ConsumeKeepsInv(s, id, matches, signed);
    case GiveBack(r) => GiveBackKeepsInvExactly(s, r);
    case Done(r) => CompleteKeepsInv(s, r);
    case PutOther(r) => PutOtherKeepsInv(s, r);
    case Sweep(maxAge) => UnexpiredKeepsInv(s, Cleanup(s, maxAge).requests);
  }

  function Run(s: Store, steps: seq<Step>): Store
    decreases |steps|
  {
    if steps == [] then s else Run(Next(s, steps[0]), steps[1..])
  }

  predicate AllAdmissible(s: Store, steps: seq<Step>)
    decreases |steps|
  {
    steps == [] || (Admissible(s, steps[0]) && AllAdmissible(Next(s, steps[0]), steps[1..]))
  }

  /** Over every run all that can be consumed for a position is in its one batch. */
  lemma {:induction false} RunKeepsInv(s: Store, steps: seq<Step>)
    requires Inv(s) && AllAdmissible(s, steps)
    ensures Inv(Run(s, steps))
    decreases |steps|
  {
    hide Inv, Next, Admissible;
    if steps != [] {
      StepKeepsInv(s, steps[0]);
      RunKeepsInv(Next(s, steps[0]), steps[1..]);
    }
  }

  /** A live batch keeps its requests until it expires, or until its last one completes. */
  lemma BatchStaysUntilComplete(s: Store, step: Step, position: string)
    requires Inv(s) && Admissible(s, step) && Live(s, position)
    ensures var b := s.batches[position];
            var t := Next(s, step);
            if position in t.batches then t.batches[position].requests == b.requests
              && t.batches[position].expires == b.expires
            else step.Done? && step.request.position == position && Ids(b.requests) == b.complete + {step.request.id}
  {
    hide BatchOk, Earliest, Add, Issue, Remaining;
    if step.Done? && ClosesPosition(step.request) && Current(s, step.request) {
      ClosedIsComplete(s, step.request);
    }
  }

  /** While a batch is live, no request outside of it can be consumed for its position. */
  lemma OnlyTheBatchCanBeConsumed(s: Store, steps: seq<Step>, position: string, id: nat)
    requires Inv(s) && AllAdmissible(s, steps)
    requires var t := Run(s, steps);
             Live(t, position) && id in t.requests && ClosesPosition(t.requests[id])
               && t.requests[id].position == position
    ensures var t := Run(s, steps);
            t.requests[id] in t.batches[position].requests && id !in t.batches[position].complete
            && id !in t.batches[position].inFlight && id !in t.outstanding
  {
    hide Run, AllAdmissible;
    RunKeepsInv(s, steps);
    var t := Run(s, steps);
    assert Current(t, t.requests[id]);
    assert BatchOk(t, position, t.batches[position]);
  }

  /** Preparing again while the batch is live makes nothing new consumable. */
  lemma PrepareAgainAddsNothing(s: Store, position: string, requests: seq<Request>)
    requires Inv(s) && Live(s, position)
    ensures Prepare(s, position, requests).requests.Keys <= s.requests.Keys
  {
  }

  /** One shot: a consumed request stays gone until it is given back. */
  lemma {:induction false} ConsumedStaysGone(s: Store, steps: seq<Step>, id: nat)
    requires Inv(s) && AllAdmissible(s, steps) && id in s.issued && id !in s.requests
    requires forall step :: step in steps && step.GiveBack? ==> step.request.id != id
    ensures id !in Run(s, steps).requests
    decreases |steps|
  {
    if steps != [] {
      assert steps[0] in steps;
      StepKeepsInv(s, steps[0]);
      StaysGone(s, steps[0], id);
      ConsumedStaysGone(Next(s, steps[0]), steps[1..], id);
    }
  }

  lemma StaysGone(s: Store, step: Step, id: nat)
    requires Inv(s) && Admissible(s, step) && id in s.issued && id !in s.requests
    requires step.GiveBack? ==> step.request.id != id
    ensures id !in Next(s, step).requests && id in Next(s, step).issued
  {
    hide BatchOk, Remaining;
    if step.PrepareClose? {
      var c := CleanBatches(s);
      AddFacts(c.requests, step.requests, c.now);
      IssueFacts(c.issued, step.requests);
    }
  }

  // ----- a batch is removed unfinished only after a late completion

  /** A completion of a request that is not of its position's batch. */
  predicate LateDone(s: Store, step: Step) {
    step.Done? && ClosesPosition(step.request) && step.request.position in s.batches
    && step.request.id !in Ids(s.batches[step.request.position].requests)
  }

  /** A batch that has not expired goes, and one of its requests was never completed. */
  predicate RemovesUnfinished(s: Store, step: Step) {
    exists p :: p in s.batches && s.now <= s.batches[p].expires && p !in Next(s, step).batches
      && Unfinished(s.batches[p], s.batches[p].complete + (if step.Done? then {step.request.id} else {}))
  }

  /** What is counted as complete is of the batch. */
  predicate CountsOk(s: Store) {
    forall p :: p in s.batches ==>
      DistinctIds(s.batches[p].requests) && s.batches[p].complete <= Ids(s.batches[p].requests)
  }

  predicate DistinctIfPrepared(step: Step) {
    step.PrepareClose? ==> DistinctIds(step.requests)
  }

  lemma DoneOnTimeKeepsCounts(s: Store, r: Request)
    requires CountsOk(s) && !LateDone(s, Done(r))
    ensures CountsOk(Next(s, Done(r))) && !RemovesUnfinished(s, Done(r))
  {
    if ClosesPosition(r) && r.position in s.batches {
      RemovedTooEarlyExactly(s, r);
    }
  }

  lemma PrepareKeepsCounts(s: Store, position: string, requests: seq<Request>)
    requires CountsOk(s) && DistinctIds(requests)
    ensures CountsOk(Prepare(s, position, requests))
    ensures forall p :: p in s.batches && s.now <= s.batches[p].expires ==> p in Prepare(s, position, requests).batches
  {
    hide Add, Issue, Earliest, Remaining, InExpiredBatch, DistinctIds, Ids;
    assert DistinctIds(requests) && {} <= Ids(requests);
  }

  lemma OnTimeKeepsCounts(s: Store, step: Step)
    requires CountsOk(s) && DistinctIfPrepared(step) && !LateDone(s, step)
    ensures CountsOk(Next(s, step)) && !RemovesUnfinished(s, step)
  {
    if step.Done? {
      DoneOnTimeKeepsCounts(s, step.request);
    } else if step.PrepareClose? {
      hide Prepare, CountsOk;
      PrepareKeepsCounts(s, step.position, step.requests);
    } else {
      hide Add, Issue, Earliest, Remaining, InExpiredBatch, Unexpired, DistinctIds, Unfinished, Complete, Ids;
      assert forall p :: p in s.batches && s.now <= s.batches[p].expires ==> p in Next(s, step).batches;
    }
  }

  predicate NoLateDone(s: Store, steps: seq<Step>)
    decreases |steps|
  {
    steps == [] || (!LateDone(s, steps[0]) && NoLateDone(Next(s, steps[0]), steps[1..]))
  }

  predicate RemovalsFinished(s: Store, steps: seq<Step>)
    decreases |steps|
  {
    steps == [] || (!RemovesUnfinished(s, steps[0]) && RemovalsFinished(Next(s, steps[0]), steps[1..]))
  }

  /** Over every run, even one that gives requests back late or twice: as long as no
      completion is late, a batch that has not expired is only removed with all its requests
      complete. */
  lemma {:induction false} RemovedUnfinishedOnlyAfterLateDone(s: Store, steps: seq<Step>)
    requires CountsOk(s) && NoLateDone(s, steps) && forall step :: step in steps ==> DistinctIfPrepared(step)
    ensures RemovalsFinished(s, steps)
    decreases |steps|
  {
    hide CountsOk, LateDone, RemovesUnfinished, Next;
    if steps != [] {
      assert steps[0] in steps;
      OnTimeKeepsCounts(s, steps[0]);
      RemovedUnfinishedOnlyAfterLateDone(Next(s, steps[0]), steps[1..]);
    }
  }

  // ----- what goes wrong with requests of an older batch

  const FIRST := Request(1, "p", true, 10)
  const OLD := Request(2, "p", true, 20)
  const NEW := Request(3, "p", true, 30)

  /** At time 15 the batch of `OLD`, which expired at 10 with an earlier request, has made
      way for one of `NEW`, while `OLD` was still being submitted. */
  const OVERTAKEN := Store(map[3 := NEW], map["p" := Batch([NEW], 30, {}, {})], {2},
    map[1 := FIRST, 2 := OLD, 3 := NEW], 15)

  const EMPTY := Store(map[], map[], {}, map[], 0)
  const PREPARED := Store(map[1 := FIRST, 2 := OLD], map["p" := Batch([FIRST, OLD], 10, {}, {})], {},
    map[1 := FIRST, 2 := OLD], 0)
  const SUBMITTING := Store(map[1 := FIRST], map["p" := Batch([FIRST, OLD], 10, {2}, {})], {2},
    map[1 := FIRST, 2 := OLD], 0)

  lemma FirstBatch()
    ensures Next(EMPTY, PrepareClose("p", [FIRST, OLD])) == PREPARED
  {
    assert CleanBatches(EMPTY) == EMPTY;
    assert [FIRST, OLD][..1] == [FIRST] && [FIRST][..0] == [];
    assert Earliest([FIRST], 0, NEVER) == 10;
    assert Add(map[], [FIRST], 0) == map[1 := FIRST];
    assert Issue(map[], [FIRST]) == map[1 := FIRST];
  }

  lemma SecondBatch()
    ensures Next(SUBMITTING.(now := 15), PrepareClose("p", [NEW])) == OVERTAKEN
  {
    var s := SUBMITTING.(now := 15);
    assert CleanBatches(s).batches == map[] && CleanBatches(s).requests == map[];
    assert [NEW][..0] == [];
    assert Add(map[], [NEW], 15) == map[3 := NEW];
    assert Earliest([NEW], 15, NEVER) == 30;
    assert Issue(s.issued, [NEW]) == s.issued[3 := NEW];
  }

  /** The steps that lead there from an empty store. */
  lemma OvertakenIsReachable()
    ensures var prepared := Next(EMPTY, PrepareClose("p", [FIRST, OLD]));
            var submitting := Next(prepared, Submit(2, true, true));
            Next(Next(submitting, Wait(15)), PrepareClose("p", [NEW])) == OVERTAKEN
  {
    FirstBatch();
    assert PREPARED.requests - {2} == map[1 := FIRST];
    assert {} + {2} == {2};
    assert PREPARED.batches["p" := Batch([FIRST, OLD], 10, {2}, {})] == SUBMITTING.batches;
    assert ConsumeOk(PREPARED, OLD) == SUBMITTING;
    SecondBatch();
  }

  /** Given back late, the old request can be consumed beside the new one. */
  lemma LateGiveBackAllowsTwo()
    ensures var t := Put(OVERTAKEN, OLD); OLD.id in t.requests && NEW.id in t.requests && !Exclusive(t)
  {
    assert !Current(Put(OVERTAKEN, OLD), OLD);
  }

  /** Completed late, it closes the new batch, whose own request can still be consumed; a
      third close may then be prepared. */
  lemma LateCompleteClosesNewBatch()
    ensures var t := Complete(OVERTAKEN, OLD);
            "p" !in t.batches && NEW.id in t.requests && Existing(t, "p") == Nothing
  {
  }

  const NEWER := Request(4, "p", true, 30)

  /** As `OVERTAKEN`, with a new batch of two. */
  const OVERTAKEN_PAIR := Store(
    map[3 := NEW, 4 := NEWER], map["p" := Batch([NEW, NEWER], 30, {}, {})], {2},
    map[1 := FIRST, 2 := OLD, 3 := NEW, 4 := NEWER], 15)

  lemma OvertakenPairIsReachable()
    ensures Next(SUBMITTING.(now := 15), PrepareClose("p", [NEW, NEWER])) == OVERTAKEN_PAIR
  {
    var s := SUBMITTING.(now := 15);
    assert CleanBatches(s).batches == map[] && CleanBatches(s).requests == map[];
    assert [NEW, NEWER][..1] == [NEW] && [NEW][..0] == [];
    assert Add(map[], [NEW], 15) == map[3 := NEW];
    assert Earliest([NEW], 15, NEVER) == 30;
    assert Issue(s.issued, [NEW]) == s.issued[3 := NEW];
    assert Issue(s.issued, [NEW, NEWER]) == OVERTAKEN_PAIR.issued;
  }

  /** There the late completion removes nothing, but it is counted: when `NEW` is consumed and
      completed, the batch goes while `NEWER` can still be consumed. */
  lemma LateCompleteSpoilsNextCount()
    ensures var counted := Complete(OVERTAKEN_PAIR, OLD);
            var t := Complete(Consume(counted, 3, true, true), NEW);
            && "p" in counted.batches && LateDone(OVERTAKEN_PAIR, Done(OLD))
            && "p" !in t.batches && NEWER.id in t.requests && Existing(t, "p") == Nothing
  {
    assert [NEW, NEWER][0] == NEW && [NEW, NEWER][1] == NEWER;
    assert forall r :: r in [NEW, NEWER] ==> r.id != 2;
    var counted := Complete(OVERTAKEN_PAIR, OLD);
    assert counted.batches == map["p" := Batch([NEW, NEWER], 30, {}, {2})] by { assert {} + {2} == {2}; }
    var consumed := Consume(counted, 3, true, true);
    assert consumed.batches["p"] == Batch([NEW, NEWER], 30, {3}, {2}) by { assert {} + {3} == {3}; }
    assert |{2} + {3}| == 2;
  }

  // ----- what each call does

  /** A request is taken out as consumed exactly when it is stored and not expired and the action
      agrees with it and is signed; an expired one is dropped; anything else changes nothing. */
  lemma ConsumedExactly(s: Store, id: nat, matches: bool, signed: bool)
    requires KnownIds(s)
    ensures var t := Consume(s, id, matches, signed);
            && (id !in s.requests || !matches ==> t == s)
            && (id in s.requests && matches && s.requests[id].expires < s.now ==>
                  t == s.(requests := s.requests - {id}))
            && (id in s.requests && matches && s.now <= s.requests[id].expires && !signed ==> t == s)
            && (id in s.requests && matches && s.now <= s.requests[id].expires && signed ==>
                  && t.requests == s.requests - {id} && t.outstanding == s.outstanding + {id}
                  && t.issued == s.issued && t.now == s.now
                  && FlightChanged(s.batches, t.batches, s.requests[id], true))
  {
    if id in s.requests {
      assert s.requests[id].id == id;
    }
  }

  /** At most the batch of a request that closes a position changes: the request is in flight
      afterwards, or no longer. */
  ghost predicate FlightChanged(before: map<string, Batch>, after: map<string, Batch>, r: Request, inFlight: bool) {
    && after.Keys == before.Keys
    && forall p :: p in before ==>
         if p == r.position && r.position != "" && r.close then
           && after[p].requests == before[p].requests && after[p].expires == before[p].expires
           && after[p].complete == before[p].complete
           && (forall id :: id in after[p].inFlight <==>
                 if id == r.id then inFlight else id in before[p].inFlight)
         else after[p] == before[p]
  }

  /** Storing drops what has expired; the request itself is stored, and out of flight, unless it
      has expired too. */
  lemma PutExactly(s: Store, r: Request)
    ensures var t := Put(s, r);
            && (forall id :: id in t.requests <==>
                  (id == r.id && s.now <= r.expires)
                  || (id in s.requests && s.now <= s.requests[id].expires))
            && (forall id :: id in t.requests ==>
                  t.requests[id] == if id == r.id && s.now <= r.expires then r else s.requests[id])
            && t.outstanding == s.outstanding - {r.id} && t.issued == s.issued[r.id := r] && t.now == s.now
            && (s.now > r.expires ==> t.batches == s.batches)
            && (s.now <= r.expires ==> FlightChanged(s.batches, t.batches, r, false))
  {
  }

  /** Completing takes a close request out of flight and counts it; the batch goes exactly when
      its count is full, and nothing else changes. */
  lemma CompletedExactly(s: Store, r: Request)
    ensures var t := Complete(s, r);
            && t.requests == s.requests && t.outstanding == s.outstanding - {r.id} && t.issued == s.issued
            && t.now == s.now
            && (forall p :: p in s.batches && (p != r.position || p == "" || !r.close) ==>
                  p in t.batches && t.batches[p] == s.batches[p])
            && (forall p :: p in t.batches ==> p in s.batches)
            && (r.position in s.batches && r.position != "" && r.close ==>
                  var b := s.batches[r.position];
                  && (r.position !in t.batches <==> |b.complete + {r.id}| == |b.requests|)
                  && (r.position in t.batches ==>
                        var after := t.batches[r.position];
                        && after.requests == b.requests && after.expires == b.expires
                        && after.inFlight == b.inFlight - {r.id} && after.complete == b.complete + {r.id}))
  {
  }

  /** Cleaning keeps exactly the requests that have not expired and are in no expired batch, and
      the batches that have not. */
  lemma CleanedExactly(s: Store)
    ensures var t := CleanBatches(s);
            && (forall id :: id in t.requests <==>
                  && id in s.requests && s.requests[id].expires >= s.now
                  && forall p :: p in s.batches && s.batches[p].expires < s.now ==>
                       forall r :: r in s.batches[p].requests ==> r.id != id)
            && (forall id :: id in t.requests ==> t.requests[id] == s.requests[id])
            && (forall p :: p in t.batches <==> p in s.batches && s.batches[p].expires >= s.now)
            && (forall p :: p in t.batches ==> t.batches[p] == s.batches[p])
            && t == s.(requests := t.requests, batches := t.batches)
  {
    forall id, p | id in s.requests && p in s.batches && s.batches[p].expires < s.now
      ensures id in Ids(s.batches[p].requests) <==> exists r :: r in s.batches[p].requests && r.id == id
    {
    }
  }

  /** A sweep drops exactly the requests that expired before `maxAge` ago. */
  lemma SweptExactly(s: Store, maxAge: nat)
    ensures var t := Cleanup(s, maxAge);
            && (forall id :: id in t.requests <==> id in s.requests && s.requests[id].expires + maxAge >= s.now)
            && (forall id :: id in t.requests ==> t.requests[id] == s.requests[id])
            && t == s.(requests := t.requests) == Next(s, Sweep(maxAge))
  {
  }

  /** What is left to sign of a batch: its requests that are pending and not complete. */
  lemma {:induction false} RemainingExactly(requests: seq<Request>, pending: map<nat, Request>, complete: set<nat>)
    ensures forall r :: r in Remaining(requests, pending, complete) <==>
              r in requests && r.id in pending && r.id !in complete
  {
    if requests != [] {
      var front, last := requests[..|requests| - 1], requests[|requests| - 1];
      assert requests == front + [last];
      RemainingExactly(front, pending, complete);
    }
  }

  /** `part` stands in `whole` in this order. */
  predicate InOrder(part: seq<Request>, whole: seq<Request>)
    decreases |whole|
  {
    part == [] || (whole != [] &&
      var p, w := part[|part| - 1], whole[|whole| - 1];
      InOrder(if p == w then part[..|part| - 1] else part, whole[..|whole| - 1]))
  }

  /** It is in the order of the batch. */
  lemma {:induction false} RemainingInOrder(requests: seq<Request>, pending: map<nat, Request>, complete: set<nat>)
    requires DistinctIds(requests)
    ensures InOrder(Remaining(requests, pending, complete), requests)
  {
    if requests != [] {
      var front, last := requests[..|requests| - 1], requests[|requests| - 1];
      RemainingInOrder(front, pending, complete);
      RemainingExactly(front, pending, complete);
      var before := Remaining(front, pending, complete);
      if last.id in pending && last.id !in complete {
        assert (before + [last])[..|before|] == before;
      } else {
        assert before + [] == before;
        if before != [] {
          assert before[|before| - 1] in front;
          var i :| 0 <= i < |front| && front[i] == before[|before| - 1];
          assert requests[i].id != requests[|requests| - 1].id;
        }
      }
    }
  }

  /** The answer about a position: nothing without a batch, in progress while one of its requests
      is in flight or none is left to sign, and what is left otherwise. */
  lemma ExistingExactly(s: Store, position: string)
    ensures Existing(s, position) == Nothing <==> position !in s.batches
    ensures position in s.batches ==>
              var b := s.batches[position];
              && (Existing(s, position) == InProgress <==>
                    b.inFlight != {} || forall r :: r in b.requests ==> r.id !in s.requests || r.id in b.complete)
              && (Existing(s, position).Prepared? ==>
                    forall r :: r in Existing(s, position).requests <==>
                      r in b.requests && r.id in s.requests && r.id !in b.complete)
  {
    if position in s.batches {
      var b := s.batches[position];
      RemainingExactly(b.requests, s.requests, b.complete);
      var left := Remaining(b.requests, s.requests, b.complete);
      if left != [] {
        assert left[0] in left;
      }
    }
  }

  lemma {:induction false} EarliestExactly(requests: seq<Request>, now: int)
    requires now > NEVER
    ensures var e := Earliest(requests, now, NEVER);
            && (e == NEVER <==> forall r :: r in requests ==> r.expires < now)
            && (e != NEVER ==>
                  && (exists r :: r in requests && r.expires == e && now <= e)
                  && forall r :: r in requests && now <= r.expires ==> e <= r.expires)
  {
    if requests != [] {
      var front, last := requests[..|requests| - 1], requests[|requests| - 1];
      assert requests == front + [last];
      EarliestExactly(front, now);
    }
  }

  lemma {:induction false} AddExactly(pending: map<nat, Request>, requests: seq<Request>, now: int)
    requires DistinctIds(requests)
    ensures var all := Add(pending, requests, now);
            && (forall r :: r in requests && now <= r.expires ==> r.id in all && all[r.id] == r)
            && (forall id :: id in all <==>
                  id in pending || exists r :: r in requests && now <= r.expires && r.id == id)
            && (forall id :: id in pending && (forall r :: r in requests ==> r.id != id) ==> all[id] == pending[id])
  {
    if requests != [] {
      var front, last := requests[..|requests| - 1], requests[|requests| - 1];
      assert requests == front + [last];
      AddExactly(pending, front, now);
      var rest, all := Add(pending, front, now), Add(pending, requests, now);
      forall r | r in requests && now <= r.expires
        ensures r.id in all && all[r.id] == r
      {
        if r != last {
          assert r in front;
          var i :| 0 <= i < |front| && front[i] == r;
          assert requests[i].id != requests[|requests| - 1].id;
        }
      }
      forall id
        ensures id in all <==> id in pending || exists r :: r in requests && now <= r.expires && r.id == id
      {
        if id in rest && id !in pending {
          var r :| r in front && now <= r.expires && r.id == id;
          assert r in requests;
        }
        if now <= last.expires && id == last.id {
          assert last in requests;
        }
      }
    }
  }

  /** Preparing cleans; when the position still has a batch nothing else happens, and otherwise
      the requests that have not expired can be consumed and make up its batch, which
      expires with the first of them. */
  lemma PreparedExactly(s: Store, position: string, requests: seq<Request>)
    requires s.now > NEVER && DistinctIds(requests)
    ensures var c, t := CleanBatches(s), Prepare(s, position, requests);
            && (position in c.batches ==> t == c)
            && (position !in c.batches ==>
                  && (forall id :: id in t.requests <==>
                        id in c.requests || exists r :: r in requests && s.now <= r.expires && r.id == id)
                  && (forall r :: r in requests && s.now <= r.expires ==> t.requests[r.id] == r)
                  && (forall p :: p in c.batches ==> p in t.batches && t.batches[p] == c.batches[p])
                  && (forall p :: p in t.batches && p != position ==> p in c.batches)
                  && (position !in t.batches <==> forall r :: r in requests ==> r.expires < s.now)
                  && (position in t.batches ==>
                        var b := t.batches[position];
                        && b.requests == requests && b.inFlight == {} && b.complete == {}
                        && (exists r :: r in requests && r.expires == b.expires && s.now <= b.expires)
                        && forall r :: r in requests && s.now <= r.expires ==> b.expires <= r.expires))
  {
    var c := CleanBatches(s);
    ExistingExactly(c, position);
    EarliestExactly(requests, s.now);
    AddExactly(c.requests, requests, s.now);
    hide Add, Earliest, Issue, CleanBatches;
    CleanKeepsNow(s);
  }

  lemma CleanKeepsNow(s: Store)
    ensures CleanBatches(s).now == s.now
  {
  }

  // ----- the store itself

  class SigningRequestStore {
    var requests: map<nat, Request>
    var closeBatches: map<string, Batch>
    var now: int
    ghost var outstanding: set<nat>
    ghost var issued: map<nat, Request>

    ghost function View(): Store
      reads this
    {
      Store(requests, closeBatches, outstanding, issued, now)
    }

    constructor (now: int)
      ensures View() == Store(map[], map[], {}, map[], now) && Inv(View())
    {
      requests, closeBatches, this.now := map[], map[], now;
      outstanding, issued := {}, map[];
    }

    method CleanupCloseBatches()
      modifies this`requests, this`closeBatches
      ensures View() == CleanBatches(old(View()))
    {
      var kept := DropExpired(requests, now);
      requests, closeBatches := DropExpiredBatches(kept, closeBatches, now);
      assert requests == CleanBatches(old(View())).requests;
    }

    method DropExpiredBatches(all: map<nat, Request>, batches: map<string, Batch>, now: int)
      returns (kept: map<nat, Request>, live: map<string, Batch>)
      ensures kept == map id | id in all && !InExpiredBatch(batches, now, id) :: all[id]
      ensures live == map p | p in batches && now <= batches[p].expires :: batches[p]
    {
      hide Ids;
      kept, live := all, batches;
      var left := batches.Keys;
      while left != {}
        invariant left <= batches.Keys
        invariant forall p :: p in live <==> p in batches && (p in left || now <= batches[p].expires)
        invariant forall p :: p in live ==> live[p] == batches[p]
        invariant forall id :: id in kept ==> id in all && kept[id] == all[id]
        invariant forall id, p :: id in kept && p in batches && p !in left && now > batches[p].expires ==>
                  id !in Ids(batches[p].requests)
        invariant forall id :: id in all && !InExpiredBatch(batches, now, id) ==> id in kept
        decreases |left|
      {
        var p :| p in left;
        left := left - {p};
        if now > batches[p].expires {
          kept := kept - Ids(batches[p].requests);
          live := live - {p};
        }
      }
    }

    method DropExpired(all: map<nat, Request>, now: int) returns (kept: map<nat, Request>)
      ensures kept == Unexpired(all, now)
    {
      kept := all;
      var left := all.Keys;
      while left != {}
        invariant left <= all.Keys
        invariant forall id :: id in kept <==> id in all && (id in left || now <= all[id].expires)
        invariant forall id :: id in kept ==> kept[id] == all[id]
        decreases |left|
      {
        var id :| id in left;
        left := left - {id};
        if now > all[id].expires {
          kept := kept - {id};
        }
      }
    }

    method ExistingLocked(position: string) returns (answer: Answer)
      ensures answer == Existing(View(), position)
    {
      if position !in closeBatches {
        answer := Nothing;
      } else {
        var b := closeBatches[position];
        if b.inFlight != {} {
          answer := InProgress;
        } else {
          var result := [];
          for i := 0 to |b.requests|
            invariant result == Remaining(b.requests[..i], requests, b.complete)
          {
            assert b.requests[..i + 1][..i] == b.requests[..i];
            if b.requests[i].id !in b.complete && b.requests[i].id in requests {
              result := result + [b.requests[i]];
            }
          }
          assert b.requests[..|b.requests|] == b.requests;
          answer := if result == [] then InProgress else Prepared(result);
        }
      }
    }

    method ExistingCloseBatch(position: string) returns (answer: Answer)
      modifies this`requests, this`closeBatches
      ensures View() == Next(old(View()), Look) && answer == Existing(View(), position)
    {
      CleanupCloseBatches();
      answer := ExistingLocked(position);
    }

    /** Keeps the prepared batch of a position, or stores this one. */
    method ReuseOrStoreCloseBatch(position: string, batch: seq<Request>) returns (answer: Answer, reused: bool)
      modifies this
      ensures View() == Next(old(View()), PrepareClose(position, batch))
      ensures reused <==> answer.Prepared? && Existing(CleanBatches(old(View())), position) != Nothing
      ensures answer == if Existing(CleanBatches(old(View())), position) != Nothing
                        then Existing(CleanBatches(old(View())), position) else Prepared(batch)
    {
      CleanupCloseBatches();
      answer := ExistingLocked(position);
      reused := answer.Prepared?;
      if answer == Nothing {
        var expires := NEVER;
        ghost var before := View();
        for i := 0 to |batch|
          invariant expires == Earliest(batch[..i], now, NEVER)
          invariant requests == Add(before.requests, batch[..i], now)
          invariant View() == before.(requests := requests)
        {
          assert batch[..i + 1][..i] == batch[..i];
          if now <= batch[i].expires {
            requests := requests[batch[i].id := batch[i]];
            if expires == NEVER || batch[i].expires < expires {
              expires := batch[i].expires;
            }
          }
        }
        assert batch[..|batch|] == batch;
        if expires != NEVER {
          closeBatches := closeBatches[position := Batch(batch, expires, {}, {})];
        }
        issued := Issue(issued, batch);
        answer := Prepared(batch);
      }
    }

    method PutRequest(r: Request)
      modifies this
      ensures View() == Put(old(View()), r) == Next(old(View()), GiveBack(r)) == Next(old(View()), PutOther(r))
    {
      requests := DropExpired(requests, now);
      outstanding, issued := outstanding - {r.id}, issued[r.id := r];
      if now <= r.expires {
        requests := requests[r.id := r];
        if r.close && r.position != "" && r.position in closeBatches {
          var b := closeBatches[r.position];
          closeBatches := closeBatches[r.position := b.(inFlight := b.inFlight - {r.id})];
        }
      }
    }

    /** Looks a signed action up and, when it is in order, takes its request out. */
    method ValidateAndConsume(id: nat, matches: bool, signed: bool) returns (ok: bool)
      requires Inv(View())
      modifies this
      ensures Inv(View()) && View() == Next(old(View()), Submit(id, matches, signed))
      ensures ok <==> id in old(requests) && matches && now <= old(requests)[id].expires && signed
      ensures ok ==> id !in requests && outstanding == old(outstanding) + {id}
      ensures !ok ==> outstanding == old(outstanding) && closeBatches == old(closeBatches)
      ensures !ok && requests != old(requests) ==>
                matches && id in old(requests) && old(requests)[id].expires < now && requests == old(requests) - {id}
    {
      ConsumeKeepsInv(View(), id, matches, signed);
      ok := false;
      if id in requests && matches {
        var r := requests[id];
        if now > r.expires {
          requests := requests - {id};
        } else if signed {
          if r.position != "" && r.close && r.position in closeBatches {
            var b := closeBatches[r.position];
            closeBatches := closeBatches[r.position := b.(inFlight := b.inFlight + {r.id})];
          }
          requests := requests - {id};
          outstanding := outstanding + {id};
          ok := true;
        }
      }
    }

    /** The sweep that runs beside the calls. */
    method SweepExpired(maxAge: nat)
      modifies this`requests
      ensures View() == Cleanup(old(View()), maxAge) == Next(old(View()), Sweep(maxAge))
    {
      requests := DropExpired(requests, now - maxAge);
      assert requests == Cleanup(old(View()), maxAge).requests;
    }

    method CompleteCloseSubmission(r: Request)
      modifies this
      ensures View() == Complete(old(View()), r) == Next(old(View()), Done(r))
    {
      outstanding := outstanding - {r.id};
      if r.position != "" && r.close && r.position in closeBatches {
        var b := closeBatches[r.position];
        b := b.(inFlight := b.inFlight - {r.id}, complete := b.complete + {r.id});
        if |b.complete| == |b.requests| {
          closeBatches := closeBatches - {r.position};
        } else {
          closeBatches := closeBatches[r.position := b];
        }
      }
    }
  }
}
