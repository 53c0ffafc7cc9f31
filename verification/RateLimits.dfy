/** Two rate limiters: the sliding log that guards venue quotas, and the token buckets of
    the chat bot with their bounded table of chats.

    Times are milliseconds of a clock that never goes back. `grants` are history: the time
    of every request let through.
 */
module RateLimits {
  import opened Basics

  const MINUTE := 60_000

  predicate NonDecreasing(times: seq<int>) {
    forall i, j :: 0 <= i < j < |times| ==> times[i] <= times[j]
  }

  // ----- the sliding log

  /** How many of the times lie in the minute that ends at `t`. */
  function InMinute(times: seq<int>, t: int): nat {
    if times == [] then 0
    else InMinute(times[..|times| - 1], t) + (if t - MINUTE < times[|times| - 1] <= t then 1 else 0)
  }

  /** No minute, whenever it ends, holds more than the limit. */
  ghost predicate Limited(grants: seq<int>, limit: nat) {
    forall t: int :: InMinute(grants, t) <= limit
  }

  function Trim(requests: seq<int>, cutoff: int): seq<int> {
    if requests != [] && requests[0] <= cutoff then Trim(requests[1..], cutoff) else requests
  }

  lemma {:induction false} TrimKeepsRecent(requests: seq<int>, cutoff: int)
    requires NonDecreasing(requests)
    ensures var kept := Trim(requests, cutoff);
            && |kept| <= |requests| && kept == requests[|requests| - |kept|..]
            && (forall i :: 0 <= i < |requests| - |kept| ==> requests[i] <= cutoff)
            && (forall t :: t in kept ==> t > cutoff)
  {
    if requests != [] && requests[0] <= cutoff {
      assert requests[1..][0..] == requests[1..];
      TrimKeepsRecent(requests[1..], cutoff);
    }
  }

  lemma {:induction false} OldCountsNothing(times: seq<int>, t: int)
    requires forall i :: 0 <= i < |times| ==> times[i] <= t - MINUTE
    ensures InMinute(times, t) == 0
  {
    if times != [] {
      OldCountsNothing(times[..|times| - 1], t);
    }
  }

  /** Old times do not count, and recent ones count at most once. */
  lemma {:induction false} CountRecent(before: seq<int>, recent: seq<int>, t: int)
    requires forall i :: 0 <= i < |before| ==> before[i] <= t - MINUTE
    ensures InMinute(before + recent, t) <= |recent|
  {
    if recent == [] {
      assert before + recent == before;
      OldCountsNothing(before, t);
    } else {
      assert (before + recent)[..|before + recent| - 1] == before + recent[..|recent| - 1];
      CountRecent(before, recent[..|recent| - 1], t);
    }
  }

  /** The count is that of the places whose time is in the minute. */
  lemma {:induction false} InMinuteCounts(times: seq<int>, t: int)
    ensures InMinute(times, t) == |set i | 0 <= i < |times| && times[i] > t - 60_000 && times[i] <= t|
  {
    var all := set i | 0 <= i < |times| && times[i] > t - 60_000 && times[i] <= t;
    if times == [] {
      assert all == {};
    } else {
      var n := |times| - 1;
      var front := times[..n];
      var before := set i | 0 <= i < |front| && front[i] > t - 60_000 && front[i] <= t;
      InMinuteCounts(front, t);
      assert all == if times[n] > t - 60_000 && times[n] <= t then before + {n} else before;
    }
  }

  /** All recent times count. */
  lemma {:induction false} RecentAllCount(before: seq<int>, recent: seq<int>, t: int)
    requires forall i :: 0 <= i < |before| ==> before[i] <= t - MINUTE
    requires forall i :: 0 <= i < |recent| ==> t - MINUTE < recent[i] <= t
    ensures InMinute(before + recent, t) == |recent|
  {
    if recent == [] {
      assert before + recent == before;
      OldCountsNothing(before, t);
    } else {
      assert (before + recent)[..|before + recent| - 1] == before + recent[..|recent| - 1];
      assert (before + recent)[|before + recent| - 1] == recent[|recent| - 1];
      RecentAllCount(before, recent[..|recent| - 1], t);
    }
  }

  lemma TailIsMinute(grants: seq<int>, requests: seq<int>, now: int)
    requires Tail(grants, requests, now) && forall r :: r in requests ==> now - MINUTE < r <= now
    ensures InMinute(grants, now) == |requests|
  {
    var dropped := grants[..|grants| - |requests|];
    assert grants == dropped + requests;
    forall i | 0 <= i < |requests|
      ensures now - MINUTE < requests[i] <= now
    {
      assert requests[i] in requests;
    }
    RecentAllCount(dropped, requests, now);
  }

  /** `requests` is the tail of the grants that a minute ending now or later can hold. */
  predicate Tail(grants: seq<int>, requests: seq<int>, now: int) {
    && NonDecreasing(grants) && |requests| <= |grants| && requests == grants[|grants| - |requests|..]
    && (forall i :: 0 <= i < |grants| - |requests| ==> grants[i] <= now - MINUTE)
    && (forall i :: 0 <= i < |grants| ==> grants[i] <= now)
  }

  lemma GrantKeepsTail(grants: seq<int>, requests: seq<int>, now: int)
    requires Tail(grants, requests, now)
    ensures Tail(grants + [now], requests + [now], now)
  {
    assert (grants + [now])[|grants| - |requests|..] == requests + [now];
  }

  lemma GrantKeepsLimit(grants: seq<int>, requests: seq<int>, now: int, limit: nat)
    requires Limited(grants, limit) && Tail(grants, requests, now) && |requests| < limit
    ensures Limited(grants + [now], limit) && Tail(grants + [now], requests + [now], now)
  {
    GrantKeepsTail(grants, requests, now);
    var dropped := grants[..|grants| - |requests|];
    assert grants == dropped + requests;
    forall t: int
      ensures InMinute(grants + [now], t) <= limit
    {
      assert (grants + [now])[..|grants|] == grants;
      if t >= now {
        assert grants + [now] == dropped + (requests + [now]);
        CountRecent(dropped, requests + [now], t);
      } else {
        assert InMinute(grants + [now], t) == InMinute(grants, t);
      }
    }
  }

  lemma TailIsSorted(grants: seq<int>, requests: seq<int>, now: int)
    requires Tail(grants, requests, now)
    ensures NonDecreasing(requests)
  {
    var first := |grants| - |requests|;
    forall i, j | 0 <= i < j < |requests|
      ensures requests[i] <= requests[j]
    {
      assert requests[i] == grants[first + i] && requests[j] == grants[first + j];
    }
  }

  lemma TrimKeepsTail(grants: seq<int>, requests: seq<int>, before: int, now: int)
    requires Tail(grants, requests, before) && before <= now
    ensures Tail(grants, Trim(requests, now - MINUTE), now)
  {
    TailIsSorted(grants, requests, before);
    TrimKeepsRecent(requests, now - MINUTE);
    var kept := Trim(requests, now - MINUTE);
    var first := |grants| - |requests|;
    forall i | 0 <= i < |grants| - |kept|
      ensures grants[i] <= now - MINUTE
    {
      if i >= first {
        assert requests[i - first] == grants[i];
      }
    }
  }

  lemma TailLater(grants: seq<int>, requests: seq<int>, before: int, now: int)
    requires Tail(grants, requests, before) && before <= now
    ensures Tail(grants, requests, now)
  {
  }

  lemma TailIsRecent(grants: seq<int>, requests: seq<int>, before: int, now: int, cutoff: int)
    requires Tail(grants, requests, before) && before <= now
    ensures forall r :: r in Trim(requests, cutoff) ==> cutoff < r <= now
  {
    TailIsSorted(grants, requests, before);
    TrimKeepsRecent(requests, cutoff);
    forall r | r in requests
      ensures r <= now
    {
      assert r in grants;
    }
  }

  method TrimRequests(all: seq<int>, cutoff: int) returns (kept: seq<int>)
    ensures kept == Trim(all, cutoff)
  {
    kept := all;
    while |kept| > 0 && kept[0] <= cutoff
      invariant Trim(kept, cutoff) == Trim(all, cutoff)
      decreases |kept|
    {
      kept := kept[1..];
    }
  }

  function LimitFor(venue: string): nat { if venue == "pacifica" then 30 else 100 }

  lemma LimitsPerVenue(venue: string)
    ensures venue == "pacifica" ==> LimitFor(venue) == 30
    ensures venue != "pacifica" ==> LimitFor(venue) == 100
  {
  }

  class Quota {
    const venue: string
    var pausedUntil: int
    var requests: seq<int>
    ghost var grants: seq<int>
    ghost var seen: int

    ghost predicate Valid()
      reads this
    {
      Limited(grants, LimitFor(venue)) && Tail(grants, requests, seen)
    }

    constructor (venue: string, now: int)
      ensures Valid() && grants == [] && seen == now && this.venue == venue && pausedUntil == now
    {
      this.venue, pausedUntil, requests, grants, seen := venue, now, [], [], now;
    }

    /** Grants at most the limit in every minute, and refuses exactly when paused or when the
        last minute already holds that many grants. */
    method Allow(now: int) returns (ok: bool)
      requires Valid() && seen <= now
      modifies this
      ensures Valid() && seen == now && pausedUntil == old(pausedUntil)
      ensures grants == if ok then old(grants) + [now] else old(grants)
      ensures ok <==> pausedUntil <= now && InMinute(old(grants), now) < LimitFor(venue)
      ensures !ok && now >= pausedUntil ==>
              |requests| >= LimitFor(venue) && forall r :: r in requests ==> now - MINUTE < r <= now
    {
      hide Limited, Tail, Trim;
      ghost var before := seen;
      seen := now;
      TailLater(grants, requests, before, now);
      ok := now >= pausedUntil;
      if ok {
        TrimKeepsTail(grants, requests, before, now);
        TailIsRecent(grants, requests, before, now, now - MINUTE);
        requests := TrimRequests(requests, now - MINUTE);
        TailIsMinute(grants, requests, now);
        ok := |requests| < LimitFor(venue);
        if ok {
          GrantKeepsLimit(grants, requests, now, LimitFor(venue));
          requests, grants := requests + [now], grants + [now];
        }
      }
    }

    /** A pause is only ever extended. */
    method Pause(now: int, duration: int)
      requires Valid()
      modifies this`pausedUntil
      ensures Valid()
      ensures pausedUntil == if now + duration > old(pausedUntil) then now + duration else old(pausedUntil)
    {
      if now + duration > pausedUntil {
        pausedUntil := now + duration;
      }
    }
  }

  // ----- token buckets

  const GLOBAL_RATE: real := 20.0
  const GLOBAL_BURST: real := 20.0
  const CHAT_RATE: real := 1.0
  const CHAT_BURST: real := 3.0
  const REFRESH_COOLDOWN := 5_000
  const MAX_CHATS := 10_000

  datatype Bucket = Bucket(tokens: real, updatedAt: int)

  /** Tokens earned in some milliseconds. */
  function Earned(rate: real, ms: int): real { rate * (ms as real) / 1000.0 }

  lemma EarnedAdds(rate: real, a: int, b: int)
    ensures Earned(rate, a) + Earned(rate, b) == Earned(rate, a + b)
  {
    assert (a + b) as real == a as real + b as real;
  }

  lemma EarnedIsPositive(rate: real, ms: int)
    requires rate >= 0.0 && ms >= 0
    ensures Earned(rate, ms) >= 0.0 && Earned(rate, 0) == 0.0
  {
  }

  function Refill(b: Bucket, now: int, rate: real, capacity: real): Bucket {
    if now <= b.updatedAt then b
    else
      var tokens := b.tokens + Earned(rate, now - b.updatedAt);
      Bucket(if tokens > capacity then capacity else tokens, now)
  }

  /** A bucket earns its rate for every second since it was last looked at, up to its capacity; a clock
      that goes back earns nothing and takes nothing. */
  lemma RefillExactly(b: Bucket, now: int, rate: real, capacity: real)
    requires b.tokens <= capacity
    ensures var r := Refill(b, now, rate, capacity);
            && r.updatedAt == (if now > b.updatedAt then now else b.updatedAt)
            && (now <= b.updatedAt ==> r.tokens == b.tokens)
            && (now > b.updatedAt ==>
                  var earned := ((now - b.updatedAt) as real) * rate;
                  && 1000.0 * (r.tokens - b.tokens) <= earned && r.tokens <= capacity
                  && (r.tokens == capacity || 1000.0 * (r.tokens - b.tokens) == earned))
  {
  }

  /** What the grants since the i-th leave in the bucket at most. */
  predicate Covers(b: Bucket, grants: seq<int>, rate: real, burst: real) {
    && 0.0 <= b.tokens <= burst
    && (forall g :: g in grants ==> g <= b.updatedAt)
    && (forall i :: 0 <= i < |grants| ==>
          b.tokens <= burst - ((|grants| - i) as real) + Earned(rate, b.updatedAt - grants[i]))
  }

  /** From any grant to any later one, both included, no more than burst plus rate times the
      time between them. */
  predicate Bounded(grants: seq<int>, rate: real, burst: real) {
    forall i, j :: 0 <= i <= j < |grants| ==>
      ((j - i + 1) as real) <= burst + Earned(rate, grants[j] - grants[i])
  }

  lemma RefillKeeps(b: Bucket, grants: seq<int>, now: int, rate: real, burst: real)
    requires Covers(b, grants, rate, burst) && rate >= 0.0
    ensures Covers(Refill(b, now, rate, burst), grants, rate, burst)
  {
    hide Earned;
    if now > b.updatedAt {
      EarnedIsPositive(rate, now - b.updatedAt);
      forall i | 0 <= i < |grants|
        ensures Earned(rate, b.updatedAt - grants[i]) + Earned(rate, now - b.updatedAt) == Earned(rate, now - grants[i])
      {
        EarnedAdds(rate, b.updatedAt - grants[i], now - b.updatedAt);
      }
    }
  }

  /** Taking a token at the time of the refill. */
  lemma GrantKeeps(b: Bucket, grants: seq<int>, rate: real, burst: real)
    requires Covers(b, grants, rate, burst) && Bounded(grants, rate, burst) && b.tokens >= 1.0 && rate >= 0.0
    ensures var more := grants + [b.updatedAt];
            Covers(b.(tokens := b.tokens - 1.0), more, rate, burst) && Bounded(more, rate, burst)
  {
    hide Earned;
    var more := grants + [b.updatedAt];
    EarnedIsPositive(rate, 0);
    forall i, j | 0 <= i <= j < |more|
      ensures ((j - i + 1) as real) <= burst + Earned(rate, more[j] - more[i])
    {
      if j == |grants| && i < j {
        assert b.tokens <= burst - ((|grants| - i) as real) + Earned(rate, b.updatedAt - grants[i]);
      }
    }
    forall i | 0 <= i < |more|
      ensures b.tokens - 1.0 <= burst - ((|more| - i) as real) + Earned(rate, b.updatedAt - more[i])
    {
      assert i < |grants| ==> more[i] == grants[i];
    }
  }

  /** Over any window of time the grants inside it are at most burst plus rate times its length. */
  lemma WindowBound(grants: seq<int>, rate: real, burst: real, from: int, until: int, i: nat, j: nat)
    requires Bounded(grants, rate, burst) && rate >= 0.0
    requires i <= j < |grants| && from <= grants[i] && grants[j] <= until
    ensures ((j - i + 1) as real) <= burst + Earned(rate, until - from)
  {
    hide Earned;
    EarnedAdds(rate, grants[j] - grants[i], (until - from) - (grants[j] - grants[i]));
    EarnedIsPositive(rate, (until - from) - (grants[j] - grants[i]));
  }

  function Grant(b: Bucket): Bucket { b.(tokens := b.tokens - 1.0) }

  /** A bucket asked at some times; returns the bucket and the grants. */
  function Ask(b: Bucket, times: seq<int>, rate: real, burst: real): (Bucket, seq<int>) {
    if times == [] then (b, [])
    else
      var (before, grants) := Ask(b, times[..|times| - 1], rate, burst);
      var now := times[|times| - 1];
      var refilled := Refill(before, now, rate, burst);
      if refilled.tokens < 1.0 then (refilled, grants) else (Grant(refilled), grants + [now])
  }

  /** A request is granted exactly when the bucket, refilled, holds a whole token, which it takes. */
  lemma AskedExactly(b: Bucket, times: seq<int>, now: int, rate: real, burst: real)
    ensures var (before, grants) := Ask(b, times, rate, burst);
            var (after, more) := Ask(b, times + [now], rate, burst);
            var refilled := Refill(before, now, rate, burst);
            if refilled.tokens >= 1.0
            then more == grants + [now] && after == Bucket(refilled.tokens - 1.0, refilled.updatedAt)
            else more == grants && after == refilled
  {
    assert (times + [now])[..|times + [now]| - 1] == times;
  }

  /** A full bucket keeps its bound over every sequence of requests. */
  lemma {:induction false} EveryRunIsBounded(start: int, times: seq<int>, rate: real, burst: real)
    requires NonDecreasing(times) && (forall t :: t in times ==> start <= t) && rate >= 0.0 && burst >= 0.0
    ensures var (b, grants) := Ask(Bucket(burst, start), times, rate, burst);
            && Covers(b, grants, rate, burst) && Bounded(grants, rate, burst)
            && b.updatedAt == (if times == [] then start else times[|times| - 1])
  {
    hide Earned, Covers, Bounded;
    if times == [] {
      StartCovers(start, rate, burst);
    } else {
      var front, now := times[..|times| - 1], times[|times| - 1];
      assert times[|times| - 1] in times;
      assert forall t :: t in front ==> t in times;
      EveryRunIsBounded(start, front, rate, burst);
      var (before, grants) := Ask(Bucket(burst, start), front, rate, burst);
      RefillKeeps(before, grants, now, rate, burst);
      var refilled := Refill(before, now, rate, burst);
      if refilled.tokens >= 1.0 {
        GrantKeeps(refilled, grants, rate, burst);
      }
    }
  }

  lemma StartCovers(start: int, rate: real, burst: real)
    requires burst >= 0.0
    ensures Covers(Bucket(burst, start), [], rate, burst) && Bounded([], rate, burst)
  {
  }

  // ----- the limiter

  /** `lastRefresh`: none yet. `grants` and `refreshes` since the chat entered the table. */
  datatype Chat = Chat(bucket: Bucket, lastRefresh: Option<int>)

  datatype History = History(grants: seq<int>, refreshes: seq<int>)

  predicate Spaced(refreshes: seq<int>) {
    forall i, j :: 0 <= i < j < |refreshes| ==> refreshes[j] - refreshes[i] >= REFRESH_COOLDOWN
  }

  predicate ChatOk(c: Chat, h: History, now: int) {
    && Covers(c.bucket, h.grants, CHAT_RATE, CHAT_BURST) && Bounded(h.grants, CHAT_RATE, CHAT_BURST)
    && Spaced(h.refreshes) && c.bucket.updatedAt <= now
    && (c.lastRefresh == if h.refreshes == [] then None else Some(h.refreshes[|h.refreshes| - 1]))
  }

  /** A granted action takes one token. */
  function Taken(b: Bucket, ok: bool): Bucket {
    if ok then b.(tokens := b.tokens - 1.0) else b
  }

  /** No other chat changes; at most one leaves, and only when a new one finds the table full. */
  predicate OnlyOldestLeft(before: map<int, Chat>, order: seq<int>, after: map<int, Chat>, id: int) {
    && (forall j :: j in after && j != id ==> j in before && after[j] == before[j])
    && (id in before || |order| < MAX_CHATS ==> before.Keys <= after.Keys)
    && forall j, k :: j in before && k in before && j !in after && k !in after ==> j == k
  }

  predicate NoRepeats(ids: seq<int>) {
    forall i, j :: 0 <= i < j < |ids| ==> ids[i] != ids[j]
  }

  lemma RefreshKeepsSpaced(refreshes: seq<int>, now: int)
    requires Spaced(refreshes) && (refreshes != [] ==> now - refreshes[|refreshes| - 1] >= REFRESH_COOLDOWN)
    ensures Spaced(refreshes + [now])
  {
    var more := refreshes + [now];
    forall i, j | 0 <= i < j < |more|
      ensures more[j] - more[i] >= REFRESH_COOLDOWN
    {
      assert j == |refreshes| && i < |refreshes| - 1 ==> refreshes[|refreshes| - 1] - refreshes[i] >= REFRESH_COOLDOWN;
    }
  }

  lemma RefillTime(b: Bucket, now: int, rate: real, burst: real)
    requires b.updatedAt <= now
    ensures Refill(b, now, rate, burst).updatedAt == now
  {
  }

  lemma ChatLater(c: Chat, h: History, before: int, now: int)
    requires ChatOk(c, h, before) && before <= now
    ensures ChatOk(c, h, now)
  {
  }

  lemma FreshChat(now: int)
    ensures ChatOk(Chat(Bucket(CHAT_BURST, now), None), History([], []), now)
  {
  }

  lemma ChatRefilled(c: Chat, h: History, now: int)
    requires ChatOk(c, h, now)
    ensures var refilled := c.(bucket := Refill(c.bucket, now, CHAT_RATE, CHAT_BURST));
            && ChatOk(refilled, h, now)
            && (refilled.bucket.tokens >= 1.0 ==>
                  ChatOk(refilled.(bucket := Grant(refilled.bucket)), h.(grants := h.grants + [now]), now))
  {
    hide Covers, Bounded, Refill;
    RefillKeeps(c.bucket, h.grants, now, CHAT_RATE, CHAT_BURST);
    RefillTime(c.bucket, now, CHAT_RATE, CHAT_BURST);
    var refilled := Refill(c.bucket, now, CHAT_RATE, CHAT_BURST);
    if refilled.tokens >= 1.0 {
      GrantKeeps(refilled, h.grants, CHAT_RATE, CHAT_BURST);
    }
  }

  lemma ChatRefreshed(c: Chat, h: History, now: int)
    requires ChatOk(c, h, now) && (c.lastRefresh.Some? ==> now - c.lastRefresh.value >= REFRESH_COOLDOWN)
    ensures ChatOk(c.(lastRefresh := Some(now)), h.(refreshes := h.refreshes + [now]), now)
  {
    RefreshKeepsSpaced(h.refreshes, now);
  }

  /** The ring of chats, of which `open` may not be in the table yet. */
  ghost predicate Ring(order: seq<int>, next: nat, ids: set<int>, open: Option<int>) {
    && NoRepeats(order) && |order| <= MAX_CHATS && next < MAX_CHATS && (|order| < MAX_CHATS ==> next == 0)
    && (forall id :: id in order <==> id in ids || open == Some(id))
  }

  lemma RingGrows(order: seq<int>, next: nat, ids: set<int>, id: int)
    requires Ring(order, next, ids, None) && id !in ids && |order| < MAX_CHATS
    ensures Ring(order + [id], next, ids, Some(id))
  {
  }

  /** The oldest place goes to the new chat. */
  lemma RingReplaces(order: seq<int>, next: nat, ids: set<int>, id: int)
    requires Ring(order, next, ids, None) && id !in ids && |order| == MAX_CHATS
    ensures Ring(order[next := id], (next + 1) % MAX_CHATS, ids - {order[next]}, Some(id))
  {
    var after := order[next := id];
    assert id !in order;
    forall i | i in after
      ensures i in ids - {order[next]} || i == id
    {
      var k :| 0 <= k < |after| && after[k] == i;
      assert k != next ==> order[k] in order && order[k] != order[next];
    }
    forall i | i in ids - {order[next]} || i == id
      ensures i in after
    {
      if i != id {
        var k :| 0 <= k < |order| && order[k] == i;
        assert after[k] == i;
      } else {
        assert after[next] == id;
      }
    }
  }

  class ActionLimiter {
    var global: Bucket
    var chats: map<int, Chat>
    var order: seq<int>
    var next: nat
    ghost var globalGrants: seq<int>
    ghost var histories: map<int, History>
    ghost var seen: int

    /** The ring lists the chats of the table, each once; all buckets are within their bounds. */
    ghost predicate Valid()
      reads this
    {
      Ring(order, next, chats.Keys, None) && GlobalOk() && ChatsOk()
    }

    ghost predicate GlobalOk()
      reads this
    {
      && Covers(global, globalGrants, GLOBAL_RATE, GLOBAL_BURST) && Bounded(globalGrants, GLOBAL_RATE, GLOBAL_BURST)
      && global.updatedAt <= seen
    }

    ghost predicate ChatsOk()
      reads this
    {
      forall id :: id in chats ==> id in histories && ChatOk(chats[id], histories[id], seen)
    }

    /** A chat's history while it is in the table; a chat that comes back starts afresh. */
    ghost function HistoryOf(id: int): History
      reads this
      requires ChatsOk()
    {
      if id in chats then histories[id] else History([], [])
    }

    constructor (now: int)
      ensures Valid() && chats == map[] && globalGrants == [] && seen == now
    {
      global := Bucket(GLOBAL_BURST, now);
      chats, order, next := map[], [], 0;
      globalGrants, histories, seen := [], map[], now;
    }

    ghost method SeeTime(now: int)
      requires Valid() && seen <= now
      modifies this`seen
      ensures Valid() && seen == now
    {
      hide ChatOk, Covers, Bounded, Ring;
      forall id | id in chats
        ensures ChatOk(chats[id], histories[id], now)
      {
        ChatLater(chats[id], histories[id], seen, now);
      }
      seen := now;
    }

    method RefillGlobal(now: int)
      requires Valid() && seen == now
      modifies this`global
      ensures Valid() && global == Refill(old(global), now, GLOBAL_RATE, GLOBAL_BURST) && global.updatedAt == now
    {
      hide ChatOk, Covers, Bounded, Ring, Refill;
      RefillKeeps(global, globalGrants, now, GLOBAL_RATE, GLOBAL_BURST);
      RefillTime(global, now, GLOBAL_RATE, GLOBAL_BURST);
      global := Refill(global, now, GLOBAL_RATE, GLOBAL_BURST);
    }

    /** A chat's limit; a chat not in the table takes a place in the ring, at the cost of the
        oldest when the ring is full. */
    method FindChat(id: int, now: int) returns (chat: Chat)
      requires Valid() && seen == now
      modifies this`chats, this`order, this`next
      ensures id in old(chats) ==> chats == old(chats) && chat == chats[id]
      ensures id !in old(chats) ==> chat == Chat(Bucket(CHAT_BURST, now), None)
      ensures Ring(order, next, chats.Keys, Some(id)) && ChatsOk()
      ensures ChatOk(chat, old(HistoryOf(id)), now)
      ensures chats.Keys <= old(chats).Keys && (|old(order)| < MAX_CHATS ==> chats == old(chats))
      ensures forall j :: j in chats ==> chats[j] == old(chats)[j]
      ensures forall j, k :: j in old(chats) && k in old(chats) && j !in chats && k !in chats ==> j == k
    {
      hide ChatOk, Ring;
      if id in chats {
        chat := chats[id];
        RingOpen(order, next, chats.Keys, id);
      } else {
        chat := Chat(Bucket(CHAT_BURST, now), None);
        FreshChat(now);
        RingFacts(order, next, chats.Keys);
        if |order| < MAX_CHATS {
          RingGrows(order, next, chats.Keys, id);
            order := order + [id];
        } else {
          RingReplaces(order, next, chats.Keys, id);
          assert (chats - {order[next]}).Keys == chats.Keys - {order[next]};
          chats := chats - {order[next]};
          order := order[next := id];
          next := (next + 1) % MAX_CHATS;
        }
      }
    }

    /** Puts a chat of the ring into the table. */
    method StoreChat(id: int, chat: Chat, ghost history: History)
      requires Ring(order, next, chats.Keys, Some(id)) && GlobalOk() && ChatsOk() && ChatOk(chat, history, seen)
      modifies this`chats, this`histories
      ensures Valid() && chats == old(chats)[id := chat] && histories == old(histories)[id := history]
    {
      hide ChatOk, Covers, Bounded, Ring;
      RingClosed(order, next, chats.Keys, id);
      assert chats[id := chat].Keys == chats.Keys + {id};
      chats, histories := chats[id := chat], histories[id := history];
    }

    /** Lets an action through exactly when both the bot and the chat have a token. */
    method AllowAction(id: int, now: int) returns (ok: bool)
      requires Valid() && seen <= now
      modifies this
      ensures Valid() && seen == now && id in chats
      ensures globalGrants == if ok then old(globalGrants) + [now] else old(globalGrants)
      ensures HistoryOf(id) == var h := old(HistoryOf(id)); if ok then h.(grants := h.grants + [now]) else h
      ensures ok <==> Refill(old(global), now, GLOBAL_RATE, GLOBAL_BURST).tokens >= 1.0
                      && (id in old(chats) ==> Refill(old(chats)[id].bucket, now, CHAT_RATE, CHAT_BURST).tokens >= 1.0)
      ensures global == Taken(Refill(old(global), now, GLOBAL_RATE, GLOBAL_BURST), ok)
      ensures var chat := if id in old(chats) then old(chats)[id] else Chat(Bucket(CHAT_BURST, now), None);
              chats[id] == chat.(bucket := Taken(Refill(chat.bucket, now, CHAT_RATE, CHAT_BURST), ok))
      ensures OnlyOldestLeft(old(chats), old(order), chats, id)
    {
      hide ChatOk, Covers, Bounded, Ring, Refill;
      ghost var history := HistoryOf(id);
      SeeTime(now);
      RefillGlobal(now);
      FreshIsFull(now);
      var chat := FindChat(id, now);
      ChatRefilled(chat, history, now);
      chat := chat.(bucket := Refill(chat.bucket, now, CHAT_RATE, CHAT_BURST));
      ok := global.tokens >= 1.0 && chat.bucket.tokens >= 1.0;
      if ok {
        GrantKeeps(global, globalGrants, GLOBAL_RATE, GLOBAL_BURST);
        global, globalGrants := Grant(global), globalGrants + [now];
        chat, history := chat.(bucket := Grant(chat.bucket)), history.(grants := history.grants + [now]);
      }
      StoreChat(id, chat, history);
    }

    /** Lets a refresh through exactly when the chat's last one is five seconds ago. */
    method AllowRefresh(id: int, now: int) returns (ok: bool)
      requires Valid() && seen <= now
      modifies this
      ensures Valid() && seen == now && id in chats
      ensures HistoryOf(id) == var h := old(HistoryOf(id)); if ok then h.(refreshes := h.refreshes + [now]) else h
      ensures ok <==> (id in old(chats) && old(chats)[id].lastRefresh.Some? ==>
                         now - old(chats)[id].lastRefresh.value >= REFRESH_COOLDOWN)
      ensures var chat := if id in old(chats) then old(chats)[id] else Chat(Bucket(CHAT_BURST, now), None);
              chats[id] == if ok then chat.(lastRefresh := Some(now)) else chat
      ensures OnlyOldestLeft(old(chats), old(order), chats, id) && global == old(global)
    {
      hide ChatOk, Covers, Bounded, Ring;
      ghost var history := HistoryOf(id);
      SeeTime(now);
      var chat := FindChat(id, now);
      ok := chat.lastRefresh.None? || now - chat.lastRefresh.value >= REFRESH_COOLDOWN;
      if ok {
        ChatRefreshed(chat, history, now);
        StoreChat(id, chat.(lastRefresh := Some(now)), history.(refreshes := history.refreshes + [now]));
      } else {
        RingClosed(order, next, chats.Keys, id);
        assert chats.Keys + {id} == chats.Keys;
      }
    }
  }

  lemma FreshIsFull(now: int)
    ensures Refill(Bucket(CHAT_BURST, now), now, CHAT_RATE, CHAT_BURST).tokens >= 1.0
  {
  }

  lemma RingOpen(order: seq<int>, next: nat, ids: set<int>, id: int)
    requires Ring(order, next, ids, None) && id in ids
    ensures Ring(order, next, ids, Some(id))
  {
  }

  lemma RingClosed(order: seq<int>, next: nat, ids: set<int>, id: int)
    requires Ring(order, next, ids, Some(id))
    ensures Ring(order, next, ids + {id}, None)
  {
  }

  lemma RingFacts(order: seq<int>, next: nat, ids: set<int>)
    requires Ring(order, next, ids, None)
    ensures |order| <= MAX_CHATS && next < MAX_CHATS
  {
  }
}
