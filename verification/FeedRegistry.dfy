/** The registry of live account feeds: reference counts, idle and capacity eviction,
    and a reserve that only recovery may use.

    Every public call holds the registry's mutex, so a call is one step. A lease is an
    object of its own; `leases` lists all ever handed out, so that one whose entry has
    gone, and even been recreated, can still be released.
 */
module FeedRegistry {
  import opened Basics

  datatype Config = Config(idleTTL: int, maxFeeds: int, maxPerVenue: int, reserve: nat)

  datatype Key = Key(venue: string, account: string)

  /** `id` is the entry's identity as an object. */
  datatype Entry = Entry(id: nat, refs: int, lastUsed: int)

  datatype Lease = Lease(key: Key, entry: nat, created: bool, passive: bool, released: bool)

  datatype State = State(entries: map<Key, Entry>, leases: map<nat, Lease>, nextEntry: nat, nextLease: nat,
    closed: bool)

  const EMPTY := State(map[], map[], 0, 0, false)

  // ----- the steps

  /** A further lease on a live entry; a passive one does not count as use. */
  function Share(s: State, key: Key, passive: bool, now: int): State
    requires key in s.entries
  {
    var e := s.entries[key];
    s.(entries := s.entries[key := e.(refs := e.refs + 1, lastUsed := if passive then e.lastUsed else now)],
       leases := s.leases[s.nextLease := Lease(key, e.id, false, passive, false)],
       nextLease := s.nextLease + 1)
  }

  function Start(s: State, key: Key, now: int): State {
    s.(entries := s.entries[key := Entry(s.nextEntry, 1, now)],
       leases := s.leases[s.nextLease := Lease(key, s.nextEntry, true, false, false)],
       nextEntry := s.nextEntry + 1, nextLease := s.nextLease + 1)
  }

  predicate LiveLease(s: State, l: nat)
    requires l in s.leases
  {
    s.leases[l].key in s.entries && s.entries[s.leases[l].key].id == s.leases[l].entry
  }

  function Release(s: State, l: nat, discard: bool, now: int): State
    requires l in s.leases
  {
    var lease := s.leases[l];
    var marked := s.(leases := s.leases[l := lease.(released := true)]);
    if lease.released then s
    else if !LiveLease(s, l) then marked
    else
      var e := s.entries[lease.key];
      if discard && lease.created && e.refs == 1 then marked.(entries := s.entries - {lease.key})
      else marked.(entries := s.entries[lease.key :=
        e.(refs := e.refs - 1, lastUsed := if lease.passive then e.lastUsed else now)])
  }

  predicate Expired(e: Entry, config: Config, now: int) {
    config.idleTTL > 0 && e.refs == 0 && now - e.lastUsed >= config.idleTTL
  }

  function Cleanup(s: State, config: Config, now: int): State {
    s.(entries := map k | k in s.entries && !Expired(s.entries[k], config, now) :: s.entries[k])
  }

  function Close(s: State): State { s.(entries := map[], closed := true) }

  // ----- the invariant

  function Holders(leases: map<nat, Lease>, entry: nat): set<nat> {
    set l | l in leases && leases[l].entry == entry && !leases[l].released
  }

  /** How many leases on an entry have not been released. */
  function Refs(leases: map<nat, Lease>, entry: nat): nat { |Holders(leases, entry)| }

  predicate CountsExact(s: State) {
    forall k :: k in s.entries ==> s.entries[k].refs == Refs(s.leases, s.entries[k].id)
  }

  predicate ObjectsDistinct(s: State) {
    && (forall k :: k in s.entries ==> s.entries[k].id < s.nextEntry)
    && (forall j, k :: j in s.entries && k in s.entries && s.entries[j].id == s.entries[k].id ==> j == k)
  }

  predicate LeasesKnown(s: State) {
    && (forall l :: l in s.leases ==> l < s.nextLease && s.leases[l].entry < s.nextEntry)
    && (forall l, k :: l in s.leases && k in s.entries && s.leases[l].entry == s.entries[k].id ==> s.leases[l].key == k)
  }

  predicate LeasedAlive(s: State) {
    forall l :: l in s.leases && !s.leases[l].released && !s.closed ==> LiveLease(s, l)
  }

  /** Reference counts are exact, entries are distinct objects, and until shutdown every
      lease not released has its own entry alive. */
  predicate Inv(s: State) {
    CountsExact(s) && ObjectsDistinct(s) && LeasesKnown(s) && LeasedAlive(s)
  }

  lemma NewLeaseCounts(leases: map<nat, Lease>, n: nat, lease: Lease, entry: nat)
    requires n !in leases && !lease.released
    ensures Refs(leases[n := lease], entry) == Refs(leases, entry) + if lease.entry == entry then 1 else 0
  {
    var before, after := Holders(leases, entry), Holders(leases[n := lease], entry);
    assert n !in before;
    assert after == if lease.entry == entry then before + {n} else before;
  }

  lemma ReleaseCounts(leases: map<nat, Lease>, l: nat, entry: nat)
    requires l in leases && !leases[l].released
    ensures var after := leases[l := leases[l].(released := true)];
            && Refs(leases, entry) == Refs(after, entry) + (if leases[l].entry == entry then 1 else 0)
  {
    var before, after := Holders(leases, entry), Holders(leases[l := leases[l].(released := true)], entry);
    assert l !in after;
    assert before == if leases[l].entry == entry then after + {l} else after;
  }

  lemma HolderCounts(leases: map<nat, Lease>, l: nat)
    requires l in leases && !leases[l].released
    ensures Refs(leases, leases[l].entry) >= 1
  {
    assert l in Holders(leases, leases[l].entry);
  }

  lemma NobodyCounts(leases: map<nat, Lease>, entry: nat)
    requires forall l :: l in leases ==> leases[l].entry != entry
    ensures Refs(leases, entry) == 0
  {
    assert Holders(leases, entry) == {};
  }

  lemma LeasedHasRefs(s: State, l: nat)
    requires Inv(s) && l in s.leases && !s.leases[l].released && LiveLease(s, l)
    ensures s.entries[s.leases[l].key].refs > 0
  {
    HolderCounts(s.leases, l);
  }

  lemma ShareKeepsInv(s: State, key: Key, passive: bool, now: int)
    requires Inv(s) && key in s.entries
    ensures Inv(Share(s, key, passive, now))
  {
    hide Refs;
    var t := Share(s, key, passive, now);
    forall k | k in t.entries
      ensures t.entries[k].refs == Refs(t.leases, t.entries[k].id)
    {
      NewLeaseCounts(s.leases, s.nextLease, t.leases[s.nextLease], s.entries[k].id);
    }
  }

  lemma StartKeepsInv(s: State, key: Key, now: int)
    requires Inv(s) && key !in s.entries
    ensures Inv(Start(s, key, now))
  {
    hide Refs;
    var t := Start(s, key, now);
    NobodyCounts(s.leases, s.nextEntry);
    forall k | k in t.entries
      ensures t.entries[k].refs == Refs(t.leases, t.entries[k].id)
    {
      NewLeaseCounts(s.leases, s.nextLease, t.leases[s.nextLease], t.entries[k].id);
    }
  }

  lemma ReleaseKeepsCounts(s: State, l: nat, discard: bool, now: int)
    requires Inv(s) && l in s.leases
    ensures CountsExact(Release(s, l, discard, now))
  {
    hide Refs;
    var t := Release(s, l, discard, now);
    if !s.leases[l].released {
      forall k | k in t.entries
        ensures t.entries[k].refs == Refs(t.leases, t.entries[k].id)
      {
        ReleaseCounts(s.leases, l, s.entries[k].id);
      }
    }
  }

  /** A discarded entry had no other lease. */
  lemma ReleaseKeepsLeased(s: State, l: nat, discard: bool, now: int)
    requires Inv(s) && l in s.leases
    ensures LeasedAlive(Release(s, l, discard, now))
  {
    hide Refs;
    var t := Release(s, l, discard, now);
    var lease := s.leases[l];
    forall m | m in t.leases && !t.leases[m].released && !t.closed
      ensures LiveLease(t, m)
    {
      assert LiveLease(s, m);
      if !lease.released && lease.key !in t.entries && lease.key in s.entries && s.leases[m].key == lease.key {
        ReleaseCounts(s.leases, l, lease.entry);
        HolderCounts(t.leases, m);
        assert false;
      }
    }
  }

  lemma ReleaseKeepsInv(s: State, l: nat, discard: bool, now: int)
    requires Inv(s) && l in s.leases
    ensures Inv(Release(s, l, discard, now))
  {
    hide CountsExact, LeasedAlive;
    ReleaseKeepsCounts(s, l, discard, now);
    ReleaseKeepsLeased(s, l, discard, now);
  }

  /** `t` is `s` with some idle entries gone. */
  predicate OnlyIdleGone(s: State, t: State) {
    && t == s.(entries := t.entries)
    && (forall k :: k in t.entries ==> k in s.entries && t.entries[k] == s.entries[k])
    && (forall k :: k in s.entries && k !in t.entries ==> s.entries[k].refs == 0)
  }

  /** Idle eviction of any kind keeps every leased entry. */
  lemma EvictionKeepsInv(s: State, t: State)
    requires Inv(s) && OnlyIdleGone(s, t)
    ensures Inv(t)
  {
    hide Refs;
    forall l | l in t.leases && !t.leases[l].released && !t.closed
      ensures LiveLease(t, l)
    {
      LeasedHasRefs(s, l);
    }
  }

  /** A lease whose entry is gone, perhaps recreated under its key, changes no entry. */
  lemma StaleReleaseTouchesNothing(s: State, l: nat, discard: bool, now: int)
    requires Inv(s) && l in s.leases && !LiveLease(s, l)
    ensures Release(s, l, discard, now).entries == s.entries
  {
  }

  /** A second release changes nothing. */
  lemma ReleaseIsOnce(s: State, l: nat, discard: bool, now: int, again: bool, later: int)
    requires l in s.leases
    ensures var once := Release(s, l, discard, now); Release(once, l, again, later) == once
  {
  }

  /** Until shutdown two unreleased leases of one key are on one object. */
  lemma OneObjectPerKey(s: State, l: nat, m: nat)
    requires Inv(s) && !s.closed && l in s.leases && m in s.leases
    requires !s.leases[l].released && !s.leases[m].released && s.leases[l].key == s.leases[m].key
    ensures s.leases[l].entry == s.leases[m].entry
  {
    assert LiveLease(s, l) && LiveLease(s, m);
  }

  // ----- capacity

  function InVenue(keys: set<Key>, venue: string): set<Key> {
    set k | k in keys && k.venue == venue
  }

  function OfVenue(entries: map<Key, Entry>, venue: string): set<Key> {
    InVenue(entries.Keys, venue)
  }

  lemma InVenueAdd(keys: set<Key>, key: Key, venue: string)
    requires key !in keys
    ensures |InVenue(keys + {key}, venue)| == |InVenue(keys, venue)| + if key.venue == venue then 1 else 0
  {
    var before, after := InVenue(keys, venue), InVenue(keys + {key}, venue);
    assert after == if key.venue == venue then before + {key} else before;
  }

  function Reserve(config: Config, recovery: bool): nat { if recovery then config.reserve else 0 }

  lemma NoneInVenue(venue: string)
    ensures |InVenue({}, venue)| == 0
  {
  }

  predicate VenueFull(entries: map<Key, Entry>, config: Config, venue: string, reserve: nat) {
    config.maxPerVenue > 0 && |OfVenue(entries, venue)| >= config.maxPerVenue + reserve
  }

  predicate AtCapacity(entries: map<Key, Entry>, config: Config, venue: string, reserve: nat) {
    || (config.maxFeeds > 0 && |entries| >= config.maxFeeds + reserve)
    || VenueFull(entries, config, venue, reserve)
  }

  predicate WithinLimits(entries: map<Key, Entry>, config: Config, reserve: nat) {
    && (config.maxFeeds > 0 ==> |entries| <= config.maxFeeds + reserve)
    && (config.maxPerVenue > 0 ==> forall k :: k in entries ==>
       |OfVenue(entries, k.venue)| <= config.maxPerVenue + reserve)
  }

  lemma FewerStayWithinLimits(before: map<Key, Entry>, after: map<Key, Entry>, config: Config)
    requires WithinLimits(before, config, config.reserve) && after.Keys <= before.Keys
    ensures WithinLimits(after, config, config.reserve)
  {
    SubsetSize(after.Keys, before.Keys);
    assert |before| == |before.Keys| && |after| == |after.Keys|;
    forall k | k in after
      ensures |OfVenue(after, k.venue)| <= |OfVenue(before, k.venue)|
    {
      SubsetSize(OfVenue(after, k.venue), OfVenue(before, k.venue));
    }
  }

  /** A new entry is within the limits, and an ordinary one leaves the reserve alone. */
  lemma StartedWithinLimits(s: State, config: Config, key: Key, recovery: bool, now: int)
    requires WithinLimits(s.entries, config, config.reserve) && key !in s.entries
    requires !AtCapacity(s.entries, config, key.venue, Reserve(config, recovery))
    ensures var t := Start(s, key, now);
            && WithinLimits(t.entries, config, config.reserve)
            && (!recovery && config.maxFeeds > 0 ==> |t.entries| <= config.maxFeeds)
            && (!recovery && config.maxPerVenue > 0 ==> |OfVenue(t.entries, key.venue)| <= config.maxPerVenue)
  {
    var t := Start(s, key, now);
    OneMore(s.entries, key, t.entries[key]);
    forall k | k in t.entries
      ensures |OfVenue(t.entries, k.venue)| == |OfVenue(s.entries, k.venue)| + if k.venue == key.venue then 1 else 0
      ensures config.maxPerVenue > 0 ==> |OfVenue(s.entries, k.venue)| <= config.maxPerVenue + config.reserve
    {
      VenueOneMore(s.entries, key, t.entries[key], k.venue);
    }
  }

  lemma OneMore(entries: map<Key, Entry>, key: Key, e: Entry)
    requires key !in entries
    ensures |entries[key := e]| == |entries| + 1
  {
    assert entries[key := e].Keys == entries.Keys + {key};
    assert |entries| == |entries.Keys| && |entries[key := e]| == |entries[key := e].Keys|;
  }

  lemma VenueOneMore(entries: map<Key, Entry>, key: Key, e: Entry, venue: string)
    requires key !in entries
    ensures |OfVenue(entries[key := e], venue)| == |OfVenue(entries, venue)| + if venue == key.venue then 1 else 0
  {
    assert entries[key := e].Keys == entries.Keys + {key};
    InVenueAdd(entries.Keys, key, venue);
  }

  /** What capacity eviction has done so far: in each venue the longest unused went first, and in
      all of them unless the venue was full; only that venue's went while it still is. */
  predicate EvictedInOrder(before: map<Key, Entry>, after: map<Key, Entry>, config: Config, venue: string) {
    && (forall j, k :: j in before && j !in after && k in after && after[k].refs == 0
                       && (k.venue == j.venue || !VenueFull(before, config, venue, 0)) ==>
          before[j].lastUsed <= after[k].lastUsed)
    && (VenueFull(after, config, venue, 0) ==> forall j :: j in before && j !in after ==> j.venue == venue)
    && NoMoreThanNeeded(before, after, config, venue)
  }

  lemma NothingEvicted(entries: map<Key, Entry>, config: Config, venue: string)
    ensures EvictedInOrder(entries, entries, config, venue)
  {
  }

  /** One more entry goes. */
  lemma EvictedOneMore(
    before: map<Key, Entry>, mid: map<Key, Entry>, gone: Key, config: Config, venue: string)
    requires EvictedInOrder(before, mid, config, venue) && AtCapacity(mid, config, venue, 0)
    requires gone in mid && mid[gone].refs == 0
    requires mid.Keys <= before.Keys && forall k :: k in mid ==> mid[k] == before[k]
    requires forall k :: k in mid && mid[k].refs == 0 && k.venue == gone.venue ==> mid[gone].lastUsed <= mid[k].lastUsed
    requires VenueFull(mid, config, venue, 0) ==> gone.venue == venue
    requires !VenueFull(mid, config, venue, 0) ==>
               forall k :: k in mid && mid[k].refs == 0 ==> mid[gone].lastUsed <= mid[k].lastUsed
    ensures EvictedInOrder(before, mid - {gone}, config, venue)
  {
    var after := mid - {gone};
    FewerNotFuller(mid, after, config, venue);
    FewerNotFuller(before, mid, config, venue);
    assert after[gone := before[gone]] == mid;
  }

  /** What capacity eviction does: idle entries go in order; if the registry is still at
      capacity, nothing idle was left that could help. */
  predicate EvictedFairly(before: map<Key, Entry>, after: map<Key, Entry>, config: Config, venue: string) {
    && EvictedInOrder(before, after, config, venue)
    && (AtCapacity(after, config, venue, 0) ==>
          forall k :: k in after && (VenueFull(after, config, venue, 0) ==> k.venue == venue) ==> after[k].refs != 0)
    && (!AtCapacity(before, config, venue, 0) ==> after == before)
  }

  /** The last entry to go went while the registry was at capacity. */
  predicate NoMoreThanNeeded(before: map<Key, Entry>, after: map<Key, Entry>, config: Config, venue: string) {
    after == before
    || exists g :: g in before && g !in after && AtCapacity(after[g := before[g]], config, venue, 0)
  }

  lemma FewerNotFuller(before: map<Key, Entry>, after: map<Key, Entry>, config: Config, venue: string)
    requires after.Keys <= before.Keys
    ensures VenueFull(after, config, venue, 0) ==> VenueFull(before, config, venue, 0)
  {
    SubsetSize(OfVenue(after, venue), OfVenue(before, venue));
  }

  lemma NeverFull(entries: map<Key, Entry>, config: Config, venue: string, reserve: nat)
    requires config.maxFeeds <= 0 && config.maxPerVenue <= 0
    ensures !AtCapacity(entries, config, venue, reserve)
  {
  }

  // ----- what each call does

  /** A further lease is one on the same object; a passive one leaves the time of last use. */
  lemma SharedExactly(s: State, key: Key, passive: bool, now: int)
    requires Inv(s) && key in s.entries
    ensures var t, e := Share(s, key, passive, now), s.entries[key];
            && t.entries == s.entries[key := Entry(e.id, e.refs + 1, if passive then e.lastUsed else now)]
            && t.leases == s.leases[s.nextLease := Lease(key, e.id, false, passive, false)]
            && t.nextLease == s.nextLease + 1 && t.nextEntry == s.nextEntry && t.closed == s.closed
            && s.nextLease !in s.leases
  {
  }

  /** A lease counts as use when it is given back, unless it is passive, and takes one reference
      from its entry; the entry goes exactly when it was started for this lease, is discarded,
      and nobody else refers to it. */
  lemma ReleasedExactly(s: State, l: nat, discard: bool, now: int)
    requires Inv(s) && l in s.leases && !s.leases[l].released && !s.closed
    ensures var t, lease := Release(s, l, discard, now), s.leases[l];
            var others := Refs(s.leases, lease.entry) - 1;
            && t.leases == s.leases[l := lease.(released := true)]
            && t.entries.Keys - {lease.key} == s.entries.Keys - {lease.key}
            && (forall k :: k in t.entries && k != lease.key ==> t.entries[k] == s.entries[k])
            && lease.key in s.entries
            && (lease.key !in t.entries <==> discard && lease.created && others == 0)
            && (lease.key in t.entries ==>
                  var e := t.entries[lease.key];
                  && e.id == lease.entry && e.refs == others
                  && e.lastUsed == if lease.passive then s.entries[lease.key].lastUsed else now)
            && t.nextLease == s.nextLease && t.nextEntry == s.nextEntry && t.closed == s.closed
  {
    assert LiveLease(s, l);
  }

  /** Cleanup removes exactly the entries without references that nobody used for the idle time,
      if there is one. */
  lemma IdleGoesExactly(s: State, config: Config, now: int)
    ensures var t := Cleanup(s, config, now);
            && (forall k :: k in t.entries <==>
                  k in s.entries
                  && !(config.idleTTL > 0 && s.entries[k].refs == 0 && s.entries[k].lastUsed + config.idleTTL <= now))
            && (forall k :: k in t.entries ==> t.entries[k] == s.entries[k]) && t == s.(entries := t.entries)
  {
  }

  lemma ClosedHasNothing(s: State)
    ensures Close(s) == State(map[], s.leases, s.nextEntry, s.nextLease, true)
  {
  }

  /** The registry is at capacity exactly when one more entry of the venue would exceed a limit
      that is set; a recovery may go beyond it by the reserve. */
  lemma FullExactly(entries: map<Key, Entry>, config: Config, key: Key, e: Entry, recovery: bool)
    requires key !in entries
    ensures var extra := if recovery then config.reserve else 0;
            AtCapacity(entries, config, key.venue, Reserve(config, recovery)) <==>
              || (config.maxFeeds > 0 && |entries[key := e]| > config.maxFeeds + extra)
              || (config.maxPerVenue > 0 && |OfVenue(entries[key := e], key.venue)| > config.maxPerVenue + extra)
  {
    OneMore(entries, key, e);
    VenueOneMore(entries, key, e, key.venue);
  }

  class Registry {
    const config: Config
    var entries: map<Key, Entry>
    var leases: map<nat, Lease>
    var nextEntry: nat
    var nextLease: nat
    ghost var closed: bool

    ghost function View(): State
      reads this
    {
      State(entries, leases, nextEntry, nextLease, closed)
    }

    ghost predicate Valid()
      reads this
    {
      Inv(View()) && WithinLimits(entries, config, config.reserve)
    }

    constructor (config: Config)
      ensures Valid() && View() == EMPTY && this.config == config
    {
      this.config := config;
      entries, leases, nextEntry, nextLease, closed := map[], map[], 0, 0, false;
    }

    method CountVenue(venue: string) returns (count: nat)
      ensures count == |OfVenue(entries, venue)|
    {
      hide InVenue;
      count := 0;
      var left := entries.Keys;
      ghost var seen: set<Key> := {};
      NoneInVenue(venue);
      while left != {}
        invariant left !! seen && left + seen == entries.Keys
        invariant count == |InVenue(seen, venue)|
        decreases |left|
      {
        var key :| key in left;
        InVenueAdd(seen, key, venue);
        left, seen := left - {key}, seen + {key};
        if key.venue == venue {
          count := count + 1;
        }
      }
      assert seen == entries.Keys;
    }

    method AtCapacityLocked(venue: string, recovery: bool) returns (full: bool)
      ensures full == AtCapacity(entries, config, venue, Reserve(config, recovery))
    {
      var reserve := Reserve(config, recovery);
      if config.maxFeeds > 0 && |entries| >= config.maxFeeds + reserve {
        full := true;
      } else if config.maxPerVenue <= 0 {
        full := false;
      } else {
        var count := CountVenue(venue);
        full := count >= config.maxPerVenue + reserve;
      }
    }

    /** The longest unused idle entry, in one venue or in all. */
    method OldestIdle(venue: string, venueOnly: bool) returns (oldest: Option<Key>)
      ensures oldest.Some? ==>
                && oldest.value in entries && entries[oldest.value].refs == 0
                   && (venueOnly ==> oldest.value.venue == venue)
                && forall k :: k in entries && entries[k].refs == 0 && (venueOnly ==> k.venue == venue) ==>
                     entries[oldest.value].lastUsed <= entries[k].lastUsed
      ensures oldest.None? ==> forall k :: k in entries && (venueOnly ==> k.venue == venue) ==> entries[k].refs != 0
    {
      oldest := None;
      var left := entries.Keys;
      while left != {}
        invariant left <= entries.Keys
        invariant oldest.Some? ==>
                    && oldest.value in entries && entries[oldest.value].refs == 0
                       && (venueOnly ==> oldest.value.venue == venue)
                    && forall k :: (k in entries && k !in left && entries[k].refs == 0
                                    && (venueOnly ==> k.venue == venue)) ==>
                         entries[oldest.value].lastUsed <= entries[k].lastUsed
        invariant oldest.None? ==> forall k :: k in entries && k !in left && (venueOnly ==> k.venue == venue) ==>
                  entries[k].refs != 0
        decreases |left|
      {
        var key :| key in left;
        left := left - {key};
        if entries[key].refs == 0 && (!venueOnly || key.venue == venue) {
          if oldest.None? || entries[key].lastUsed < entries[oldest.value].lastUsed {
            oldest := Some(key);
          }
        }
      }
    }

    /** Evicts the longest unused idle entry that makes room for the venue, if there is one. */
    method EvictOldest(venue: string) returns (gone: Option<Key>)
      requires Valid()
      modifies this`entries
      ensures Valid() && |entries| <= |old(entries)|
      ensures gone.None? ==>
                && entries == old(entries)
                && forall k :: k in entries && (VenueFull(entries, config, venue, 0) ==> k.venue == venue) ==>
                   entries[k].refs != 0
      ensures gone.Some? ==>
                && gone.value in old(entries) && old(entries)[gone.value].refs == 0
                && entries == old(entries) - {gone.value} && |entries| < |old(entries)|
                && forall k :: k in entries && entries[k].refs == 0 && k.venue == gone.value.venue ==>
                     old(entries)[gone.value].lastUsed <= entries[k].lastUsed
      ensures gone.Some? && VenueFull(old(entries), config, venue, 0) ==> gone.value.venue == venue
      ensures gone.Some? && !VenueFull(old(entries), config, venue, 0) ==>
                forall k :: k in entries && entries[k].refs == 0 ==>
                  old(entries)[gone.value].lastUsed <= entries[k].lastUsed
    {
      hide Inv, WithinLimits, OfVenue;
      var venueFull := config.maxPerVenue > 0;
      if venueFull {
        var count := CountVenue(venue);
        venueFull := count >= config.maxPerVenue;
      }
      gone := OldestIdle(venue, venueFull);
      if gone.Some? {
        ghost var s := View();
        entries := entries - {gone.value};
        EvictionKeepsInv(s, View());
        FewerStayWithinLimits(s.entries, entries, config);
        OneMore(entries, gone.value, s.entries[gone.value]);
        assert s.entries == entries[gone.value := s.entries[gone.value]];
      }
    }

    /** Evicts idle entries until an ordinary feed of the venue fits or none is left to evict. */
    method EvictForCapacityLocked(venue: string)
      requires Valid()
      modifies this`entries
      ensures Valid() && OnlyIdleGone(old(View()), View())
      ensures EvictedFairly(old(entries), entries, config, venue)
    {
      hide Inv, WithinLimits, AtCapacity, VenueFull, OfVenue, InVenue, EvictedInOrder;
      assert EvictedInOrder(entries, entries, config, venue) by { NothingEvicted(entries, config, venue); }
      var full := AtCapacityLocked(venue, false);
      var stuck := false;
      while full && !stuck
        invariant Valid() && OnlyIdleGone(old(View()), View())
        invariant full == AtCapacity(entries, config, venue, 0)
        invariant entries == old(entries) || AtCapacity(old(entries), config, venue, 0)
        invariant EvictedInOrder(old(entries), entries, config, venue)
        invariant stuck ==>
                    forall k :: k in entries && (VenueFull(entries, config, venue, 0) ==> k.venue == venue) ==>
                      entries[k].refs != 0
        decreases |entries|, !stuck
      {
        ghost var mid := entries;
        var gone := EvictOldest(venue);
        if gone.Some? {
          EvictedOneMore(old(entries), mid, gone.value, config, venue);
        }
        stuck := gone.None?;
        full := AtCapacityLocked(venue, false);
      }
    }

    method CleanupIdleLocked(now: int)
      requires Valid()
      modifies this`entries
      ensures Valid() && View() == Cleanup(old(View()), config, now) && OnlyIdleGone(old(View()), View())
      ensures forall k :: k in entries ==> !Expired(entries[k], config, now)
    {
      hide Inv, WithinLimits;
      ghost var s := View();
      EvictionKeepsInv(s, Cleanup(s, config, now));
      FewerStayWithinLimits(entries, Cleanup(s, config, now).entries, config);
      if config.idleTTL > 0 {
        entries := WithoutExpired(entries, now);
      }
      assert entries == Cleanup(s, config, now).entries;
    }

    method WithoutExpired(all: map<Key, Entry>, now: int) returns (kept: map<Key, Entry>)
      requires config.idleTTL > 0
      ensures kept == map k | k in all && !Expired(all[k], config, now) :: all[k]
    {
      kept := all;
      var left := all.Keys;
      while left != {}
        invariant left <= all.Keys
        invariant forall k :: k in kept <==> k in all && (k in left || !Expired(all[k], config, now))
        invariant forall k :: k in kept ==> kept[k] == all[k]
        decreases |left|
      {
        var key :| key in left;
        left := left - {key};
        if all[key].refs == 0 && now - all[key].lastUsed >= config.idleTTL {
          kept := kept - {key};
        }
      }
    }

    /** A fresh lease on `key`, the only one handed out. */
    ghost predicate Leased(l: nat, key: Key, before: map<nat, Lease>)
      reads this
    {
      && l !in before && l in leases && leases == before[l := leases[l]]
      && leases[l].key == key && !leases[l].released && LiveLease(View(), l)
    }

    /** Leases the feed of a key, starting it if needed. `starts`: the factory's answer.
        Entries in use stay as they are. A feed is refused only when the registry is full;
        an ordinary one, only when it is full of feeds in use. */
    method Acquire(key: Key, recovery: bool, starts: bool, now: int) returns (lease: Option<nat>)
      requires Valid()
      modifies this
      ensures Valid() && closed == old(closed)
      ensures if lease.Some? then Leased(lease.value, key, old(leases))
              else leases == old(leases) && key !in old(entries)
      ensures key in old(entries) ==> entries.Keys == old(entries).Keys
      ensures config.maxFeeds <= 0 && config.maxPerVenue <= 0 && starts ==> lease.Some?
      ensures key in old(entries) ==> View() == Share(old(View()), key, false, now)
      ensures forall k :: k in old(entries) && old(entries)[k].refs != 0 && k != key ==>
              k in entries && entries[k] == old(entries)[k]
      ensures lease.Some? && key !in old(entries) ==>
                && starts && entries[key] == Entry(old(nextEntry), 1, now)
                && leases[lease.value] == Lease(key, old(nextEntry), true, false, false)
      ensures key !in old(entries) ==> forall k :: k in entries && k != key ==> !Expired(entries[k], config, now)
      ensures lease.Some? && key !in old(entries) && !recovery ==>
                && (config.maxFeeds > 0 ==> |entries| <= config.maxFeeds)
                && (config.maxPerVenue > 0 ==> |OfVenue(entries, key.venue)| <= config.maxPerVenue)
      ensures lease.None? && starts ==> AtCapacity(entries, config, key.venue, Reserve(config, recovery))
      ensures lease.None? && starts && !recovery ==>
                forall k :: k in entries && (VenueFull(entries, config, key.venue, 0) ==> k.venue == key.venue) ==>
                  entries[k].refs != 0
    {
      hide Inv, WithinLimits, AtCapacity, VenueFull, OfVenue, Expired;
      if key in entries {
        ShareKeepsInv(View(), key, false, now);
        SameKeysStayWithinLimits(entries, Share(View(), key, false, now).entries, config);
        NextLeaseIsFresh(View());
        lease := AddReference(key, false, now);
      } else {
        lease := StartFeed(key, recovery, starts, now);
        if config.maxFeeds <= 0 && config.maxPerVenue <= 0 {
          NeverFull(entries, config, key.venue, Reserve(config, recovery));
        }
      }
    }

    method MakeRoom(venue: string, recovery: bool, now: int) returns (full: bool)
      requires Valid()
      modifies this`entries
      ensures Valid() && OnlyIdleGone(old(View()), View())
      ensures full == AtCapacity(entries, config, venue, Reserve(config, recovery))
      ensures forall k :: k in entries ==> !Expired(entries[k], config, now)
      ensures AtCapacity(entries, config, venue, 0) ==>
                forall k :: k in entries && (VenueFull(entries, config, venue, 0) ==> k.venue == venue) ==>
                  entries[k].refs != 0
    {
      hide Inv, WithinLimits, AtCapacity, VenueFull, OfVenue, Cleanup;
      CleanupIdleLocked(now);
      EvictForCapacityLocked(venue);
      full := AtCapacityLocked(venue, recovery);
    }

    method StartFeed(key: Key, recovery: bool, starts: bool, now: int) returns (lease: Option<nat>)
      requires Valid() && key !in entries
      modifies this
      ensures Valid() && closed == old(closed)
      ensures if lease.Some? then Leased(lease.value, key, old(leases)) else leases == old(leases)
      ensures forall k :: k in old(entries) && old(entries)[k].refs != 0 ==>
              k in entries && entries[k] == old(entries)[k]
      ensures lease.Some? ==>
                && starts && lease.value == old(nextLease)
                && key in entries && entries[key] == Entry(old(nextEntry), 1, now)
                && leases[lease.value] == Lease(key, old(nextEntry), true, false, false)
      ensures forall k :: k in entries && k != key ==> !Expired(entries[k], config, now)
      ensures lease.Some? && !recovery ==>
                && (config.maxFeeds > 0 ==> |entries| <= config.maxFeeds)
                && (config.maxPerVenue > 0 ==> |OfVenue(entries, key.venue)| <= config.maxPerVenue)
      ensures lease.None? && starts ==> AtCapacity(entries, config, key.venue, Reserve(config, recovery))
      ensures lease.None? && starts && !recovery ==>
                forall k :: k in entries && (VenueFull(entries, config, key.venue, 0) ==> k.venue == key.venue) ==>
                  entries[k].refs != 0
    {
      hide Inv, WithinLimits, AtCapacity, VenueFull, OfVenue, LiveLease, Expired;
      var full := MakeRoom(key.venue, recovery, now);
      lease := None;
      if !full && starts {
        StartedIsLive(View(), key, now);
        StartKeepsInv(View(), key, now);
        StartedWithinLimits(View(), config, key, recovery, now);
        NextLeaseIsFresh(View());
        lease := Some(nextLease);
        entries := entries[key := Entry(nextEntry, 1, now)];
        leases := leases[nextLease := Lease(key, nextEntry, true, false, false)];
        nextEntry, nextLease := nextEntry + 1, nextLease + 1;
      }
    }

    method AddReference(key: Key, passive: bool, now: int) returns (lease: Option<nat>)
      requires key in entries
      modifies this
      ensures View() == Share(old(View()), key, passive, now) && lease == Some(old(nextLease))
    {
      var e := entries[key];
      entries := entries[key := e.(refs := e.refs + 1, lastUsed := if passive then e.lastUsed else now)];
      lease := Some(nextLease);
      leases := leases[nextLease := Lease(key, e.id, false, passive, false)];
      nextLease := nextLease + 1;
    }

    /** Leases an existing feed; never starts one. */
    method Lookup(key: Key, passive: bool, now: int) returns (lease: Option<nat>)
      requires Valid()
      modifies this
      ensures Valid() && (lease.Some? <==> key in old(entries))
      ensures lease.Some? ==> Leased(lease.value, key, old(leases))
      ensures View() == if lease.Some? then Share(old(View()), key, passive, now) else old(View())
    {
      hide Inv, WithinLimits;
      lease := None;
      if key in entries {
        NextLeaseIsFresh(View());
        ShareKeepsInv(View(), key, passive, now);
        SameKeysStayWithinLimits(entries, Share(View(), key, passive, now).entries, config);
        lease := AddReference(key, passive, now);
      }
    }

    method ReleaseLease(l: nat, discardIfUnused: bool, now: int)
      requires Valid() && l in leases
      modifies this
      ensures Valid() && View() == Release(old(View()), l, discardIfUnused, now)
    {
      hide Inv, WithinLimits;
      ReleaseKeepsInv(View(), l, discardIfUnused, now);
      FewerStayWithinLimits(entries, Release(View(), l, discardIfUnused, now).entries, config);
      var lease := leases[l];
      if !lease.released {
        leases := leases[l := lease.(released := true)];
        if lease.key in entries && entries[lease.key].id == lease.entry {
          var e := entries[lease.key];
          e := e.(refs := e.refs - 1);
          if !lease.passive {
            e := e.(lastUsed := now);
          }
          entries := entries[lease.key := e];
          if discardIfUnused && lease.created && e.refs == 0 {
            entries := entries - {lease.key};
          }
        }
      }
      assert entries == Release(old(View()), l, discardIfUnused, now).entries;
    }

    /** Leases one feed per key, in order; when one is refused the earlier ones are given back. */
    method AcquireAccountContext(keys: seq<Key>, recovery: bool, starts: seq<bool>, now: int)
      returns (ok: bool, held: seq<nat>)
      requires Valid() && |starts| == |keys|
      modifies this
      ensures Valid()
      ensures Unreleased(leases) == Unreleased(old(leases)) + (set l | l in held)
      ensures if ok then |held| == |keys|
              && forall i :: 0 <= i < |keys| ==> held[i] in leases && leases[held[i]].key == keys[i]
              else held == []
      ensures (forall i :: 0 <= i < |keys| ==> keys[i] in old(entries)) ==> ok
      ensures config.maxFeeds <= 0 && config.maxPerVenue <= 0 && (forall i :: 0 <= i < |keys| ==> starts[i]) ==> ok
    {
      hide Inv, WithinLimits, Share, AtCapacity, VenueFull, OfVenue;
      ok, held := true, [];
      var i := 0;
      while i < |keys| && ok
        invariant 0 <= i <= |keys| && |held| <= i && Valid()
        invariant ok ==> |held| == i
        invariant (forall h :: 0 <= h < |keys| ==> keys[h] in old(entries)) ==> ok && entries.Keys == old(entries).Keys
        invariant config.maxFeeds <= 0 && config.maxPerVenue <= 0 && (forall h :: 0 <= h < |keys| ==> starts[h]) ==> ok
        invariant old(leases).Keys <= leases.Keys
        invariant forall h :: 0 <= h < |held| ==>
                  held[h] in leases && held[h] !in old(leases) && leases[held[h]].key == keys[h]
        invariant Unreleased(leases) == Unreleased(old(leases)) + (set l | l in held)
      {
        ghost var before := leases;
        var lease := Acquire(keys[i], recovery, starts[i], now);
        if lease.None? {
          ok := false;
        } else {
          assert Unreleased(leases) == Unreleased(before) + {lease.value};
          held := held + [lease.value];
        }
        i := i + 1;
      }
      if !ok {
        GiveBack(held, now);
        held := [];
        assert Unreleased(leases) == Unreleased(old(leases));
      }
    }

    /** Releases leases, dropping the feeds that were started for them. */
    method GiveBack(held: seq<nat>, now: int)
      requires Valid() && forall l :: l in held ==> l in leases
      modifies this
      ensures Valid() && Unreleased(leases) == Unreleased(old(leases)) - (set l | l in held)
    {
      hide Inv, WithinLimits, LiveLease;
      for i := 0 to |held|
        invariant Valid() && leases.Keys == old(leases).Keys
        invariant Unreleased(leases) == Unreleased(old(leases)) - (set l | l in held[..i])
      {
        ghost var before := leases;
        ReleaseLease(held[i], true, now);
        assert Unreleased(leases) == Unreleased(before) - {held[i]};
        assert held[..i + 1] == held[..i] + [held[i]];
      }
      assert held[..|held|] == held;
    }

    /** Shutdown. */
    method CloseAll()
      requires Valid()
      modifies this
      ensures Valid() && View() == Close(old(View()))
    {
      FewerStayWithinLimits(entries, map[], config);
      entries, closed := map[], true;
    }
  }

  lemma StartedIsLive(s: State, key: Key, now: int)
    ensures LiveLease(Start(s, key, now), s.nextLease)
  {
  }

  lemma NextLeaseIsFresh(s: State)
    requires Inv(s)
    ensures s.nextLease !in s.leases
  {
  }

  lemma SameKeysStayWithinLimits(before: map<Key, Entry>, after: map<Key, Entry>, config: Config)
    requires WithinLimits(before, config, config.reserve) && after.Keys == before.Keys
    ensures WithinLimits(after, config, config.reserve)
  {
    FewerStayWithinLimits(before, after, config);
  }

  function Unreleased(leases: map<nat, Lease>): set<nat> {
    set l | l in leases && !leases[l].released
  }
}
