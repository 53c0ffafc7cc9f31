/** Pairing two venues' price histories, and thinning the result for a chart.

    Times are whole seconds. The two-pointer walk is compared with a reference that
    searches the whole second history for each row of the first.
 */
module HistoryPairing {
  import opened Basics

  const GAP_BUDGET := 15 * 60

  datatype Row = Row(ts: int, mark: real, funding: real)

  datatype Point = Point(
    t: int, basis: real, fundingA: real, fundingB: real, price: Option<real>, segment: nat)

  /** What the walk remembers between rows: the segment, whether an invalid quote has been
      seen since the last price, and the time of that price. */
  datatype Cursor = Cursor(segment: nat, gap: bool, last: Option<int>)

  const START := Cursor(0, false, None)

  function Abs(x: int): nat { if x < 0 then -x else x }

  function Distance(r: Row, t: int): nat { Abs(r.ts - t) }

  function Earlier(a: int, b: int): int { if a <= b then a else b }

  predicate NonDecreasing(rows: seq<Row>) {
    forall i, j :: 0 <= i < j < |rows| ==> rows[i].ts <= rows[j].ts
  }

  // ----- one pair

  function Spread(a: real, b: real): Option<real> {
    if a <= 0.0 || b <= 0.0 then None else Some((b - a) / (a / 2.0 + b / 2.0))
  }

  function Basis(a: real, b: real): real { if a != 0.0 then (a - b) / a else 0.0 }

  predicate Breaks(cur: Cursor, t: int) {
    cur.gap || (cur.last.Some? && t - cur.last.value > GAP_BUDGET)
  }

  function PairOf(a: Row, b: Row, priceSpread: bool, cur: Cursor): Point {
    var t := Earlier(a.ts, b.ts);
    var price := Spread(a.mark, b.mark);
    if !priceSpread then Point(a.ts, Basis(a.mark, b.mark), a.funding, b.funding, None, 0)
    else Point(t, Basis(a.mark, b.mark), a.funding, b.funding, price,
               if price.Some? && Breaks(cur, t) then cur.segment + 1 else cur.segment)
  }

  function CursorAfter(p: Point, priceSpread: bool, cur: Cursor): Cursor {
    if !priceSpread then cur
    else if p.price.Some? then Cursor(p.segment, false, Some(p.t))
    else cur.(gap := true)
  }

  /** The spread is relative to the middle of the two prices, and there is none without two positive
      prices; the basis is relative to the first. */
  lemma SpreadExactly(a: real, b: real)
    ensures Spread(a, b).None? <==> a <= 0.0 || b <= 0.0
    ensures Spread(a, b).Some? ==> Spread(a, b).value * (a + b) == 2.0 * (b - a)
    ensures a == 0.0 ==> Basis(a, b) == 0.0
    ensures a != 0.0 ==> Basis(a, b) * a == a - b
  {
    if a > 0.0 && b > 0.0 {
      var middle := a / 2.0 + b / 2.0;
      var s := (b - a) / middle;
      assert s * middle == b - a;
      assert s * (a + b) == s * middle * 2.0;
    }
  }

  /** A point without a price stays in the segment, and no price follows it without a break. */
  lemma UnpricedBreaks(a: Row, b: Row, cur: Cursor, t: int)
    requires PairOf(a, b, true, cur).price.None?
    ensures PairOf(a, b, true, cur).segment == cur.segment
    ensures Breaks(CursorAfter(PairOf(a, b, true, cur), true, cur), t)
  {
  }

  // ----- the walk

  /** The pointer moves on while the next row of `b` is strictly closer. */
  function Advance(b: seq<Row>, j: nat, t: int): (k: nat)
    requires j < |b|
    ensures j <= k < |b|
    decreases |b| - j
  {
    if j + 1 < |b| && Distance(b[j + 1], t) < Distance(b[j], t) then Advance(b, j + 1, t) else j
  }

  function Walk(a: seq<Row>, b: seq<Row>, j: nat, tolerance: nat, priceSpread: bool, cur: Cursor): seq<Point>
    requires j < |b|
    decreases |a|
  {
    if a == [] then []
    else
      var k := Advance(b, j, a[0].ts);
      if Distance(b[k], a[0].ts) > tolerance then Walk(a[1..], b, k, tolerance, priceSpread, cur)
      else
        var p := PairOf(a[0], b[k], priceSpread, cur);
        [p] + Walk(a[1..], b, k, tolerance, priceSpread, CursorAfter(p, priceSpread, cur))
  }

  method PairHistoryRows(a: seq<Row>, b: seq<Row>, tolerance: nat, priceSpread: bool) returns (points: seq<Point>)
    ensures points == if b == [] then [] else Walk(a, b, 0, tolerance, priceSpread, START)
    ensures b != [] && NonDecreasing(a) && NonDecreasing(b) && Reachable(a, b) ==>
              points == PairAll(a, b, tolerance, priceSpread, START)
  {
    points := [];
    if a != [] && b != [] {
      var j := 0;
      var cur := START;
      for i := 0 to |a|
        invariant 0 <= j < |b|
        invariant Walk(a, b, 0, tolerance, priceSpread, START)
                  == points + Walk(a[i..], b, j, tolerance, priceSpread, cur)
      {
        assert a[i..][0] == a[i] && a[i..][1..] == a[i + 1..];
        var t := a[i].ts;
        ghost var j0 := j;
        while j + 1 < |b| && Distance(b[j + 1], t) < Distance(b[j], t)
          invariant 0 <= j < |b|
          invariant Advance(b, j0, t) == Advance(b, j, t)
        {
          j := j + 1;
        }
        if Distance(b[j], t) <= tolerance {
          var p := PairOf(a[i], b[j], priceSpread, cur);
          cur := CursorAfter(p, priceSpread, cur);
          points := points + [p];
        }
      }
      assert a[|a|..] == [];
      if NonDecreasing(a) && NonDecreasing(b) && Reachable(a, b) {
        WalkIsNearest(a, b, tolerance, priceSpread, START);
      }
    }
  }

  // ----- the reference: the nearest row of all, the earliest of two equally near

  function Nearest(b: seq<Row>, t: int): (k: nat)
    requires b != []
    ensures k < |b|
  {
    if |b| == 1 then 0
    else
      var k := Nearest(b[..|b| - 1], t);
      if Distance(b[|b| - 1], t) < Distance(b[k], t) then |b| - 1 else k
  }

  predicate IsNearest(b: seq<Row>, t: int, k: nat) {
    k < |b| && forall i :: 0 <= i < |b| ==>
      Distance(b[k], t) <= Distance(b[i], t) && (i < k ==> Distance(b[k], t) < Distance(b[i], t))
  }

  lemma {:induction false} NearestIsNearest(b: seq<Row>, t: int)
    requires b != []
    ensures forall k: nat :: IsNearest(b, t, k) <==> k == Nearest(b, t)
  {
    if |b| > 1 {
      var front := b[..|b| - 1];
      NearestIsNearest(front, t);
      assert IsNearest(front, t, Nearest(front, t));
      forall k: nat | IsNearest(b, t, k)
        ensures k == Nearest(b, t)
      {
        assert k < |front| ==> IsNearest(front, t, k);
      }
    }
  }

  function PairAll(a: seq<Row>, b: seq<Row>, tolerance: nat, priceSpread: bool, cur: Cursor): seq<Point>
    requires b != []
    decreases |a|
  {
    if a == [] then []
    else
      var r := b[Nearest(b, a[0].ts)];
      if Distance(r, a[0].ts) > tolerance then PairAll(a[1..], b, tolerance, priceSpread, cur)
      else
        var p := PairOf(a[0], r, priceSpread, cur);
        [p] + PairAll(a[1..], b, tolerance, priceSpread, CursorAfter(p, priceSpread, cur))
  }

  /** The pointer never passed a row that could still be nearest. */
  predicate Passed(b: seq<Row>, j: nat, t: int) {
    j < |b| && (j > 0 ==> b[j - 1].ts + b[j].ts < 2 * t)
  }

  /** No time is repeated in `b` up to row `n`. */
  predicate NoRepeatTo(b: seq<Row>, n: nat) {
    forall i :: 0 <= i < n && i + 1 < |b| ==> b[i].ts != b[i + 1].ts
  }

  /** Where the pointer stops: never past a repeated time. */
  lemma {:induction false} AdvanceStops(b: seq<Row>, j: nat, t: int)
    requires NonDecreasing(b) && Passed(b, j, t) && NoRepeatTo(b, j)
    ensures var k := Advance(b, j, t);
            && Passed(b, k, t) && NoRepeatTo(b, k)
            && (k + 1 < |b| ==> Distance(b[k + 1], t) >= Distance(b[k], t))
    decreases |b| - j
  {
    if j + 1 < |b| && Distance(b[j + 1], t) < Distance(b[j], t) {
      AdvanceStops(b, j + 1, t);
    }
  }

  /** Everything before the pointer is farther. */
  lemma EarlierIsFarther(b: seq<Row>, k: nat, t: int, i: nat)
    requires NonDecreasing(b) && Passed(b, k, t) && NoRepeatTo(b, k) && i < k
    ensures Distance(b[i], t) > Distance(b[k], t)
  {
    assert b[k - 1].ts != b[k - 1 + 1].ts;
    assert i < k - 1 ==> b[i].ts <= b[k - 1].ts;
  }

  /** Row `k` is at the nearest distance exactly when no time is repeated before the nearest
      row, and then it is that row. */
  predicate NearestUnlessRepeated(b: seq<Row>, k: nat, t: int)
    requires k < |b|
  {
    var n := Nearest(b, t);
    && (Distance(b[k], t) == Distance(b[n], t) <==> NoRepeatTo(b, n))
    && (NoRepeatTo(b, n) ==> k == n)
  }

  lemma StoppedAtNearestExactly(b: seq<Row>, k: nat, t: int)
    requires NonDecreasing(b) && Passed(b, k, t) && NoRepeatTo(b, k)
    requires k + 1 < |b| ==> Distance(b[k + 1], t) >= Distance(b[k], t)
    ensures NearestUnlessRepeated(b, k, t)
  {
    NearestIsNearest(b, t);
    var n := Nearest(b, t);
    assert IsNearest(b, t, n);
    if n < k {
      EarlierIsFarther(b, k, t, n);
    } else if n > k {
      assert b[k].ts <= b[k + 1].ts <= b[n].ts;
      assert Distance(b[n], t) < Distance(b[k], t);
      assert !(0 <= k < n && k + 1 < |b| ==> b[k].ts != b[k + 1].ts);
    }
  }

  /** The pointer after each row. */
  function Pointers(a: seq<Row>, b: seq<Row>, j: nat): (ks: seq<nat>)
    requires j < |b|
    ensures |ks| == |a| && forall i :: 0 <= i < |ks| ==> ks[i] < |b|
  {
    if a == [] then [] else var k := Advance(b, j, a[0].ts); [k] + Pointers(a[1..], b, k)
  }

  /** On histories that do not go back, a row is taken at its nearest distance exactly when
      no time is repeated before its nearest row. */
  lemma {:induction false} ReachedExactly(a: seq<Row>, b: seq<Row>, j: nat)
    requires NonDecreasing(a) && NonDecreasing(b) && j < |b| && NoRepeatTo(b, j)
    requires a != [] ==> Passed(b, j, a[0].ts)
    ensures forall i :: 0 <= i < |a| ==> NearestUnlessRepeated(b, Pointers(a, b, j)[i], a[i].ts)
    decreases |a|
  {
    if a != [] {
      AdvanceStops(b, j, a[0].ts);
      var k := Advance(b, j, a[0].ts);
      StoppedAtNearestExactly(b, k, a[0].ts);
      assert |a| > 1 ==> a[1..][0].ts >= a[0].ts;
      hide NoRepeatTo, NearestUnlessRepeated;
      ReachedExactly(a[1..], b, k);
    }
  }

  predicate Chosen(a: seq<Row>, b: seq<Row>, ks: seq<nat>) {
    |ks| == |a| && forall i :: 0 <= i < |ks| ==> ks[i] < |b|
  }

  /** Pairing along given rows of `b`. */
  function PairAt(
    a: seq<Row>, b: seq<Row>, ks: seq<nat>, tolerance: nat, priceSpread: bool, cur: Cursor): seq<Point>
    requires Chosen(a, b, ks)
    decreases |a|
  {
    if a == [] then []
    else if Distance(b[ks[0]], a[0].ts) > tolerance then PairAt(a[1..], b, ks[1..], tolerance, priceSpread, cur)
    else
      var p := PairOf(a[0], b[ks[0]], priceSpread, cur);
      [p] + PairAt(a[1..], b, ks[1..], tolerance, priceSpread, CursorAfter(p, priceSpread, cur))
  }

  /** The walk pairs along its pointers, whatever the histories. */
  lemma {:induction false} WalkFollowsPointers(
    a: seq<Row>, b: seq<Row>, j: nat, tolerance: nat, priceSpread: bool, cur: Cursor)
    requires j < |b|
    ensures Walk(a, b, j, tolerance, priceSpread, cur) == PairAt(a, b, Pointers(a, b, j), tolerance, priceSpread, cur)
    decreases |a|
  {
    if a != [] {
      var k := Advance(b, j, a[0].ts);
      var p := PairOf(a[0], b[k], priceSpread, cur);
      WalkFollowsPointers(a[1..], b, k, tolerance, priceSpread, cur);
      WalkFollowsPointers(a[1..], b, k, tolerance, priceSpread, CursorAfter(p, priceSpread, cur));
      assert Pointers(a, b, j)[1..] == Pointers(a[1..], b, k);
    }
  }

  lemma {:induction false} PairAtNearest(
    a: seq<Row>, b: seq<Row>, ks: seq<nat>, tolerance: nat, priceSpread: bool, cur: Cursor)
    requires b != [] && |ks| == |a| && forall i :: 0 <= i < |ks| ==> ks[i] == Nearest(b, a[i].ts) < |b|
    ensures PairAt(a, b, ks, tolerance, priceSpread, cur) == PairAll(a, b, tolerance, priceSpread, cur)
    decreases |a|
  {
    if a != [] {
      var p := PairOf(a[0], b[ks[0]], priceSpread, cur);
      PairAtNearest(a[1..], b, ks[1..], tolerance, priceSpread, cur);
      PairAtNearest(a[1..], b, ks[1..], tolerance, priceSpread, CursorAfter(p, priceSpread, cur));
    }
  }

  /** No row of `a` has a repeated time before its nearest row of `b`. */
  predicate Reachable(a: seq<Row>, b: seq<Row>)
    requires b != []
  {
    forall i :: 0 <= i < |a| ==> NoRepeatTo(b, Nearest(b, a[i].ts))
  }

  lemma PointersAreNearest(a: seq<Row>, b: seq<Row>)
    requires b != [] && NonDecreasing(a) && NonDecreasing(b) && Reachable(a, b)
    ensures var ks := Pointers(a, b, 0); forall i :: 0 <= i < |ks| ==> ks[i] == Nearest(b, a[i].ts)
  {
    ReachedExactly(a, b, 0);
  }

  /** Then the walk pairs each row with its nearest one. */
  lemma WalkIsNearest(a: seq<Row>, b: seq<Row>, tolerance: nat, priceSpread: bool, cur: Cursor)
    requires b != [] && NonDecreasing(a) && NonDecreasing(b) && Reachable(a, b)
    ensures Walk(a, b, 0, tolerance, priceSpread, cur) == PairAll(a, b, tolerance, priceSpread, cur)
  {
    WalkFollowsPointers(a, b, 0, tolerance, priceSpread, cur);
    PointersAreNearest(a, b);
    PairAtNearest(a, b, Pointers(a, b, 0), tolerance, priceSpread, cur);
  }

  /** With a time repeated in `b` the pointer sticks: an exact match is missed. */
  lemma RepeatedTimeSticks()
    ensures var a, b := [Row(10, 1.0, 0.0)], [Row(0, 1.0, 0.0), Row(0, 1.0, 0.0), Row(10, 1.0, 0.0)];
            && Nearest(b, 10) == 2 && Advance(b, 0, 10) == 0
            && Walk(a, b, 0, 5, true, START) == [] && |PairAll(a, b, 5, true, START)| == 1
  {
    var b := [Row(0, 1.0, 0.0), Row(0, 1.0, 0.0), Row(10, 1.0, 0.0)];
    assert IsNearest(b, 10, 2);
    NearestIsNearest(b, 10);
  }

  // ----- which rows are paired

  predicate HasMatch(r: Row, b: seq<Row>, tolerance: nat) {
    exists i :: 0 <= i < |b| && Distance(b[i], r.ts) <= tolerance
  }

  function Matched(a: seq<Row>, b: seq<Row>, tolerance: nat): seq<Row> {
    if a == [] then []
    else (if HasMatch(a[0], b, tolerance) then [a[0]] else []) + Matched(a[1..], b, tolerance)
  }

  /** The rows of `a` whose chosen row of `b` is within tolerance, each with that row. */
  function Kept(a: seq<Row>, b: seq<Row>, ks: seq<nat>, tolerance: nat): seq<(Row, Row)>
    requires Chosen(a, b, ks)
  {
    if a == [] then []
    else
      (if Distance(b[ks[0]], a[0].ts) <= tolerance then [(a[0], b[ks[0]])] else [])
      + Kept(a[1..], b, ks[1..], tolerance)
  }

  /** A point made of two rows. */
  predicate MadeOf(p: Point, row: Row, r: Row, priceSpread: bool) {
    && p.fundingA == row.funding && p.fundingB == r.funding && p.basis == Basis(row.mark, r.mark)
    && (if priceSpread then p.t in {row.ts, r.ts} && p.t <= row.ts && p.t <= r.ts else p.t == row.ts)
    && (priceSpread ==> p.price == Spread(row.mark, r.mark))
  }

  /** Along any choice of rows, exactly the rows within tolerance are paired, in order. */
  lemma {:induction false} PairsAreKept(
    a: seq<Row>, b: seq<Row>, ks: seq<nat>, tolerance: nat, priceSpread: bool, cur: Cursor)
    requires Chosen(a, b, ks)
    ensures var points, rows := PairAt(a, b, ks, tolerance, priceSpread, cur), Kept(a, b, ks, tolerance);
            && |points| == |rows|
            && forall i :: 0 <= i < |points| ==> MadeOf(points[i], rows[i].0, rows[i].1, priceSpread)
    decreases |a|
  {
    if a != [] {
      if Distance(b[ks[0]], a[0].ts) <= tolerance {
        var p := PairOf(a[0], b[ks[0]], priceSpread, cur);
        assert MadeOf(p, a[0], b[ks[0]], priceSpread);
        hide MadeOf, Distance;
        PairsAreKept(a[1..], b, ks[1..], tolerance, priceSpread, CursorAfter(p, priceSpread, cur));
      } else {
        hide MadeOf, Distance;
        PairsAreKept(a[1..], b, ks[1..], tolerance, priceSpread, cur);
      }
    }
  }

  lemma MatchIsNearest(row: Row, b: seq<Row>, tolerance: nat)
    requires b != []
    ensures HasMatch(row, b, tolerance) <==> Distance(b[Nearest(b, row.ts)], row.ts) <= tolerance
  {
    NearestIsNearest(b, row.ts);
    assert IsNearest(b, row.ts, Nearest(b, row.ts));
  }

  /** Kept along the nearest rows are exactly the rows of `a` that have a match at all. */
  lemma {:induction false} KeptAreMatched(a: seq<Row>, b: seq<Row>, ks: seq<nat>, tolerance: nat)
    requires b != [] && |ks| == |a| && forall i :: 0 <= i < |ks| ==> ks[i] == Nearest(b, a[i].ts) < |b|
    ensures var rows := Kept(a, b, ks, tolerance);
            && |rows| == |Matched(a, b, tolerance)|
            && forall i :: 0 <= i < |rows| ==> rows[i] == (Matched(a, b, tolerance)[i], b[Nearest(b, rows[i].0.ts)])
    decreases |a|
  {
    if a != [] {
      MatchIsNearest(a[0], b, tolerance);
      hide HasMatch, Nearest, Distance;
      KeptAreMatched(a[1..], b, ks[1..], tolerance);
    }
  }

  /** What the walk pairs, whatever the histories: the rows its pointer found within
      tolerance, in order; and those are the rows with a match where no time is repeated
      before a nearest row. */
  lemma PairsAreMatches(a: seq<Row>, b: seq<Row>, tolerance: nat, priceSpread: bool, cur: Cursor)
    requires b != []
    ensures var points, rows := Walk(a, b, 0, tolerance, priceSpread, cur), Kept(a, b, Pointers(a, b, 0), tolerance);
            && |points| == |rows|
            && (forall i :: 0 <= i < |points| ==> MadeOf(points[i], rows[i].0, rows[i].1, priceSpread))
            && (NonDecreasing(a) && NonDecreasing(b) && Reachable(a, b) ==>
                  && |rows| == |Matched(a, b, tolerance)|
                  && forall i :: 0 <= i < |rows| ==>
                       rows[i] == (Matched(a, b, tolerance)[i], b[Nearest(b, rows[i].0.ts)]))
  {
    hide MadeOf, Distance, Nearest;
    WalkFollowsPointers(a, b, 0, tolerance, priceSpread, cur);
    PairsAreKept(a, b, Pointers(a, b, 0), tolerance, priceSpread, cur);
    if NonDecreasing(a) && NonDecreasing(b) && Reachable(a, b) {
      PointersAreNearest(a, b);
      KeptAreMatched(a, b, Pointers(a, b, 0), tolerance);
    }
  }

  // ----- segments

  predicate Connected(points: seq<Point>, k: nat, m: nat) {
    k <= m < |points| && forall n :: k < n <= m ==>
      points[n].price.Some? && points[n].t - points[n - 1].t <= GAP_BUDGET
  }

  /** From the cursor: a priced point is in its segment exactly when nothing broke it on the way. */
  lemma {:induction false} SegmentFromCursor(
    a: seq<Row>, b: seq<Row>, ks: seq<nat>, tolerance: nat, cur: Cursor, m: nat)
    requires Chosen(a, b, ks) && m < |PairAt(a, b, ks, tolerance, true, cur)|
    requires PairAt(a, b, ks, tolerance, true, cur)[m].price.Some?
    ensures var points := PairAt(a, b, ks, tolerance, true, cur);
            && points[m].segment >= cur.segment
            && (points[m].segment == cur.segment <==>
                  points[0].price.Some? && !Breaks(cur, points[0].t) && Connected(points, 0, m))
    decreases |a|
  {
    var points := PairAt(a, b, ks, tolerance, true, cur);
    if Distance(b[ks[0]], a[0].ts) > tolerance {
      SegmentFromCursor(a[1..], b, ks[1..], tolerance, cur, m);
    } else if m > 0 {
      var next := CursorAfter(points[0], true, cur);
      var rest := PairAt(a[1..], b, ks[1..], tolerance, true, next);
      assert points[1..] == rest;
      SegmentFromCursor(a[1..], b, ks[1..], tolerance, next, m - 1);
      ConnectedRest(points, m);
    }
  }

  lemma ConnectedRest(points: seq<Point>, m: nat)
    requires 0 < m < |points|
    ensures Connected(points, 0, m) <==>
              points[1].price.Some? && points[1].t - points[0].t <= GAP_BUDGET && Connected(points[1..], 0, m - 1)
  {
    var rest := points[1..];
    if Connected(points, 0, m) {
      forall n | 0 < n <= m - 1
        ensures rest[n].price.Some? && rest[n].t - rest[n - 1].t <= GAP_BUDGET
      {
        assert points[n + 1].price.Some?;
      }
    }
    if points[1].price.Some? && points[1].t - points[0].t <= GAP_BUDGET && Connected(rest, 0, m - 1) {
      forall n | 0 < n <= m
        ensures points[n].price.Some? && points[n].t - points[n - 1].t <= GAP_BUDGET
      {
        if n > 1 {
          assert rest[n - 1].price.Some?;
        }
      }
    }
  }

  lemma {:induction false} SameSegmentAlong(
    a: seq<Row>, b: seq<Row>, ks: seq<nat>, tolerance: nat, cur: Cursor, k: nat, m: nat)
    requires Chosen(a, b, ks) && k < m < |PairAt(a, b, ks, tolerance, true, cur)|
    requires var points := PairAt(a, b, ks, tolerance, true, cur); points[k].price.Some? && points[m].price.Some?
    ensures var points := PairAt(a, b, ks, tolerance, true, cur);
            points[k].segment == points[m].segment <==> Connected(points, k, m)
    decreases |a|
  {
    var points := PairAt(a, b, ks, tolerance, true, cur);
    if Distance(b[ks[0]], a[0].ts) > tolerance {
      SameSegmentAlong(a[1..], b, ks[1..], tolerance, cur, k, m);
    } else {
      var next := CursorAfter(points[0], true, cur);
      assert points[1..] == PairAt(a[1..], b, ks[1..], tolerance, true, next);
      if k == 0 {
        SegmentFromCursor(a[1..], b, ks[1..], tolerance, next, m - 1);
        ConnectedRest(points, m);
      } else {
        SameSegmentAlong(a[1..], b, ks[1..], tolerance, next, k - 1, m - 1);
        ConnectedShift(points, k, m);
      }
    }
  }

  /** Two priced points of the walk, whatever the histories, share a segment exactly when every
      point after the first up to the second is priced and follows its predecessor within
      the budget. */
  lemma SameSegmentIffConnected(a: seq<Row>, b: seq<Row>, tolerance: nat, cur: Cursor, k: nat, m: nat)
    requires b != [] && k < m < |Walk(a, b, 0, tolerance, true, cur)|
    requires var points := Walk(a, b, 0, tolerance, true, cur); points[k].price.Some? && points[m].price.Some?
    ensures var points := Walk(a, b, 0, tolerance, true, cur);
            points[k].segment == points[m].segment <==> Connected(points, k, m)
  {
    WalkFollowsPointers(a, b, 0, tolerance, true, cur);
    SameSegmentAlong(a, b, Pointers(a, b, 0), tolerance, cur, k, m);
  }

  lemma ConnectedShift(points: seq<Point>, k: nat, m: nat)
    requires 0 < k <= m < |points|
    ensures Connected(points, k, m) <==> Connected(points[1..], k - 1, m - 1)
  {
    var rest := points[1..];
    if Connected(points, k, m) {
      forall n | k - 1 < n <= m - 1
        ensures rest[n].price.Some? && rest[n].t - rest[n - 1].t <= GAP_BUDGET
      {
        assert points[n + 1].price.Some?;
      }
    }
    if Connected(rest, k - 1, m - 1) {
      forall n | k < n <= m
        ensures points[n].price.Some? && points[n].t - points[n - 1].t <= GAP_BUDGET
      {
        assert rest[n - 1].price.Some?;
      }
    }
  }

  // ----- thinning

  function SampleIndex(i: nat, total: nat, kept: nat): int
    requires kept >= 2
  {
    i * (total - 1) / (kept - 1)
  }

  lemma SampleRises(i: nat, total: nat, kept: nat)
    requires 2 <= kept <= total
    ensures SampleIndex(i, total, kept) + 1 <= SampleIndex(i + 1, total, kept)
  {
    var n, m := total - 1, kept - 1;
    assert (i + 1) * n == i * n + n;
    OneMore(i * n, m);
    Monotone(i * n + m, i * n + n, m);
  }

  lemma Multiply(a: int, b: int, m: int)
    requires a <= b && m >= 0
    ensures a * m <= b * m
  {
  }

  lemma Monotone(x: int, y: int, m: int)
    requires x <= y && m > 0
    ensures x / m <= y / m
  {
    var dx, dy := x / m, y / m;
    assert dx * m <= x && y < dy * m + m;
    if dy < dx {
      Multiply(dy + 1, dx, m);
    }
  }

  lemma Quotient(x: int, m: int, q: int)
    requires m > 0 && q * m <= x < q * m + m
    ensures x / m == q
  {
    var d := x / m;
    assert d * m <= x < d * m + m;
    if d < q {
      Multiply(d + 1, q, m);
    } else if d > q {
      Multiply(q + 1, d, m);
    }
  }

  lemma OneMore(x: int, m: int)
    requires m > 0
    ensures (x + m) / m == x / m + 1
  {
    var d := x / m;
    assert d * m <= x < d * m + m;
    assert (d + 1) * m == d * m + m;
    Quotient(x + m, m, d + 1);
  }

  lemma {:induction false} SamplesRise(i: nat, j: nat, total: nat, kept: nat)
    requires 2 <= kept <= total && i < j
    ensures SampleIndex(i, total, kept) < SampleIndex(j, total, kept)
    decreases j - i
  {
    SampleRises(j - 1, total, kept);
    if i + 1 < j {
      SamplesRise(i, j - 1, total, kept);
    }
  }

  lemma SampleEnds(total: nat, kept: nat)
    requires 2 <= kept <= total
    ensures SampleIndex(0, total, kept) == 0 && SampleIndex(kept - 1, total, kept) == total - 1
  {
    var n, m := total - 1, kept - 1;
    assert n * m == m * n;
    Quotient(m * n, m, n);
    Quotient(0, m, 0);
  }

  /** `index` is the last whose share of all points is not beyond the share of `i` among those kept. */
  predicate EvenlySpread(index: nat, i: nat, total: nat, kept: nat) {
    index * (kept - 1) <= i * (total - 1) < (index + 1) * (kept - 1)
  }

  lemma SampleIsEven(i: nat, total: nat, kept: nat)
    requires 2 <= kept <= total
    ensures SampleIndex(i, total, kept) >= 0 && EvenlySpread(SampleIndex(i, total, kept), i, total, kept)
  {
    var n, m := i * (total - 1), kept - 1;
    Multiply(0, i, total - 1);
    assert n == n / m * m + n % m;
    assert (n / m + 1) * m == n / m * m + m;
  }

  /** Keeps at most `maxPoints` points, the first and the last among them, in order and
      without repeats. `None`: reducing to one point divides by zero, which panics. */
  method Downsample(points: seq<Point>, maxPoints: int)
    returns (result: Option<seq<Point>>, ghost indices: seq<nat>)
    ensures result.None? <==> maxPoints == 1 && |points| > 1
    ensures maxPoints <= 0 || |points| <= maxPoints ==> result == Some(points)
    ensures maxPoints >= 2 && |points| > maxPoints ==>
              && result.Some? && |result.value| == maxPoints
              && result.value[0] == points[0] && result.value[maxPoints - 1] == points[|points| - 1]
    ensures result.Some? ==>
              && |indices| == |result.value|
              && (forall i :: 0 <= i < |indices| ==> indices[i] < |points| && result.value[i] == points[indices[i]])
              && (forall i, j :: 0 <= i < j < |indices| ==> indices[i] < indices[j])
    ensures maxPoints >= 2 && |points| > maxPoints ==>
              forall i :: 0 <= i < |indices| ==> EvenlySpread(indices[i], i, |points|, maxPoints)
  {
    indices := [];
    if maxPoints <= 0 || |points| <= maxPoints {
      result, indices := Some(points), seq(|points|, i => i);
    } else if maxPoints == 1 {
      result := None;
    } else {
      var kept := [];
      SampleEnds(|points|, maxPoints);
      for i := 0 to maxPoints
        invariant |kept| == |indices| == i
        invariant forall k :: 0 <= k < i ==>
                    indices[k] == SampleIndex(k, |points|, maxPoints) < |points| && kept[k] == points[indices[k]]
      {
        if i > 0 {
          SamplesRise(0, i, |points|, maxPoints);
        }
        if i < maxPoints - 1 {
          SamplesRise(i, maxPoints - 1, |points|, maxPoints);
        }
        var index := i * (|points| - 1) / (maxPoints - 1);
        kept, indices := kept + [points[index]], indices + [index];
      }
      forall i | 0 <= i < |indices|
        ensures EvenlySpread(indices[i], i, |points|, maxPoints)
      {
        SampleIsEven(i, |points|, maxPoints);
      }
      forall i, j | 0 <= i < j < |indices|
        ensures indices[i] < indices[j]
      {
        SamplesRise(i, j, |points|, maxPoints);
      }
      result := Some(kept);
    }
  }
}
