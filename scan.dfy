/** The left-to-right scan of `render` (visualization/index.js, lines
    296-358), proved to compute the layout module `Layout` specifies: the
    position of every timestamp, and on the way every linearization point. */
module LayoutScan {
  import opened Timeline
  import opened Ordering
  import opened Helpers
  import opened Layout

  /** The points computed so far: `lp[L]` holds the first points of
      linearization `L` (`linearizationPositions` of lines 296-297). */
  predicate PointsSoFar(sc: Scene, xPos: map<real, real>, lp: seq<seq<real>>)
  {
    |lp| == |sc.lins| && forall L :: 0 <= L < |lp| ==> RowSoFar(sc, xPos, L, lp[L])
  }

  /** `row` holds the first points of linearization `L`. */
  predicate RowSoFar(sc: Scene, xPos: map<real, real>, L: nat, row: seq<real>)
  {
    L < |sc.lins| && |row| <= |sc.lins[L]| && Placed(xPos, sc.startOf, sc.lins[L][..|row|]) &&
    row == Points(xPos, sc.startOf, sc.lins[L][..|row|])
  }

  /** `lp2` extends every row of `lp1`. */
  predicate Grown(lp1: seq<seq<real>>, lp2: seq<seq<real>>)
  {
    |lp1| == |lp2| && forall L :: 0 <= L < |lp1| ==> |lp1[L]| <= |lp2[L]|
  }

  /** The points of every linearization holding event `g` are computed up to
      `g`. */
  predicate Reached(sc: Scene, lp: seq<seq<real>>, g: nat)
  {
    g < |sc.steps| &&
    forall j :: 0 <= j < |sc.steps[g]| ==>
      sc.steps[g][j].index < |lp| && sc.steps[g][j].position < |lp[sc.steps[g][j].index]|
  }

  /** Replacing one row of `lp` by a longer correct row keeps `lp` correct. */
  lemma SetRow(sc: Scene, xPos: map<real, real>, lp: seq<seq<real>>, index: nat, row: seq<real>)
    requires PointsSoFar(sc, xPos, lp) && index < |lp|
    requires |lp[index]| <= |row| <= |sc.lins[index]|
    requires Placed(xPos, sc.startOf, sc.lins[index][..|row|])
    requires row == Points(xPos, sc.startOf, sc.lins[index][..|row|])
    ensures PointsSoFar(sc, xPos, lp[index := row]) && Grown(lp, lp[index := row])
  {
  }

  /** Lines 327-340: pushes the missing points of linearization `index` up to
      and including `position`. */
  method ExtendPoints(sc: Scene, xPos: map<real, real>, lp: seq<seq<real>>, index: nat, position: nat)
    returns (lp': seq<seq<real>>)
    requires PointsSoFar(sc, xPos, lp)
    requires ItemReady(sc, xPos, LinPos(index, position))
    ensures PointsSoFar(sc, xPos, lp') && Grown(lp, lp')
    ensures position < |lp'[index]|
  {
    var lin := sc.lins[index];
    forall k | 0 <= k <= position
      ensures lin[k] < |sc.startOf|
    {
      assert lin[..position + 1][k] == lin[k];
    }
    var row := lp[index];
    var i := |row|;
    while i <= position
      invariant i == |row| && |lp[index]| <= i <= |lin|
      invariant Placed(xPos, sc.startOf, lin[..i])
      invariant row == Points(xPos, sc.startOf, lin[..i])
      decreases position + 1 - i
    {
      assert lin[..i + 1] == lin[..position + 1][..i + 1];
      var next := xPos[sc.startOf[lin[i]]];
      var nextPos := if |row| == 0 then next else Max(next, row[i - 1] + LpGap);
      PointsSnoc(xPos, sc.startOf, lin, i);
      row := row + [nextPos];
      i := i + 1;
    }
    SetRow(sc, xPos, lp, index, row);
    lp' := lp[index := row];
  }

  /** A computed point is the point `PointAt` describes. */
  lemma RowPoint(sc: Scene, xPos: map<real, real>, lp: seq<seq<real>>, li: LinPos)
    requires Indexed(sc) && PointsSoFar(sc, xPos, lp) && ValidPos(sc, li)
    requires li.position < |lp[li.index]|
    ensures lp[li.index][li.position] == PointAt(sc, xPos, li)
  {
    var lin := sc.lins[li.index];
    PointsPrefix(xPos, sc.startOf, lin[..|lp[li.index]|], li.position + 1);
    assert lin[..|lp[li.index]|][..li.position + 1] == lin[..li.position + 1];
  }

  /** A complete row is the list of all points of its linearization. */
  lemma FullRow(sc: Scene, xPos: map<real, real>, lp: seq<seq<real>>, L: nat)
    requires Indexed(sc) && PointsSoFar(sc, xPos, lp) && NonEmptyLin(sc, L)
    requires |sc.lins[L]| - 1 < |lp[L]|
    ensures |lp[L]| > 0 && lp[L][|lp[L]| - 1] == LastPoint(sc, xPos, L)
  {
    assert sc.lins[L][..|lp[L]|] == sc.lins[L];
  }

  /** Lines 316-346: visits `items` in order, computing the points each one
      needs and pushing `pos` right past them. */
  method PushSteps(sc: Scene, xPos: map<real, real>, lp: seq<seq<real>>, items: seq<LinPos>, pos: real)
    returns (pos': real, lp': seq<seq<real>>)
    requires Indexed(sc) && PointsSoFar(sc, xPos, lp)
    requires forall k :: 0 <= k < |items| ==> ValidPos(sc, items[k])
    requires forall k :: 0 <= k < |items| ==> ItemReady(sc, xPos, items[k])
    ensures pos' == StepsBound(sc, xPos, items, pos)
    ensures PointsSoFar(sc, xPos, lp') && Grown(lp, lp')
    ensures forall k :: 0 <= k < |items| ==> items[k].position < |lp'[items[k].index]|
  {
    pos', lp' := pos, lp;
    for j := 0 to |items|
      invariant PointsSoFar(sc, xPos, lp') && Grown(lp, lp')
      invariant forall k :: 0 <= k < j ==> items[k].position < |lp'[items[k].index]|
      invariant StepsBound(sc, xPos, items[j..], pos') == StepsBound(sc, xPos, items, pos)
    {
      var li := items[j];
      lp' := ExtendPoints(sc, xPos, lp', li.index, li.position);
      RowPoint(sc, xPos, lp', li);
      assert items[j..][1..] == items[j + 1..];
      pos' := Max(pos', lp'[li.index][li.position]);
    }
  }

  /** Lines 348-353: leaves `LpGap` after the last point of every
      linearization in `ill`, whose points are all computed. */
  method PushIllegal(sc: Scene, xPos: map<real, real>, lp: seq<seq<real>>, ill: seq<nat>, pos: real)
    returns (pos': real)
    requires Indexed(sc) && PointsSoFar(sc, xPos, lp)
    requires forall k :: 0 <= k < |ill| ==> NonEmptyLin(sc, ill[k]) && |sc.lins[ill[k]]| - 1 < |lp[ill[k]]|
    ensures pos' == IllegalBound(sc, xPos, ill, pos)
  {
    pos' := pos;
    for j := 0 to |ill|
      invariant IllegalBound(sc, xPos, ill[j..], pos') == IllegalBound(sc, xPos, ill, pos)
    {
      var lin := lp[ill[j]];
      FullRow(sc, xPos, lp, ill[j]);
      assert ill[j..][1..] == ill[j + 1..];
      pos' := Max(pos', lin[|lin| - 1] + LpGap);
    }
  }

  /** The steps of a ready box are ready. */
  lemma ItemsReady(sc: Scene, xPos: map<real, real>, b: Box)
    requires Indexed(sc) && BoxReady(sc, xPos, b)
    ensures forall k :: 0 <= k < |Items(sc, b.gid)| ==> ItemReady(sc, xPos, Items(sc, b.gid)[k])
  {
    var steps := sc.steps[b.gid];
    var ill := sc.illegal[b.gid];
    var items := Items(sc, b.gid);
    forall k | 0 <= k < |items|
      ensures ItemReady(sc, xPos, items[k])
    {
      if k >= |steps| {
        var lin := sc.lins[ill[k - |steps|]];
        assert LinReady(sc, xPos, ill[k - |steps|]);
        assert lin[..|lin|] == lin;
      }
    }
  }

  /** Once the steps of box `g` are computed, `g` is reached and the
      linearizations that may be drawn ending in it are complete. */
  lemma ItemsReached(sc: Scene, lp: seq<seq<real>>, g: nat)
    requires Indexed(sc) && g < |sc.steps| && |lp| == |sc.lins|
    requires forall k :: 0 <= k < |Items(sc, g)| ==>
      Items(sc, g)[k].position < |lp[Items(sc, g)[k].index]|
    ensures Reached(sc, lp, g)
    ensures forall k :: 0 <= k < |sc.illegal[g]| ==>
      NonEmptyLin(sc, sc.illegal[g][k]) && |sc.lins[sc.illegal[g][k]]| - 1 < |lp[sc.illegal[g][k]]|
  {
    var steps := sc.steps[g];
    var ill := sc.illegal[g];
    var items := Items(sc, g);
    forall k | 0 <= k < |ill|
      ensures |sc.lins[ill[k]]| - 1 < |lp[ill[k]]|
    {
      assert items[|steps| + k] == LinPos(ill[k], |sc.lins[ill[k]]| - 1);
    }
    forall k | 0 <= k < |steps|
      ensures steps[k].index < |lp| && steps[k].position < |lp[steps[k].index]|
    {
      assert items[k] == steps[k];
    }
  }

  /** Lines 305-353, the body of the inner `while`: pushes `pos` right as far
      as box `b` needs, computing the points of its linearizations on the
      way. */
  method PlaceEvent(sc: Scene, xPos: map<real, real>, lp: seq<seq<real>>, b: Box, pos: real)
    returns (pos': real, lp': seq<seq<real>>)
    requires Indexed(sc) && BoxReady(sc, xPos, b) && PointsSoFar(sc, xPos, lp)
    ensures pos' == EventBound(sc, xPos, b, pos)
    ensures PointsSoFar(sc, xPos, lp') && Grown(lp, lp') && Reached(sc, lp', b.gid)
  {
    var textEnd := Max(pos, xPos[b.start] + b.width);
    ItemsReady(sc, xPos, b);
    var stepsEnd;
    stepsEnd, lp' := PushSteps(sc, xPos, lp, Items(sc, b.gid), textEnd);
    ItemsReached(sc, lp', b.gid);
    pos' := PushIllegal(sc, xPos, lp', sc.illegal[b.gid], stepsEnd);
    assert textEnd == Max(pos, At(xPos, b.start) + b.width);
  }

  /** Boxes that do not end at `t` do not move the bound for `t`. */
  lemma {:induction false} TimestampSkip(sc: Scene, xPos: map<real, real>, bs: seq<Box>, t: real, acc: real, k: nat)
    requires Indexed(sc) && forall j :: 0 <= j < |bs| ==> bs[j].gid < |sc.steps|
    requires k <= |bs| && forall j :: 0 <= j < k ==> bs[j].end != t
    ensures TimestampBound(sc, xPos, bs, t, acc) == TimestampBound(sc, xPos, bs[k..], t, acc)
    decreases k
  {
    if k > 0 {
      assert bs[1..][k - 1..] == bs[k..];
      TimestampSkip(sc, xPos, bs[1..], t, acc, k - 1);
    }
  }

  /** Boxes none of which ends at `t` leave the bound for `t` alone. */
  lemma TimestampRest(sc: Scene, xPos: map<real, real>, bs: seq<Box>, t: real, acc: real)
    requires Indexed(sc) && forall j :: 0 <= j < |bs| ==> bs[j].gid < |sc.steps|
    requires forall j :: 0 <= j < |bs| ==> bs[j].end > t
    ensures TimestampBound(sc, xPos, bs, t, acc) == acc
  {
    TimestampSkip(sc, xPos, bs, t, acc, |bs|);
  }

  /** Computing more points keeps an event reached. */
  lemma ReachedGrown(sc: Scene, lp1: seq<seq<real>>, lp2: seq<seq<real>>, g: nat)
    requires Reached(sc, lp1, g) && Grown(lp1, lp2)
    ensures Reached(sc, lp2, g)
  {
  }

  /** Sorted distinct timestamps, and boxes sorted by an end that is one of
      them. */
  predicate EndsSorted(sc: Scene)
  {
    && Increasing(sc.ts)
    && (forall j :: 0 <= j < |sc.byEnd| ==> sc.byEnd[j].end in sc.ts)
    && (forall i, j :: 0 <= i < j < |sc.byEnd| ==> sc.byEnd[i].end <= sc.byEnd[j].end)
  }

  /** A timestamp after `ts[i - 1]` and not after `ts[i]` is `ts[i]`. */
  lemma OnTimestamp(ts: seq<real>, i: nat, t: real)
    requires Increasing(ts) && 0 < i < |ts| && t in ts
    ensures ts[i - 1] < t <= ts[i] ==> t == ts[i]
  {
  }

  /** The scan has consumed the first `e` boxes of `byEnd`, all ending by
      `t`, and computed the points they need. */
  predicate Consumed(sc: Scene, xPos: map<real, real>, lp: seq<seq<real>>, t: real, e: nat)
  {
    && e <= |sc.byEnd|
    && (forall j :: 0 <= j < e ==> sc.byEnd[j].end <= t)
    && (forall j :: 0 <= j < e ==> Reached(sc, lp, sc.byEnd[j].gid))
    && PointsSoFar(sc, xPos, lp)
  }

  /** The boxes from `e` on all end after `t`. */
  predicate Pending(sc: Scene, t: real, e: nat)
  {
    forall j :: e <= j < |sc.byEnd| ==> sc.byEnd[j].end > t
  }

  /** Lines 304-355, one round of the inner loop: places box `e` of
      `byEnd`, which ends at `ts[i]`. */
  method ConsumeBox(sc: Scene, xPos: map<real, real>, lp: seq<seq<real>>, i: nat, e: nat, pos: real)
    returns (pos': real, lp': seq<seq<real>>)
    requires Indexed(sc) && Increasing(sc.ts) && 0 < i < |sc.ts| && e < |sc.byEnd|
    requires sc.byEnd[e].end in sc.ts && sc.ts[i - 1] < sc.byEnd[e].end <= sc.ts[i]
    requires ReadyAt(sc, xPos, sc.byEnd, sc.ts[i]) && Consumed(sc, xPos, lp, sc.ts[i], e)
    ensures TimestampBound(sc, xPos, sc.byEnd[e + 1..], sc.ts[i], pos')
      == TimestampBound(sc, xPos, sc.byEnd[e..], sc.ts[i], pos)
    ensures Consumed(sc, xPos, lp', sc.ts[i], e + 1)
  {
    OnTimestamp(sc.ts, i, sc.byEnd[e].end);
    assert sc.byEnd[e..][1..] == sc.byEnd[e + 1..];
    pos', lp' := PlaceEvent(sc, xPos, lp, sc.byEnd[e], pos);
    forall j | 0 <= j < e
      ensures Reached(sc, lp', sc.byEnd[j].gid)
    {
      ReachedGrown(sc, lp, lp', sc.byEnd[j].gid);
    }
  }

  /** Lines 306-356, the inner loop: consumes the boxes of `byEnd` from
      `e0` on that end by `ts[i]`, and leaves the bound for `ts[i]` in
      `pos`. */
  method ConsumeBoxes(sc: Scene, xPos: map<real, real>, lp: seq<seq<real>>, i: nat, e0: nat, pos0: real)
    returns (pos: real, e: nat, lp': seq<seq<real>>)
    requires Indexed(sc) && EndsSorted(sc) && 1 <= i < |sc.ts|
    requires ReadyAt(sc, xPos, sc.byEnd, sc.ts[i])
    requires Consumed(sc, xPos, lp, sc.ts[i], e0) && Pending(sc, sc.ts[i - 1], e0)
    ensures e0 <= e && Consumed(sc, xPos, lp', sc.ts[i], e) && Pending(sc, sc.ts[i], e)
    ensures TimestampBound(sc, xPos, sc.byEnd[e..], sc.ts[i], pos)
      == TimestampBound(sc, xPos, sc.byEnd[e0..], sc.ts[i], pos0)
  {
    var t := sc.ts[i];
    pos, e, lp' := pos0, e0, lp;
    while e < |sc.byEnd| && sc.byEnd[e].end <= t
      invariant e0 <= e && Consumed(sc, xPos, lp', t, e)
      invariant TimestampBound(sc, xPos, sc.byEnd[e..], t, pos)
                == TimestampBound(sc, xPos, sc.byEnd[e0..], t, pos0)
    {
      pos, lp' := ConsumeBox(sc, xPos, lp', i, e, pos);
      e := e + 1;
    }
    RestPending(sc, t, e);
  }

  /** Lines 300-357, one round of the outer loop: starting `BoxGap` after
      the previous timestamp, consumes the boxes of `byEnd` that end by
      `ts[i]` and returns the position of `ts[i]`. */
  method PlaceTimestamp(sc: Scene, xPos: map<real, real>, lp: seq<seq<real>>, i: nat, eventIndex: nat)
    returns (pos: real, eventIndex': nat, lp': seq<seq<real>>)
    requires Indexed(sc) && EndsSorted(sc) && 1 <= i < |sc.ts|
    requires sc.ts[i - 1] in xPos && ReadyAt(sc, xPos, sc.byEnd, sc.ts[i])
    requires Consumed(sc, xPos, lp, sc.ts[i - 1], eventIndex) && Pending(sc, sc.ts[i - 1], eventIndex)
    ensures pos == TimestampBound(sc, xPos, sc.byEnd, sc.ts[i], At(xPos, sc.ts[i - 1]) + BoxGap)
    ensures Consumed(sc, xPos, lp', sc.ts[i], eventIndex') && Pending(sc, sc.ts[i], eventIndex')
  {
    var t := sc.ts[i];
    var acc := xPos[sc.ts[i - 1]] + BoxGap;
    ConsumedSkip(sc, xPos, lp, sc.ts[i - 1], t, eventIndex, acc);
    pos, eventIndex', lp' := ConsumeBoxes(sc, xPos, lp, i, eventIndex, acc);
    PendingRest(sc, xPos, t, eventIndex', pos);
  }

  /** Boxes consumed by an earlier timestamp `t0` neither move the bound for
      `t` nor stop counting as consumed. */
  lemma ConsumedSkip(sc: Scene, xPos: map<real, real>, lp: seq<seq<real>>, t0: real, t: real, e: nat, acc: real)
    requires Indexed(sc) && Consumed(sc, xPos, lp, t0, e) && t0 < t
    ensures TimestampBound(sc, xPos, sc.byEnd, t, acc) == TimestampBound(sc, xPos, sc.byEnd[e..], t, acc)
    ensures Consumed(sc, xPos, lp, t, e)
  {
    TimestampSkip(sc, xPos, sc.byEnd, t, acc, e);
    ConsumedLater(sc, xPos, lp, t0, t, e);
  }

  /** Boxes still pending after `t` leave the bound for `t` alone. */
  lemma PendingRest(sc: Scene, xPos: map<real, real>, t: real, e: nat, acc: real)
    requires Indexed(sc) && e <= |sc.byEnd| && Pending(sc, t, e)
    ensures TimestampBound(sc, xPos, sc.byEnd[e..], t, acc) == acc
  {
    TimestampRest(sc, xPos, sc.byEnd[e..], t, acc);
  }

  /** What was consumed by `t1` was consumed by any later `t2`. */
  lemma ConsumedLater(sc: Scene, xPos: map<real, real>, lp: seq<seq<real>>, t1: real, t2: real, e: nat)
    requires Consumed(sc, xPos, lp, t1, e) && t1 <= t2
    ensures Consumed(sc, xPos, lp, t2, e)
  {
  }

  /** When the scan stops at a box ending after `t`, every later box ends
      after `t` too. */
  lemma RestPending(sc: Scene, t: real, e: nat)
    requires EndsSorted(sc) && e <= |sc.byEnd|
    requires e < |sc.byEnd| ==> sc.byEnd[e].end > t
    ensures Pending(sc, t, e)
  {
    forall j | e <= j < |sc.byEnd|
      ensures sc.byEnd[j].end > t
    {
      assert sc.byEnd[e].end <= sc.byEnd[j].end;
    }
  }

  /** Adding positions for new timestamps keeps the computed points. */
  lemma PointsSoFarSub(sc: Scene, m1: map<real, real>, m2: map<real, real>, lp: seq<seq<real>>)
    requires PointsSoFar(sc, m1, lp)
    requires forall t :: t in m1 ==> t in m2 && m2[t] == m1[t]
    ensures PointsSoFar(sc, m2, lp)
  {
    forall L | 0 <= L < |lp|
      ensures RowSoFar(sc, m2, L, lp[L])
    {
      PointsSub(m1, m2, sc.startOf, sc.lins[L][..|lp[L]|]);
    }
  }

  /** Adding positions for new timestamps keeps what was consumed. */
  lemma ConsumedSub(sc: Scene, m1: map<real, real>, m2: map<real, real>, lp: seq<seq<real>>, t: real, e: nat)
    requires Consumed(sc, m1, lp, t, e)
    requires forall t :: t in m1 ==> t in m2 && m2[t] == m1[t]
    ensures Consumed(sc, m2, lp, t, e)
  {
    PointsSoFarSub(sc, m1, m2, lp);
  }

  /** Once every box is consumed, every linearization's points are all
      computed. */
  lemma AllReached(sc: Scene, xPos: map<real, real>, lp: seq<seq<real>>)
    requires WellFormed(sc) && PointsSoFar(sc, xPos, lp)
    requires forall j :: 0 <= j < |sc.byEnd| ==> Reached(sc, lp, sc.byEnd[j].gid)
    ensures forall L :: 0 <= L < |sc.lins| ==>
      Placed(xPos, sc.startOf, sc.lins[L]) && lp[L] == Points(xPos, sc.startOf, sc.lins[L])
  {
    forall L | 0 <= L < |sc.lins|
      ensures Placed(xPos, sc.startOf, sc.lins[L]) && lp[L] == Points(xPos, sc.startOf, sc.lins[L])
    {
      var lin := sc.lins[L];
      assert RowSoFar(sc, xPos, L, lp[L]);
      if |lin| > 0 {
        var g := lin[|lin| - 1];
        assert HasBox(sc, g);
        var j :| 0 <= j < |sc.byEnd| && sc.byEnd[j].gid == g;
        assert Reached(sc, lp, g);
        assert Listed(sc, L, |lin| - 1);
      }
      assert lin[..|lp[L]|] == lin;
    }
  }

  /** The state of the scan before timestamp `ts[i]` is placed. */
  ghost predicate ScanState(sc: Scene, xPos: map<real, real>, lp: seq<seq<real>>, i: nat, eventIndex: nat)
    requires WellFormed(sc)
  {
    && 1 <= i <= |sc.ts|
    && xPos == LayoutSpec(sc, i)
    && Consumed(sc, xPos, lp, sc.ts[i - 1], eventIndex)
    && Pending(sc, sc.ts[i - 1], eventIndex)
  }

  lemma WellFormedEndsSorted(sc: Scene)
    requires WellFormed(sc)
    ensures EndsSorted(sc)
  {
    forall j | 0 <= j < |sc.byEnd|
      ensures sc.byEnd[j].end in sc.ts
    {
      assert BoxOf(sc, sc.byEnd[j]);
    }
  }

  /** The layout of the first `i` timestamps places exactly those. */
  lemma LayoutCovers(sc: Scene, i: nat)
    requires Indexed(sc) && Increasing(sc.ts) && 1 <= i < |sc.ts|
    ensures forall t :: t in sc.ts[..i] ==> t in LayoutSpec(sc, i)
    ensures sc.ts[i - 1] in LayoutSpec(sc, i) && sc.ts[i] !in LayoutSpec(sc, i)
  {
    LayoutKeys(sc, i);
    NotAmongFirst(sc.ts, i, i);
    assert sc.ts[..i][i - 1] == sc.ts[i - 1];
  }

  /** Placing `ts[i]` where the scan puts it extends the layout by one
      timestamp. */
  lemma LayoutNext(sc: Scene, i: nat, xPos: map<real, real>, pos: real)
    requires Indexed(sc) && 1 <= i < |sc.ts| && xPos == LayoutSpec(sc, i)
    requires pos == TimestampBound(sc, xPos, sc.byEnd, sc.ts[i], At(xPos, sc.ts[i - 1]) + BoxGap)
    ensures xPos[sc.ts[i] := pos] == LayoutSpec(sc, i + 1)
  {
  }

  /** One round of the outer loop of lines 300-358. */
  method ScanStep(sc: Scene, xPos: map<real, real>, lp: seq<seq<real>>, i: nat, eventIndex: nat)
    returns (xPos': map<real, real>, lp': seq<seq<real>>, eventIndex': nat)
    requires WellFormed(sc) && i < |sc.ts| && ScanState(sc, xPos, lp, i, eventIndex)
    ensures ScanState(sc, xPos', lp', i + 1, eventIndex')
  {
    LayoutCovers(sc, i);
    ReadyBelow(sc, xPos, i);
    WellFormedEndsSorted(sc);
    var pos;
    pos, eventIndex', lp' := PlaceTimestamp(sc, xPos, lp, i, eventIndex);
    LayoutNext(sc, i, xPos, pos);
    xPos' := xPos[sc.ts[i] := pos];
    ConsumedSub(sc, xPos, xPos', lp', sc.ts[i], eventIndex');
  }

  /** Before the loop only `ts[0]` is placed, at 0, and no point is
      computed. */
  lemma ScanStart(sc: Scene, lp: seq<seq<real>>)
    requires WellFormed(sc)
    requires |lp| == |sc.lins| && forall L :: 0 <= L < |lp| ==> lp[L] == []
    ensures ScanState(sc, map[sc.ts[0] := 0.0], lp, 1, 0)
  {
    forall j | 0 <= j < |sc.byEnd|
      ensures sc.byEnd[j].end > sc.ts[0]
    {
      var b := sc.byEnd[j];
      assert BoxOf(sc, b);
      assert b.end > b.start;
    }
  }

  /** After the last timestamp every box has been consumed. */
  lemma ScanDone(sc: Scene, xPos: map<real, real>, lp: seq<seq<real>>, eventIndex: nat)
    requires WellFormed(sc) && ScanState(sc, xPos, lp, |sc.ts|, eventIndex)
    ensures eventIndex == |sc.byEnd|
    ensures |lp| == |sc.lins|
    ensures forall L :: 0 <= L < |sc.lins| ==>
      Placed(xPos, sc.startOf, sc.lins[L]) && lp[L] == Points(xPos, sc.startOf, sc.lins[L])
  {
    if eventIndex < |sc.byEnd| {
      var b := sc.byEnd[eventIndex];
      assert BoxOf(sc, b);
      LastStampLargest(sc.ts, b.end);
    }
    forall j | 0 <= j < |sc.byEnd|
      ensures Reached(sc, lp, sc.byEnd[j].gid)
    {
      assert BoxOf(sc, sc.byEnd[j]);
      var t := sc.byEnd[j].end;
      assert t in sc.ts;
    }
    AllReached(sc, xPos, lp);
  }

  /** No timestamp lies after the last one. */
  lemma LastStampLargest(ts: seq<real>, t: real)
    requires Increasing(ts) && t in ts
    ensures t <= ts[|ts| - 1]
  {
    var k :| 0 <= k < |ts| && ts[k] == t;
    if k < |ts| - 1 {
      assert ts[k] < ts[|ts| - 1];
    }
  }

  /** Lines 296-358: the left-to-right scan. It places every timestamp where
      `XPositions` says, computes every point of every linearization, and
      its `byEnd` cursor ends past the last box, so every box is consumed
      exactly once. */
  method Scan(sc: Scene) returns (xPos: map<real, real>, lp: seq<seq<real>>, eventIndex: nat)
    requires WellFormed(sc)
    ensures eventIndex == |sc.byEnd|
    ensures xPos == XPositions(sc)
    ensures |lp| == |sc.lins|
    ensures forall L :: 0 <= L < |sc.lins| ==>
      Placed(xPos, sc.startOf, sc.lins[L]) && lp[L] == Points(xPos, sc.startOf, sc.lins[L])
  {
    lp := NewArray(|sc.lins|, _ => []);
    eventIndex := 0;
    xPos := map[sc.ts[0] := 0.0];
    ScanStart(sc, lp);
    for i := 1 to |sc.ts|
      invariant ScanState(sc, xPos, lp, i, eventIndex)
    {
      xPos, lp, eventIndex := ScanStep(sc, xPos, lp, i, eventIndex);
    }
    ScanDone(sc, xPos, lp, eventIndex);
  }
}
