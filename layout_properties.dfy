/** What the layout of visualization/index.js promises (the comment at lines
    202-233): timestamps keep their order and a minimum gap, every box is wide
    enough for its text and for the linearization points inside it, and the
    greedy scan is optimal: no layout meeting those constraints puts any
    timestamp further left. */
module LayoutProperties {
  import opened Timeline
  import opened Ordering
  import opened Layout

  /** `v` is far enough right for the end of box `b`: room for its text,
      for every linearization point inside it, and for the arrow after the
      last point of every linearization that may be drawn ending in it. */
  predicate Dominates(sc: Scene, xPos: map<real, real>, b: Box, v: real)
    requires Indexed(sc) && b.gid < |sc.steps|
  {
    && v >= At(xPos, b.start) + b.width
    && (forall j :: 0 <= j < |sc.steps[b.gid]| ==> v >= PointAt(sc, xPos, sc.steps[b.gid][j]))
    && (forall j :: 0 <= j < |sc.illegal[b.gid]| ==> v >= LastPoint(sc, xPos, sc.illegal[b.gid][j]) + LpGap)
  }

  lemma {:induction false} StepsBoundGe(sc: Scene, xPos: map<real, real>, items: seq<LinPos>, acc: real)
    requires Indexed(sc) && forall j :: 0 <= j < |items| ==> ValidPos(sc, items[j])
    ensures StepsBound(sc, xPos, items, acc) >= acc
    ensures forall j :: 0 <= j < |items| ==> StepsBound(sc, xPos, items, acc) >= PointAt(sc, xPos, items[j])
    decreases |items|
  {
    if items != [] {
      StepsBoundGe(sc, xPos, items[1..], Max(acc, PointAt(sc, xPos, items[0])));
      forall j | 1 <= j < |items|
        ensures items[j] == items[1..][j - 1]
      {
      }
    }
  }

  lemma {:induction false} StepsBoundLe(sc: Scene, xPos: map<real, real>, items: seq<LinPos>, acc: real, y: real)
    requires Indexed(sc) && forall j :: 0 <= j < |items| ==> ValidPos(sc, items[j])
    requires acc <= y && forall j :: 0 <= j < |items| ==> PointAt(sc, xPos, items[j]) <= y
    ensures StepsBound(sc, xPos, items, acc) <= y
    decreases |items|
  {
    if items != [] {
      assert forall j :: 0 <= j < |items[1..]| ==> items[1..][j] == items[j + 1];
      StepsBoundLe(sc, xPos, items[1..], Max(acc, PointAt(sc, xPos, items[0])), y);
    }
  }

  lemma {:induction false} IllegalBoundGe(sc: Scene, xPos: map<real, real>, ls: seq<nat>, acc: real)
    requires Indexed(sc) && forall j :: 0 <= j < |ls| ==> NonEmptyLin(sc, ls[j])
    ensures IllegalBound(sc, xPos, ls, acc) >= acc
    ensures forall j :: 0 <= j < |ls| ==> IllegalBound(sc, xPos, ls, acc) >= LastPoint(sc, xPos, ls[j]) + LpGap
    decreases |ls|
  {
    if ls != [] {
      IllegalBoundGe(sc, xPos, ls[1..], Max(acc, LastPoint(sc, xPos, ls[0]) + LpGap));
      forall j | 1 <= j < |ls|
        ensures ls[j] == ls[1..][j - 1]
      {
      }
    }
  }

  lemma {:induction false} IllegalBoundLe(sc: Scene, xPos: map<real, real>, ls: seq<nat>, acc: real, y: real)
    requires Indexed(sc) && forall j :: 0 <= j < |ls| ==> NonEmptyLin(sc, ls[j])
    requires acc <= y && forall j :: 0 <= j < |ls| ==> LastPoint(sc, xPos, ls[j]) + LpGap <= y
    ensures IllegalBound(sc, xPos, ls, acc) <= y
    decreases |ls|
  {
    if ls != [] {
      assert forall j :: 0 <= j < |ls[1..]| ==> ls[1..][j] == ls[j + 1];
      IllegalBoundLe(sc, xPos, ls[1..], Max(acc, LastPoint(sc, xPos, ls[0]) + LpGap), y);
    }
  }

  /** The point at the last position of a linearization is its last point. */
  lemma LastPositionPoint(sc: Scene, xPos: map<real, real>, L: nat)
    requires Indexed(sc) && NonEmptyLin(sc, L)
    ensures PointAt(sc, xPos, LinPos(L, |sc.lins[L]| - 1)) == LastPoint(sc, xPos, L)
  {
    assert sc.lins[L][..|sc.lins[L]|] == sc.lins[L];
  }

  /** The bound for a box dominates the box and `acc`. */
  lemma EventBoundGe(sc: Scene, xPos: map<real, real>, b: Box, acc: real)
    requires Indexed(sc) && b.gid < |sc.steps|
    ensures EventBound(sc, xPos, b, acc) >= acc
    ensures Dominates(sc, xPos, b, EventBound(sc, xPos, b, acc))
  {
    var items := Items(sc, b.gid);
    var start := Max(acc, At(xPos, b.start) + b.width);
    StepsBoundGe(sc, xPos, items, start);
    IllegalBoundGe(sc, xPos, sc.illegal[b.gid], StepsBound(sc, xPos, items, start));
    forall j | 0 <= j < |sc.steps[b.gid]|
      ensures EventBound(sc, xPos, b, acc) >= PointAt(sc, xPos, sc.steps[b.gid][j])
    {
      assert items[j] == sc.steps[b.gid][j];
    }
  }

  /** The bound for a box is the least position dominating it and `acc`. */
  lemma EventBoundLe(sc: Scene, xPos: map<real, real>, b: Box, acc: real, y: real)
    requires Indexed(sc) && b.gid < |sc.steps|
    requires acc <= y && Dominates(sc, xPos, b, y)
    ensures EventBound(sc, xPos, b, acc) <= y
  {
    var ill := sc.illegal[b.gid];
    var items := Items(sc, b.gid);
    var start := Max(acc, At(xPos, b.start) + b.width);
    forall j | 0 <= j < |items|
      ensures PointAt(sc, xPos, items[j]) <= y
    {
      if j >= |sc.steps[b.gid]| {
        LastPositionPoint(sc, xPos, ill[j - |sc.steps[b.gid]|]);
      }
    }
    StepsBoundLe(sc, xPos, items, start, y);
    IllegalBoundLe(sc, xPos, ill, StepsBound(sc, xPos, items, start), y);
  }

  lemma DominatesMono(sc: Scene, xPos: map<real, real>, b: Box, v: real, w: real)
    requires Indexed(sc) && b.gid < |sc.steps|
    requires Dominates(sc, xPos, b, v) && v <= w
    ensures Dominates(sc, xPos, b, w)
  {
  }

  /** The bound for a timestamp dominates `acc` and every box ending there. */
  lemma {:induction false} TimestampBoundGe(sc: Scene, xPos: map<real, real>, bs: seq<Box>, t: real, acc: real)
    requires Indexed(sc) && forall j :: 0 <= j < |bs| ==> bs[j].gid < |sc.steps|
    ensures TimestampBound(sc, xPos, bs, t, acc) >= acc
    ensures forall j :: 0 <= j < |bs| && bs[j].end == t ==>
      Dominates(sc, xPos, bs[j], TimestampBound(sc, xPos, bs, t, acc))
    decreases |bs|
  {
    if bs != [] {
      var acc' := if bs[0].end == t then EventBound(sc, xPos, bs[0], acc) else acc;
      if bs[0].end == t {
        EventBoundGe(sc, xPos, bs[0], acc);
      }
      TimestampBoundGe(sc, xPos, bs[1..], t, acc');
      var r := TimestampBound(sc, xPos, bs, t, acc);
      forall j | 0 <= j < |bs| && bs[j].end == t
        ensures Dominates(sc, xPos, bs[j], r)
      {
        if j == 0 {
          DominatesMono(sc, xPos, bs[0], acc', r);
        } else {
          assert bs[j] == bs[1..][j - 1];
        }
      }
    }
  }

  /** The bound for a timestamp is the least position dominating `acc` and
      every box ending there. */
  lemma {:induction false} TimestampBoundLe(sc: Scene, xPos: map<real, real>, bs: seq<Box>, t: real, acc: real, y: real)
    requires Indexed(sc) && forall j :: 0 <= j < |bs| ==> bs[j].gid < |sc.steps|
    requires acc <= y && forall j :: 0 <= j < |bs| && bs[j].end == t ==> Dominates(sc, xPos, bs[j], y)
    ensures TimestampBound(sc, xPos, bs, t, acc) <= y
    decreases |bs|
  {
    if bs != [] {
      if bs[0].end == t {
        EventBoundLe(sc, xPos, bs[0], acc, y);
      }
      assert forall j :: 0 <= j < |bs[1..]| ==> bs[1..][j] == bs[j + 1];
      TimestampBoundLe(sc, xPos, bs[1..], t, if bs[0].end == t then EventBound(sc, xPos, bs[0], acc) else acc, y);
    }
  }

  /** Moving the starts right moves every point right. */
  lemma {:induction false} PointsMono(m1: map<real, real>, m2: map<real, real>, startOf: seq<real>, lin: seq<nat>)
    requires forall k :: 0 <= k < |lin| ==> lin[k] < |startOf|
    requires forall k :: 0 <= k < |lin| ==> At(m1, startOf[lin[k]]) <= At(m2, startOf[lin[k]])
    ensures forall k :: 0 <= k < |lin| ==> Points(m1, startOf, lin)[k] <= Points(m2, startOf, lin)[k]
    decreases |lin|
  {
    if lin != [] {
      PointsMono(m1, m2, startOf, lin[..|lin| - 1]);
    }
  }

  /** `Points` is the leftmost placement of linearization points: any
      placement with each point at or right of its event's start and `LpGap`
      after the previous one lies at or right of it. */
  lemma {:induction false} PointsLeast(xPos: map<real, real>, startOf: seq<real>, lin: seq<nat>, z: seq<real>)
    requires forall k :: 0 <= k < |lin| ==> lin[k] < |startOf|
    requires |z| == |lin|
    requires forall k :: 0 <= k < |lin| ==> z[k] >= At(xPos, startOf[lin[k]])
    requires forall k :: 0 < k < |lin| ==> z[k] >= z[k - 1] + LpGap
    ensures forall k :: 0 <= k < |lin| ==> Points(xPos, startOf, lin)[k] <= z[k]
    decreases |lin|
  {
    if lin != [] {
      var n := |lin| - 1;
      PointsLeast(xPos, startOf, lin[..n], z[..n]);
    }
  }

  /** `m2` agrees with `m1` wherever `m1` is defined. */
  predicate Extends(m1: map<real, real>, m2: map<real, real>)
  {
    forall t :: t in m1 ==> t in m2 && m2[t] == m1[t]
  }

  /** `m2` is at or right of `m1` wherever `m1` is defined. */
  predicate Below(m1: map<real, real>, m2: map<real, real>)
  {
    forall t :: t in m1 ==> At(m1, t) <= At(m2, t)
  }

  /** Whether a box is dominated depends only on the positions it reads. */
  lemma DominatesExtends(sc: Scene, m1: map<real, real>, m2: map<real, real>, b: Box, v: real)
    requires Indexed(sc) && BoxReady(sc, m1, b) && Extends(m1, m2)
    requires Dominates(sc, m1, b, v)
    ensures Dominates(sc, m2, b, v)
  {
    forall j | 0 <= j < |sc.steps[b.gid]|
      ensures PointAt(sc, m2, sc.steps[b.gid][j]) == PointAt(sc, m1, sc.steps[b.gid][j])
    {
      var li := sc.steps[b.gid][j];
      assert ItemReady(sc, m1, li);
      PointsSub(m1, m2, sc.startOf, sc.lins[li.index][..li.position + 1]);
    }
    forall j | 0 <= j < |sc.illegal[b.gid]|
      ensures LastPoint(sc, m2, sc.illegal[b.gid][j]) == LastPoint(sc, m1, sc.illegal[b.gid][j])
    {
      var L := sc.illegal[b.gid][j];
      assert LinReady(sc, m1, L);
      PointsSub(m1, m2, sc.startOf, sc.lins[L]);
    }
  }

  /** A box dominated under positions further right is dominated under
      positions further left. */
  lemma DominatesBelow(sc: Scene, m1: map<real, real>, m2: map<real, real>, b: Box, v: real)
    requires Indexed(sc) && BoxReady(sc, m1, b) && Below(m1, m2)
    requires Dominates(sc, m2, b, v)
    ensures Dominates(sc, m1, b, v)
  {
    forall j | 0 <= j < |sc.steps[b.gid]|
      ensures PointAt(sc, m1, sc.steps[b.gid][j]) <= PointAt(sc, m2, sc.steps[b.gid][j])
    {
      var li := sc.steps[b.gid][j];
      assert ItemReady(sc, m1, li);
      PointsMono(m1, m2, sc.startOf, sc.lins[li.index][..li.position + 1]);
    }
    forall j | 0 <= j < |sc.illegal[b.gid]|
      ensures LastPoint(sc, m1, sc.illegal[b.gid][j]) <= LastPoint(sc, m2, sc.illegal[b.gid][j])
    {
      var L := sc.illegal[b.gid][j];
      assert LinReady(sc, m1, L);
      PointsMono(m1, m2, sc.startOf, sc.lins[L]);
    }
  }

  /** The layout of the first `k` timestamps is kept by the later rounds. */
  lemma {:induction false} LayoutGrows(sc: Scene, k: nat, n: nat)
    requires Indexed(sc) && Increasing(sc.ts) && 1 <= k <= n <= |sc.ts|
    ensures Extends(LayoutSpec(sc, k), LayoutSpec(sc, n))
    decreases n
  {
    if k < n {
      LayoutGrows(sc, k, n - 1);
      LayoutKeys(sc, n - 1);
      NotAmongFirst(sc.ts, n - 1, n - 1);
    }
  }

  /** Every timestamp has a position, and nothing else does. */
  lemma LayoutDomain(sc: Scene)
    requires Indexed(sc) && |sc.ts| > 0
    ensures forall t :: t in XPositions(sc) <==> t in sc.ts
  {
    LayoutKeys(sc, |sc.ts|);
    assert sc.ts[..|sc.ts|] == sc.ts;
  }

  /** Round `i` of the scan, as seen in the final layout: the position of
      `ts[i]` is the bound computed from the layout of the earlier
      timestamps, which the final layout keeps. */
  lemma LayoutRound(sc: Scene, i: nat)
    requires WellFormed(sc) && 1 <= i < |sc.ts|
    ensures BoxGapped(sc, XPositions(sc), i)
    ensures Extends(LayoutSpec(sc, i), XPositions(sc))
    ensures ReadyAt(sc, LayoutSpec(sc, i), sc.byEnd, sc.ts[i])
    ensures At(XPositions(sc), sc.ts[i])
      == TimestampBound(sc, LayoutSpec(sc, i), sc.byEnd, sc.ts[i], At(XPositions(sc), sc.ts[i - 1]) + BoxGap)
  {
    var m := LayoutSpec(sc, i);
    LayoutKeys(sc, i);
    assert sc.ts[..i][i - 1] == sc.ts[i - 1];
    ReadyBelow(sc, m, i);
    LayoutGrows(sc, i, |sc.ts|);
    LayoutGrows(sc, i + 1, |sc.ts|);
    LayoutKeys(sc, i + 1);
    assert sc.ts[..i + 1][i] == sc.ts[i];
    TimestampBoundGe(sc, m, sc.byEnd, sc.ts[i], At(m, sc.ts[i - 1]) + BoxGap);
  }

  /** `ts[i]` is at least `BoxGap` right of `ts[i - 1]`. */
  predicate BoxGapped(sc: Scene, xPos: map<real, real>, i: nat)
    requires 1 <= i < |sc.ts|
  {
    At(xPos, sc.ts[i]) >= At(xPos, sc.ts[i - 1]) + BoxGap
  }

  /** The first timestamp is at 0, and each later one at least `BoxGap`
      right of the one before (the distinguishability constraint). */
  lemma LayoutGap(sc: Scene)
    requires WellFormed(sc)
    ensures At(XPositions(sc), sc.ts[0]) == 0.0
    ensures forall i :: 1 <= i < |sc.ts| ==> BoxGapped(sc, XPositions(sc), i)
  {
    LayoutGrows(sc, 1, |sc.ts|);
    forall i | 1 <= i < |sc.ts|
      ensures BoxGapped(sc, XPositions(sc), i)
    {
      LayoutRound(sc, i);
    }
  }

  /** Positions strictly increase with time. */
  lemma {:induction false} LayoutMonotone(sc: Scene, i: nat, j: nat)
    requires WellFormed(sc) && i < j < |sc.ts|
    ensures At(XPositions(sc), sc.ts[i]) + BoxGap <= At(XPositions(sc), sc.ts[j])
    decreases j - i
  {
    LayoutRound(sc, j);
    if i + 1 < j {
      LayoutMonotone(sc, i, j - 1);
    }
  }

  /** In the final layout, every box is dominated by the position of its
      end. */
  lemma BoxDominated(sc: Scene, jb: nat)
    requires WellFormed(sc) && jb < |sc.byEnd|
    ensures sc.byEnd[jb].gid < |sc.steps|
    ensures Dominates(sc, XPositions(sc), sc.byEnd[jb], At(XPositions(sc), sc.byEnd[jb].end))
  {
    var b := sc.byEnd[jb];
    assert BoxOf(sc, b);
    var i :| 0 <= i < |sc.ts| && sc.ts[i] == b.end;
    var k :| 0 <= k < |sc.ts| && sc.ts[k] == b.start;
    assert 1 <= i;
    var m := LayoutSpec(sc, i);
    LayoutRound(sc, i);
    TimestampBoundGe(sc, m, sc.byEnd, sc.ts[i], At(XPositions(sc), sc.ts[i - 1]) + BoxGap);
    assert Dominates(sc, m, b, At(XPositions(sc), b.end));
    assert BoxReady(sc, m, b);
    DominatesExtends(sc, m, XPositions(sc), b, At(XPositions(sc), b.end));
  }

  /** Every box is wide enough for its text (the visible-text constraint). */
  lemma LayoutTextFits(sc: Scene)
    requires WellFormed(sc)
    ensures forall j :: 0 <= j < |sc.byEnd| ==>
      At(XPositions(sc), sc.byEnd[j].end) >= At(XPositions(sc), sc.byEnd[j].start) + sc.byEnd[j].width
  {
    forall j | 0 <= j < |sc.byEnd|
      ensures At(XPositions(sc), sc.byEnd[j].end) >= At(XPositions(sc), sc.byEnd[j].start) + sc.byEnd[j].width
    {
      BoxDominated(sc, j);
    }
  }

  /** Every linearization point lies inside the box of its event: at or right
      of its start and at or left of its end (the constraint on space for
      linearization points). */
  lemma LayoutPointsFit(sc: Scene)
    requires WellFormed(sc)
    ensures forall L, p :: 0 <= L < |sc.lins| && 0 <= p < |sc.lins[L]| ==> PointFits(sc, L, p)
  {
    forall L, p | 0 <= L < |sc.lins| && 0 <= p < |sc.lins[L]|
      ensures PointFits(sc, L, p)
    {
      PointInBox(sc, L, p);
    }
  }

  /** Point `p` of linearization `L` lies between the positions of its
      event's start and end. */
  predicate PointFits(sc: Scene, L: nat, p: nat)
    requires Indexed(sc) && |sc.ts| > 0 && L < |sc.lins| && p < |sc.lins[L]|
  {
    var X := XPositions(sc);
    At(X, sc.startOf[sc.lins[L][p]]) <= Points(X, sc.startOf, sc.lins[L])[p] <= At(X, sc.endOf[sc.lins[L][p]])
  }

  lemma PointInBox(sc: Scene, L: nat, p: nat)
    requires WellFormed(sc) && L < |sc.lins| && p < |sc.lins[L]|
    ensures PointFits(sc, L, p)
  {
    PointFacts(XPositions(sc), sc.startOf, sc.lins[L], p);
    PointBeforeEnd(sc, L, p);
  }

  /** Point `p` of linearization `L` is at or left of its event's end. */
  lemma PointBeforeEnd(sc: Scene, L: nat, p: nat)
    requires WellFormed(sc) && L < |sc.lins| && p < |sc.lins[L]|
    ensures Points(XPositions(sc), sc.startOf, sc.lins[L])[p] <= At(XPositions(sc), sc.endOf[sc.lins[L][p]])
  {
    var X := XPositions(sc);
    var g := sc.lins[L][p];
    assert Listed(sc, L, p);
    var s :| 0 <= s < |sc.steps[g]| && sc.steps[g][s] == LinPos(L, p);
    assert HasBox(sc, g);
    var jb :| 0 <= jb < |sc.byEnd| && sc.byEnd[jb].gid == g;
    var b := sc.byEnd[jb];
    assert BoxOf(sc, b);
    BoxDominated(sc, jb);
    assert At(X, b.end) >= PointAt(sc, X, sc.steps[g][s]);
    PointsPrefix(X, sc.startOf, sc.lins[L], p + 1);
  }

  /** A linearization that may be drawn as ending in event `g` has its last
      point at least `LpGap` before the end of `g`'s box, leaving room for the
      arrow to the illegal next step. */
  lemma LayoutIllegalFits(sc: Scene)
    requires WellFormed(sc)
    ensures forall g, j :: 0 <= g < |sc.illegal| && 0 <= j < |sc.illegal[g]| ==>
      LastPoint(sc, XPositions(sc), sc.illegal[g][j]) + LpGap <= At(XPositions(sc), sc.endOf[g])
  {
    forall g, j | 0 <= g < |sc.illegal| && 0 <= j < |sc.illegal[g]|
      ensures LastPoint(sc, XPositions(sc), sc.illegal[g][j]) + LpGap <= At(XPositions(sc), sc.endOf[g])
    {
      assert HasBox(sc, g);
      var jb :| 0 <= jb < |sc.byEnd| && sc.byEnd[jb].gid == g;
      assert BoxOf(sc, sc.byEnd[jb]);
      BoxDominated(sc, jb);
    }
  }

  /** A layout meeting every constraint: each timestamp placed, the first at
      or right of 0, each later one `BoxGap` right of the one before, and
      each box dominated by the position of its end. */
  predicate Feasible(sc: Scene, y: map<real, real>)
    requires Indexed(sc)
  {
    && (forall i :: 0 <= i < |sc.ts| ==> sc.ts[i] in y)
    && |sc.ts| > 0 && At(y, sc.ts[0]) >= 0.0
    && (forall i :: 1 <= i < |sc.ts| ==> BoxGapped(sc, y, i))
    && (forall j :: 0 <= j < |sc.byEnd| ==> Dominates(sc, y, sc.byEnd[j], At(y, sc.byEnd[j].end)))
  }

  /** The computed layout meets every constraint. */
  lemma LayoutFeasible(sc: Scene)
    requires WellFormed(sc)
    ensures Feasible(sc, XPositions(sc))
  {
    LayoutDomain(sc);
    LayoutGap(sc);
    forall j | 0 <= j < |sc.byEnd|
      ensures Dominates(sc, XPositions(sc), sc.byEnd[j], At(XPositions(sc), sc.byEnd[j].end))
    {
      BoxDominated(sc, j);
    }
  }

  /** The greedy scan is optimal: every feasible layout puts every timestamp
      at or right of where the scan does, so the scan also minimises the sum
      of the positions. `Feasible` fixes every layout's points to `Points`;
      `PointsLeast` is why that loses nothing: the greedy points are the
      leftmost any placement can have. */
  lemma LayoutMinimal(sc: Scene, y: map<real, real>)
    requires WellFormed(sc) && Feasible(sc, y)
    ensures forall i :: 0 <= i < |sc.ts| ==> At(XPositions(sc), sc.ts[i]) <= At(y, sc.ts[i])
  {
    forall i | 0 <= i < |sc.ts|
      ensures At(XPositions(sc), sc.ts[i]) <= At(y, sc.ts[i])
    {
      MinimalUpTo(sc, y, i + 1);
      LayoutGrows(sc, i + 1, |sc.ts|);
      LayoutKeys(sc, i + 1);
      assert sc.ts[..i + 1][i] == sc.ts[i];
    }
  }

  /** The layout of the first `n` timestamps is below any feasible layout. */
  lemma {:induction false} MinimalUpTo(sc: Scene, y: map<real, real>, n: nat)
    requires WellFormed(sc) && Feasible(sc, y) && 1 <= n <= |sc.ts|
    ensures Below(LayoutSpec(sc, n), y)
    decreases n
  {
    if n > 1 {
      MinimalUpTo(sc, y, n - 1);
      MinimalStep(sc, y, n - 1);
    }
  }

  /** If the layout of the first `i` timestamps is below a feasible layout,
      so is the layout of the first `i + 1`. */
  lemma MinimalStep(sc: Scene, y: map<real, real>, i: nat)
    requires WellFormed(sc) && Feasible(sc, y) && 1 <= i < |sc.ts|
    requires Below(LayoutSpec(sc, i), y)
    ensures Below(LayoutSpec(sc, i + 1), y)
  {
    var m := LayoutSpec(sc, i);
    LayoutKeys(sc, i);
    NotAmongFirst(sc.ts, i, i);
    assert sc.ts[..i][i - 1] == sc.ts[i - 1];
    ReadyBelow(sc, m, i);
    forall j | 0 <= j < |sc.byEnd| && sc.byEnd[j].end == sc.ts[i]
      ensures Dominates(sc, m, sc.byEnd[j], At(y, sc.ts[i]))
    {
      DominatesBelow(sc, m, y, sc.byEnd[j], At(y, sc.ts[i]));
    }
    assert BoxGapped(sc, y, i);
    TimestampBoundLe(sc, m, sc.byEnd, sc.ts[i], At(m, sc.ts[i - 1]) + BoxGap, At(y, sc.ts[i]));
  }
}
