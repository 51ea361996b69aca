/** The x-position layout computed by `render` (visualization/index.js,
    lines 202-358), as a specification: what the greedy left-to-right scan
    must produce. The scan itself is in module `LayoutScan`, the promises of
    the layout in module `LayoutProperties`. */
module Layout {
  import opened Timeline
  import opened Ordering

  /** An element of `byEnd`: an event's (adjusted) start and end, the width
      its text needs and its gid. */
  datatype Box = Box(start: real, end: real, width: real, gid: nat)

  /** An element of `eventToLinearizations[gid]`: linearization `index`
      holds the event at `position`. */
  datatype LinPos = LinPos(index: nat, position: nat)

  /** Everything the scan reads. `startOf[g]`/`endOf[g]` are
      `byGid[g]['Start']`/`['End']`; `lins` is `allLinearizations` (lists of
      gids); `steps` is `eventToLinearizations`; `illegal` is
      `eventIllegalLast`. */
  datatype Scene = Scene(
    ts: seq<real>,
    byEnd: seq<Box>,
    startOf: seq<real>,
    endOf: seq<real>,
    lins: seq<seq<nat>>,
    steps: seq<seq<LinPos>>,
    illegal: seq<seq<nat>>)

  /** `li` names a position that exists. */
  predicate ValidPos(sc: Scene, li: LinPos)
  {
    li.index < |sc.lins| && li.position < |sc.lins[li.index]|
  }

  /** `li` points at event `g` in its linearization. */
  predicate StepOf(sc: Scene, g: nat, li: LinPos)
  {
    ValidPos(sc, li) && sc.lins[li.index][li.position] == g
  }

  /** Linearization `L` exists and is not empty. */
  predicate NonEmptyLin(sc: Scene, L: nat)
  {
    L < |sc.lins| && |sc.lins[L]| > 0
  }

  /** Every index the scan follows is in range: the shape `render` gives its
      tables by building them from the same histories. */
  predicate Indexed(sc: Scene)
  {
    && |sc.startOf| == |sc.endOf| == |sc.steps| == |sc.illegal|
    && (forall j :: 0 <= j < |sc.byEnd| ==> sc.byEnd[j].gid < |sc.startOf|)
    && (forall L, k :: 0 <= L < |sc.lins| && 0 <= k < |sc.lins[L]| ==> sc.lins[L][k] < |sc.startOf|)
    && (forall g, j :: 0 <= g < |sc.steps| && 0 <= j < |sc.steps[g]| ==> StepOf(sc, g, sc.steps[g][j]))
    && (forall g, j :: 0 <= g < |sc.illegal| && 0 <= j < |sc.illegal[g]| ==> NonEmptyLin(sc, sc.illegal[g][j]))
  }

  /** `b` describes event `b.gid`. */
  predicate BoxOf(sc: Scene, b: Box)
  {
    b.gid < |sc.startOf| && b.gid < |sc.endOf| && b.start == sc.startOf[b.gid] && b.end == sc.endOf[b.gid]
  }

  /** Some box of `byEnd` describes event `g`. */
  predicate HasBox(sc: Scene, g: nat)
  {
    exists j :: 0 <= j < |sc.byEnd| && sc.byEnd[j].gid == g
  }

  /** The event at position `k` of linearization `L` starts before event `g`
      ends. */
  predicate StartsBeforeEnd(sc: Scene, L: nat, k: nat, g: nat)
  {
    L < |sc.lins| && k < |sc.lins[L]| && sc.lins[L][k] < |sc.startOf| && g < |sc.endOf| &&
    sc.startOf[sc.lins[L][k]] < sc.endOf[g]
  }

  /** Each event of linearization `L` starts before every later one (and
      itself) ends. */
  predicate LinOrdered(sc: Scene, L: nat)
  {
    L < |sc.lins| &&
    forall k, p :: 0 <= k <= p < |sc.lins[L]| ==> StartsBeforeEnd(sc, L, k, sc.lins[L][p])
  }

  /** Linearization `L` may be drawn as ending in event `g`: every one of its
      events starts before `g` ends. */
  predicate IllegalFor(sc: Scene, g: nat, L: nat)
  {
    L < |sc.lins| && forall k :: 0 <= k < |sc.lins[L]| ==> StartsBeforeEnd(sc, L, k, g)
  }

  /** Position `p` of linearization `L` is listed among its event's steps. */
  predicate Listed(sc: Scene, L: nat, p: nat)
  {
    L < |sc.lins| && p < |sc.lins[L]| && sc.lins[L][p] < |sc.steps| &&
    LinPos(L, p) in sc.steps[sc.lins[L][p]]
  }

  /** What the scan relies on, as established by the earlier passes of
      `render`: sorted distinct timestamps holding every start and end, events
      that start before they end, `byEnd` sorted by end and covering every
      event, linearizations whose events each start before every later one of
      them ends, and `steps`/`illegal` consistent with the linearizations. */
  ghost predicate WellFormed(sc: Scene)
  {
    && Indexed(sc)
    && |sc.ts| > 0 && Increasing(sc.ts)
    && (forall g :: 0 <= g < |sc.startOf| ==>
          sc.startOf[g] in sc.ts && sc.endOf[g] in sc.ts && sc.startOf[g] < sc.endOf[g])
    && (forall j :: 0 <= j < |sc.byEnd| ==> BoxOf(sc, sc.byEnd[j]))
    && (forall i, j :: 0 <= i < j < |sc.byEnd| ==> sc.byEnd[i].end <= sc.byEnd[j].end)
    && (forall g :: 0 <= g < |sc.startOf| ==> HasBox(sc, g))
    && (forall L :: 0 <= L < |sc.lins| ==> LinOrdered(sc, L))
    && (forall L, p :: 0 <= L < |sc.lins| && 0 <= p < |sc.lins[L]| ==> Listed(sc, L, p))
    && (forall g, j :: 0 <= g < |sc.illegal| && 0 <= j < |sc.illegal[g]| ==> IllegalFor(sc, g, sc.illegal[g][j]))
  }

  /** The position of timestamp `t`. Only placed timestamps are ever looked up
      (the scan's `xPos[...]` needs them, and the lemmas below show they are
      placed), so the default is never the answer. */
  function At(xPos: map<real, real>, t: real): real
  {
    if t in xPos then xPos[t] else 0.0
  }

  /** The x-positions of the linearization points of `lin`: the first sits at
      its event's start, each later one at its event's start or `LpGap` after
      the previous point, whichever is further right (lines 327-340). */
  function Points(xPos: map<real, real>, startOf: seq<real>, lin: seq<nat>): (r: seq<real>)
    requires forall k :: 0 <= k < |lin| ==> lin[k] < |startOf|
    ensures |r| == |lin|
    decreases |lin|
  {
    if lin == [] then []
    else
      var prev := Points(xPos, startOf, lin[..|lin| - 1]);
      prev + [NextPoint(prev, At(xPos, startOf[lin[|lin| - 1]]))]
  }

  /** The point after `prev` for an event starting at x-position `here`. */
  function NextPoint(prev: seq<real>, here: real): (r: real)
    ensures r >= here && (prev != [] ==> r >= prev[|prev| - 1] + LpGap)
    ensures r == here || (prev != [] && r == prev[|prev| - 1] + LpGap)
  {
    if prev == [] then here else Max(here, prev[|prev| - 1] + LpGap)
  }

  /** The point at position `li.position` of linearization `li.index`. */
  function PointAt(sc: Scene, xPos: map<real, real>, li: LinPos): real
    requires Indexed(sc) && ValidPos(sc, li)
  {
    Points(xPos, sc.startOf, sc.lins[li.index][..li.position + 1])[li.position]
  }

  /** The last point of linearization `L`. */
  function LastPoint(sc: Scene, xPos: map<real, real>, L: nat): real
    requires Indexed(sc) && NonEmptyLin(sc, L)
  {
    Points(xPos, sc.startOf, sc.lins[L])[|sc.lins[L]| - 1]
  }

  /** The last position of each linearization in `ls` (the `map` at lines
      317-322). */
  function LastPositions(sc: Scene, ls: seq<nat>): (r: seq<LinPos>)
    requires forall j :: 0 <= j < |ls| ==> NonEmptyLin(sc, ls[j])
    ensures |r| == |ls|
    ensures forall j :: 0 <= j < |ls| ==>
      NonEmptyLin(sc, ls[j]) && r[j] == LinPos(ls[j], |sc.lins[ls[j]]| - 1) && ValidPos(sc, r[j])
    decreases |ls|
  {
    if ls == [] then []
    else
      assert NonEmptyLin(sc, ls[0]);
      [LinPos(ls[0], |sc.lins[ls[0]]| - 1)] + LastPositions(sc, ls[1..])
  }

  /** `acc` pushed right past every point in `items` (lines 316-346). */
  function StepsBound(sc: Scene, xPos: map<real, real>, items: seq<LinPos>, acc: real): real
    requires Indexed(sc) && forall j :: 0 <= j < |items| ==> ValidPos(sc, items[j])
    decreases |items|
  {
    if items == [] then acc
    else StepsBound(sc, xPos, items[1..], Max(acc, PointAt(sc, xPos, items[0])))
  }

  /** `acc` pushed right to leave `LpGap` after the last point of every
      linearization in `ls` (lines 348-353). */
  function IllegalBound(sc: Scene, xPos: map<real, real>, ls: seq<nat>, acc: real): real
    requires Indexed(sc) && forall j :: 0 <= j < |ls| ==> NonEmptyLin(sc, ls[j])
    decreases |ls|
  {
    if ls == [] then acc
    else IllegalBound(sc, xPos, ls[1..], Max(acc, LastPoint(sc, xPos, ls[0]) + LpGap))
  }

  /** The steps visited for box `b`: its own positions, then the last
      position of each linearization that may be drawn ending in it. */
  function Items(sc: Scene, g: nat): (r: seq<LinPos>)
    requires Indexed(sc) && g < |sc.steps|
    ensures forall j :: 0 <= j < |r| ==> ValidPos(sc, r[j])
  {
    sc.steps[g] + LastPositions(sc, sc.illegal[g])
  }

  /** The position the end of box `b` needs, starting from `acc`: room for
      its text, for the points of its linearizations, and for the points of
      the linearizations that may be drawn ending in it (lines 305-353). */
  function EventBound(sc: Scene, xPos: map<real, real>, b: Box, acc: real): real
    requires Indexed(sc) && b.gid < |sc.steps|
  {
    IllegalBound(sc, xPos, sc.illegal[b.gid],
      StepsBound(sc, xPos, Items(sc, b.gid), Max(acc, At(xPos, b.start) + b.width)))
  }

  /** `acc` pushed right by every box of `bs` that ends at `t`. */
  function TimestampBound(sc: Scene, xPos: map<real, real>, bs: seq<Box>, t: real, acc: real): real
    requires Indexed(sc) && forall j :: 0 <= j < |bs| ==> bs[j].gid < |sc.steps|
    decreases |bs|
  {
    if bs == [] then acc
    else TimestampBound(sc, xPos, bs[1..], t, if bs[0].end == t then EventBound(sc, xPos, bs[0], acc) else acc)
  }

  /** The layout of the first `n` timestamps: `ts[0]` at 0 (line 298), and
      each later timestamp at the least position that keeps `BoxGap` after
      the previous one and satisfies every box ending there. */
  function LayoutSpec(sc: Scene, n: nat): map<real, real>
    requires Indexed(sc) && 1 <= n <= |sc.ts|
    decreases n
  {
    if n == 1 then map[sc.ts[0] := 0.0]
    else
      var m := LayoutSpec(sc, n - 1);
      m[sc.ts[n - 1] := TimestampBound(sc, m, sc.byEnd, sc.ts[n - 1], At(m, sc.ts[n - 2]) + BoxGap)]
  }

  /** The layout of all timestamps. */
  function XPositions(sc: Scene): map<real, real>
    requires Indexed(sc) && |sc.ts| > 0
  {
    LayoutSpec(sc, |sc.ts|)
  }

  /** Every event of `lin` has a start whose position is known. */
  predicate Placed(xPos: map<real, real>, startOf: seq<real>, lin: seq<nat>)
  {
    forall k :: 0 <= k < |lin| ==> lin[k] < |startOf| && startOf[lin[k]] in xPos
  }

  /** The points up to position `li.position` can be placed. */
  predicate ItemReady(sc: Scene, xPos: map<real, real>, li: LinPos)
  {
    ValidPos(sc, li) && Placed(xPos, sc.startOf, sc.lins[li.index][..li.position + 1])
  }

  /** All points of linearization `L` can be placed. */
  predicate LinReady(sc: Scene, xPos: map<real, real>, L: nat)
  {
    NonEmptyLin(sc, L) && Placed(xPos, sc.startOf, sc.lins[L])
  }

  /** Everything the scan looks up when it reaches the end of box `b`. */
  predicate BoxReady(sc: Scene, xPos: map<real, real>, b: Box)
  {
    b.start in xPos && b.gid < |sc.steps| && b.gid < |sc.illegal| &&
    (forall j :: 0 <= j < |sc.steps[b.gid]| ==> ItemReady(sc, xPos, sc.steps[b.gid][j])) &&
    (forall j :: 0 <= j < |sc.illegal[b.gid]| ==> LinReady(sc, xPos, sc.illegal[b.gid][j]))
  }

  /** Every box of `bs` that ends at `t` is ready. */
  predicate ReadyAt(sc: Scene, xPos: map<real, real>, bs: seq<Box>, t: real)
  {
    forall j :: 0 <= j < |bs| && bs[j].end == t ==> BoxReady(sc, xPos, bs[j])
  }

  /** A timestamp before `ts[i]` is among the first `i`. */
  lemma EarlierIndex(ts: seq<real>, i: nat, t: real)
    requires Increasing(ts) && i < |ts| && t in ts && t < ts[i]
    ensures t in ts[..i]
  {
    var k :| 0 <= k < |ts| && ts[k] == t;
    assert ts[..i][k] == t;
  }

  /** When the first `i` timestamps have positions, every box ending at
      `ts[i]` is ready. */
  lemma ReadyBelow(sc: Scene, xPos: map<real, real>, i: nat)
    requires WellFormed(sc) && i < |sc.ts|
    requires forall t :: t in sc.ts[..i] ==> t in xPos
    ensures ReadyAt(sc, xPos, sc.byEnd, sc.ts[i])
  {
    forall j | 0 <= j < |sc.byEnd| && sc.byEnd[j].end == sc.ts[i]
      ensures BoxReady(sc, xPos, sc.byEnd[j])
    {
      var b := sc.byEnd[j];
      assert BoxOf(sc, b);
      EarlierIndex(sc.ts, i, b.start);
      forall s | 0 <= s < |sc.steps[b.gid]|
        ensures ItemReady(sc, xPos, sc.steps[b.gid][s])
      {
        var li := sc.steps[b.gid][s];
        assert StepOf(sc, b.gid, li);
        var lin := sc.lins[li.index];
        assert LinOrdered(sc, li.index);
        forall k | 0 <= k <= li.position
          ensures sc.startOf[lin[k]] in xPos
        {
          assert StartsBeforeEnd(sc, li.index, k, lin[li.position]);
          EarlierIndex(sc.ts, i, sc.startOf[lin[k]]);
        }
      }
      forall s | 0 <= s < |sc.illegal[b.gid]|
        ensures LinReady(sc, xPos, sc.illegal[b.gid][s])
      {
        var L := sc.illegal[b.gid][s];
        assert IllegalFor(sc, b.gid, L);
        forall k | 0 <= k < |sc.lins[L]|
          ensures sc.startOf[sc.lins[L][k]] in xPos
        {
          assert StartsBeforeEnd(sc, L, k, b.gid);
          EarlierIndex(sc.ts, i, sc.startOf[sc.lins[L][k]]);
        }
      }
    }
  }

  /** Point `k` is the point after the earlier ones for its event's start. */
  lemma PointIsNext(xPos: map<real, real>, startOf: seq<real>, lin: seq<nat>, k: nat)
    requires k < |lin| && forall j :: 0 <= j < |lin| ==> lin[j] < |startOf|
    ensures Points(xPos, startOf, lin)[k]
      == NextPoint(Points(xPos, startOf, lin)[..k], At(xPos, startOf[lin[k]]))
  {
    PointsPrefix(xPos, startOf, lin, k + 1);
    PointsPrefix(xPos, startOf, lin, k);
    assert lin[..k + 1][..k] == lin[..k];
    assert Points(xPos, startOf, lin)[..k + 1][..k] == Points(xPos, startOf, lin)[..k];
  }

  /** Point `k` is at or right of its event's start, at least `LpGap` right
      of the point before it, and equal to one of the two. */
  lemma PointFacts(xPos: map<real, real>, startOf: seq<real>, lin: seq<nat>, k: nat)
    requires k < |lin| && forall j :: 0 <= j < |lin| ==> lin[j] < |startOf|
    ensures var r := Points(xPos, startOf, lin);
      && r[k] >= At(xPos, startOf[lin[k]])
      && (k == 0 ==> r[k] == At(xPos, startOf[lin[k]]))
      && (k > 0 ==> r[k] >= r[k - 1] + LpGap)
      && (k > 0 ==> r[k] == At(xPos, startOf[lin[k]]) || r[k] == r[k - 1] + LpGap)
  {
    var r := Points(xPos, startOf, lin);
    PointIsNext(xPos, startOf, lin, k);
    if k > 0 {
      assert r[..k][k - 1] == r[k - 1];
    }
  }

  /** The first point sits at its event's start; every point is at or right
      of its event's start and `LpGap` right of the point before it; and each
      point is as far left as that allows. */
  lemma PointsSpaced(xPos: map<real, real>, startOf: seq<real>, lin: seq<nat>)
    requires forall k :: 0 <= k < |lin| ==> lin[k] < |startOf|
    ensures var r := Points(xPos, startOf, lin);
      && (|lin| > 0 ==> r[0] == At(xPos, startOf[lin[0]]))
      && (forall k :: 0 <= k < |lin| ==> r[k] >= At(xPos, startOf[lin[k]]))
      && (forall k :: 0 < k < |lin| ==> r[k] >= r[k - 1] + LpGap)
      && (forall k :: 0 < k < |lin| ==> r[k] == At(xPos, startOf[lin[k]]) || r[k] == r[k - 1] + LpGap)
  {
    forall k | 0 <= k < |lin|
      ensures var r := Points(xPos, startOf, lin);
        && r[k] >= At(xPos, startOf[lin[k]])
        && (k == 0 ==> r[k] == At(xPos, startOf[lin[k]]))
        && (k > 0 ==> r[k] >= r[k - 1] + LpGap)
        && (k > 0 ==> r[k] == At(xPos, startOf[lin[k]]) || r[k] == r[k - 1] + LpGap)
    {
      PointFacts(xPos, startOf, lin, k);
    }
  }

  /** Appending one event appends one point. */
  lemma PointsSnoc(xPos: map<real, real>, startOf: seq<real>, lin: seq<nat>, i: nat)
    requires i < |lin| && forall k :: 0 <= k <= i ==> lin[k] < |startOf|
    ensures Points(xPos, startOf, lin[..i + 1])
      == Points(xPos, startOf, lin[..i]) + [NextPoint(Points(xPos, startOf, lin[..i]), At(xPos, startOf[lin[i]]))]
  {
    assert lin[..i + 1][..i] == lin[..i];
  }

  /** The points of a prefix are a prefix of the points. */
  lemma {:induction false} PointsPrefix(xPos: map<real, real>, startOf: seq<real>, lin: seq<nat>, n: nat)
    requires n <= |lin| && forall k :: 0 <= k < |lin| ==> lin[k] < |startOf|
    ensures Points(xPos, startOf, lin[..n]) == Points(xPos, startOf, lin)[..n]
    decreases |lin|
  {
    if n < |lin| {
      var init := lin[..|lin| - 1];
      assert init[..n] == lin[..n];
      PointsPrefix(xPos, startOf, init, n);
    } else {
      assert lin[..n] == lin;
    }
  }

  /** Points depend only on the positions of their own events' starts. */
  lemma {:induction false} PointsSub(m1: map<real, real>, m2: map<real, real>, startOf: seq<real>, lin: seq<nat>)
    requires forall k :: 0 <= k < |lin| ==> lin[k] < |startOf|
    requires forall k :: 0 <= k < |lin| ==> At(m1, startOf[lin[k]]) == At(m2, startOf[lin[k]])
    ensures Points(m2, startOf, lin) == Points(m1, startOf, lin)
    decreases |lin|
  {
    if lin != [] {
      PointsSub(m1, m2, startOf, lin[..|lin| - 1]);
    }
  }

  /** The layout of the first `n` timestamps places exactly those. */
  lemma {:induction false} LayoutKeys(sc: Scene, n: nat)
    requires Indexed(sc) && 1 <= n <= |sc.ts|
    ensures forall t :: t in LayoutSpec(sc, n) <==> t in sc.ts[..n]
    decreases n
  {
    if n > 1 {
      LayoutKeys(sc, n - 1);
      assert sc.ts[..n] == sc.ts[..n - 1] + [sc.ts[n - 1]];
    }
  }

  /** A later timestamp is not among the first `k`. */
  lemma NotAmongFirst(ts: seq<real>, k: nat, i: nat)
    requires Increasing(ts) && k <= i < |ts|
    ensures ts[i] !in ts[..k]
  {
  }
}
