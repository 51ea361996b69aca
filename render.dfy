/** `render` (visualization/index.js, lines 55-806) as one pipeline:
    normalisation, the tables of the layout, the left-to-right scan, the
    tables of the drawing loop and the initial interaction state. The
    lemmas here show that normalisation and the preprocessing establish
    everything the scan relies on (`Layout.WellFormed`), given the
    real-time consistency the checker's partial linearizations have. */
module Render {
  import opened Timeline
  import opened Normalize
  import opened Illegal
  import opened Layout
  import opened LayoutScan
  import opened Tables
  import opened Tooltips
  import opened Interaction

  /** `coreHistory` once normalisation has rewritten its events in place:
      every later pass reads these histories. */
  function NormalCore(core: seq<Partition>, n: Normalized): (r: seq<Partition>)
    requires |n.allData| > |core|
    ensures |r| == |core|
    ensures forall p :: 0 <= p < |core| ==> r[p].lins == core[p].lins && r[p].largest == core[p].largest
  {
    seq(|core|, p requires 0 <= p < |core| => core[p].(history := n.allData[p]))
  }

  /** Event `a` of `h` is called no later than event `b` returns. */
  predicate CalledBy(h: seq<Event>, a: nat, b: nat)
  {
    a < |h| && b < |h| && h[a].start <= h[b].end
  }

  /** Event `a` of `h` is called strictly before event `b` returns. */
  predicate CalledBefore(h: seq<Event>, a: nat, b: nat)
  {
    a < |h| && b < |h| && h[a].start < h[b].end
  }

  /** A partial linearization that respects real time: its steps name
      events of the history, no step returns before an earlier step is
      called, and no event it leaves out returns before one of its steps is
      called (such an event would have to come earlier). */
  predicate RealTime(h: seq<Event>, lin: seq<Step>)
  {
    && (forall k :: 0 <= k < |lin| ==> lin[k].index < |h|)
    && (forall k, q :: 0 <= k < q < |lin| ==> CalledBy(h, lin[k].index, lin[q].index))
    && (forall k, j: nat :: 0 <= k < |lin| && j < |h| && !Included(lin, j) ==> CalledBy(h, lin[k].index, j))
  }

  /** What `render` relies on in its input: at least two distinct
      timestamps, events that do not return before they are called,
      annotations marked as such, non-empty linearizations that respect
      real time, `Largest` entries naming existing linearizations, and one
      measured text width per event, in gid order. */
  ghost predicate RenderInput(core: seq<Partition>, annotations: seq<Event>, widths: seq<real>)
  {
    var hs := AllData(core, annotations);
    && TwoStamps(hs)
    && (forall p, k :: 0 <= p < |hs| && 0 <= k < |hs[p]| ==> hs[p][k].start <= hs[p][k].end)
    && (forall k :: 0 <= k < |annotations| ==> annotations[k].kind.Annotation?)
    && (forall p, L :: 0 <= p < |core| && 0 <= L < |core[p].lins| ==>
          |core[p].lins[L]| > 0 && RealTime(core[p].history, core[p].lins[L]))
    && (forall p, i :: 0 <= p < |core| && i in core[p].largest ==> core[p].largest[i] < |core[p].lins|)
    && |widths| == |Flatten(hs)|
  }

  /** The gid pass as the later passes see it: every core event is found in
      `byGid` at its gid. */
  ghost predicate GidsOf(core: seq<Partition>, n: Normalized)
  {
    && |n.allData| == |core| + 1 && Dense(n.byGid)
    && (forall p :: 0 <= p < |core| ==> |n.allData[p]| == |core[p].history|)
    && (forall p, k :: 0 <= p < |core| && 0 <= k < |core[p].history| ==>
          n.allData[p][k].gid < |n.byGid| && n.byGid[n.allData[p][k].gid] == n.allData[p][k])
  }

  /** After normalisation: sorted timestamps, and every event starts before
      it ends, at two of them. */
  ghost predicate StampsOf(n: Normalized)
  {
    && |n.timestamps| > 0 && Ordering.Increasing(n.timestamps)
    && (forall g :: 0 <= g < |n.byGid| ==>
          n.byGid[g].start in n.timestamps && n.byGid[g].end in n.timestamps && n.byGid[g].start < n.byGid[g].end)
  }

  /** After normalisation the linearizations respect real time strictly,
      and so do their illegal next steps: no step is called at the instant
      a later step, or an illegal next step, returns. */
  ghost predicate StrictRealTime(nc: seq<Partition>)
  {
    && (forall p, L, k, q :: 0 <= p < |nc| && 0 <= L < |nc[p].lins| && 0 <= k <= q < |nc[p].lins[L]| ==>
          CalledBefore(nc[p].history, nc[p].lins[L][k].index, nc[p].lins[L][q].index))
    && (forall p, L, k, i: nat ::
          0 <= p < |nc| && 0 <= L < |nc[p].lins| && 0 <= k < |nc[p].lins[L]| &&
          IsIllegalNext(nc[p].history, nc[p].lins[L], i) ==>
          CalledBefore(nc[p].history, nc[p].lins[L][k].index, i))
  }

  /** Event `g` of the flattening is event `k` of history `p`. */
  lemma {:induction false} FlattenMember(hs: seq<seq<Event>>, g: nat) returns (p: nat, k: nat)
    requires g < |Flatten(hs)|
    ensures p < |hs| && k < |hs[p]| && Flatten(hs)[g] == hs[p][k]
    decreases |hs|
  {
    var last := |hs| - 1;
    assert Flatten(hs) == Flatten(hs[..last]) + hs[last];
    if g < |Flatten(hs[..last])| {
      p, k := FlattenMember(hs[..last], g);
      assert hs[..last][p] == hs[p];
    } else {
      p, k := last, g - |Flatten(hs[..last])|;
    }
  }

  /** The gid pass leaves every core event at its gid in `byGid`. */
  lemma NormalizedGids(core: seq<Partition>, annotations: seq<Event>, n: Normalized)
    requires GidsAssigned(core, annotations, n) && EventsAdjusted(core, annotations, n)
    ensures GidsOf(core, n)
  {
    var hs := AllData(core, annotations);
    forall p | 0 <= p < |core|
      ensures hs[p] == core[p].history
    {
    }
    forall p, k | 0 <= p < |core| && 0 <= k < |core[p].history|
      ensures n.allData[p][k].gid < |n.byGid| && n.byGid[n.allData[p][k].gid] == n.allData[p][k]
    {
      GidLookup(core, annotations, n, p, k);
    }
  }

  /** Normalisation leaves sorted timestamps holding every start and end,
      and every event starting before it ends. */
  lemma NormalizedStamps(core: seq<Partition>, annotations: seq<Event>, n: Normalized)
    requires NormalizedFrom(core, annotations, n)
    requires TwoStamps(AllData(core, annotations))
    requires var hs := AllData(core, annotations);
      forall p, k :: 0 <= p < |hs| && 0 <= k < |hs[p]| ==> hs[p][k].start <= hs[p][k].end
    ensures StampsOf(n)
  {
    var hs := AllData(core, annotations);
    var a, b :| IsStamp(hs, a) && IsStamp(hs, b) && a != b;
    assert a in n.timestamps;
    FinalCovered(core, annotations, n);
    forall g | 0 <= g < |n.byGid|
      ensures n.byGid[g].start in n.timestamps && n.byGid[g].end in n.timestamps && n.byGid[g].start < n.byGid[g].end
    {
      var p, k := FlattenMember(n.allData, g);
      StartBeforeEnd(core, annotations, n, p, k);
    }
  }

  /** Nudging keeps the order of a call and a return within a partition
      and makes it strict. */
  ghost predicate NudgedOrder(core: seq<Partition>, n: Normalized)
  {
    && |n.allData| > |core|
    && (forall p :: 0 <= p < |core| ==> |n.allData[p]| == |core[p].history|)
    && (forall p, a, b :: 0 <= p < |core| && CalledBy(core[p].history, a, b) ==> CalledBefore(n.allData[p], a, b))
  }

  /** Lines 145-197 keep every call before every return it did not follow. */
  lemma NormalizedOrderStrict(core: seq<Partition>, annotations: seq<Event>, n: Normalized)
    requires StampsRecorded(core, annotations, n) && EventsAdjusted(core, annotations, n)
    ensures NudgedOrder(core, n)
  {
    var hs := AllData(core, annotations);
    forall p | 0 <= p < |core|
      ensures hs[p] == core[p].history
    {
    }
    forall p, a, b | 0 <= p < |core| && CalledBy(core[p].history, a, b)
      ensures CalledBefore(n.allData[p], a, b)
    {
      OperationsOverlap(core, annotations, n, p, a, p, b);
    }
  }

  /** The real-time order of the linearizations becomes strict once the
      ends that equal a start have moved right. */
  lemma NormalizedLins(core: seq<Partition>, n: Normalized)
    requires NudgedOrder(core, n)
    requires forall p, L :: 0 <= p < |core| && 0 <= L < |core[p].lins| ==> RealTime(core[p].history, core[p].lins[L])
    requires forall p, k :: 0 <= p < |core| && 0 <= k < |core[p].history| ==>
      core[p].history[k].start <= core[p].history[k].end
    ensures StrictRealTime(NormalCore(core, n))
  {
    var nc := NormalCore(core, n);
    forall p, L, k, q | 0 <= p < |nc| && 0 <= L < |nc[p].lins| && 0 <= k <= q < |nc[p].lins[L]|
      ensures CalledBefore(nc[p].history, nc[p].lins[L][k].index, nc[p].lins[L][q].index)
    {
      var lin := core[p].lins[L];
      assert RealTime(core[p].history, lin);
      assert CalledBy(core[p].history, lin[k].index, lin[q].index);
    }
    forall p, L, k, i: nat | 0 <= p < |nc| && 0 <= L < |nc[p].lins| && 0 <= k < |nc[p].lins[L]| &&
        IsIllegalNext(nc[p].history, nc[p].lins[L], i)
      ensures CalledBefore(nc[p].history, nc[p].lins[L][k].index, i)
    {
      var lin := core[p].lins[L];
      assert RealTime(core[p].history, lin);
      assert CalledBy(core[p].history, lin[k].index, i);
    }
  }

  /** Everything the later passes need from normalisation. */
  lemma RenderFacts(core: seq<Partition>, annotations: seq<Event>, widths: seq<real>, n: Normalized)
    requires RenderInput(core, annotations, widths) && NormalizedFrom(core, annotations, n)
    ensures GidsOf(core, n) && StampsOf(n) && StrictRealTime(NormalCore(core, n)) && LinsIndexed(core)
    ensures ViewInput(core, n) && |widths| == |n.byGid|
  {
    var hs := AllData(core, annotations);
    forall p, L | 0 <= p < |core| && 0 <= L < |core[p].lins|
      ensures |core[p].lins[L]| > 0 && RealTime(core[p].history, core[p].lins[L])
    {
    }
    NormalizedGids(core, annotations, n);
    NormalizedStamps(core, annotations, n);
    forall p, k | 0 <= p < |core| && 0 <= k < |core[p].history|
      ensures core[p].history[k].start <= core[p].history[k].end
    {
      assert hs[p] == core[p].history;
    }
    NormalizedOrderStrict(core, annotations, n);
    NormalizedLins(core, n);
    NormalAnnotations(core, annotations, n);
    OffsetShape(hs, n.allData, |hs|);
    assert hs[..|hs|] == hs && n.allData[..|hs|] == n.allData;
  }

  /** The scene handed to the scan: the normalised timestamps, the boxes of
      `byEnd` measured by `widths`, the starts and ends by gid, and the
      preprocessing tables of the normalised partitions, whose
      linearizations `refs` numbers. */
  ghost predicate SceneOf(core: seq<Partition>, n: Normalized, widths: seq<real>, sc: Scene, refs: seq<LinRef>)
  {
    && |n.allData| > |core|
    && sc.ts == n.timestamps
    && |sc.startOf| == |sc.endOf| == |n.byGid| == |widths|
    && (forall g :: 0 <= g < |n.byGid| ==> sc.startOf[g] == n.byGid[g].start && sc.endOf[g] == n.byGid[g].end)
    && ByEndOrder(sc.byEnd)
    && (forall b :: b in sc.byEnd <==> exists g :: 0 <= g < |n.byGid| && b == MakeBox(n.byGid[g], widths[g]))
    && TablesFor(NormalCore(core, n), |n.byGid|, refs, sc.lins, sc.steps, sc.illegal)
  }

  /** Linearization `G` of the scene lists the gids of the steps of the
      normalised linearization `refs[G]` names. */
  lemma LinGids(core: seq<Partition>, n: Normalized, widths: seq<real>, sc: Scene, refs: seq<LinRef>, G: nat, k: nat)
    requires SceneOf(core, n, widths, sc, refs) && GidsOf(core, n)
    requires G < |sc.lins| && k < |sc.lins[G]|
    ensures var r := refs[G]; var lin := core[r.partition].lins[r.lin];
      && r.partition < |core| && r.lin < |core[r.partition].lins| && k < |lin|
      && lin[k].index < |core[r.partition].history|
      && sc.lins[G][k] == n.allData[r.partition][lin[k].index].gid
      && sc.lins[G][k] < |sc.startOf|
      && sc.startOf[sc.lins[G][k]] == n.allData[r.partition][lin[k].index].start
      && sc.endOf[sc.lins[G][k]] == n.allData[r.partition][lin[k].index].end
  {
    var nc := NormalCore(core, n);
    assert Owns(nc, refs[G]);
  }

  /** Every index the scan follows is in range. */
  lemma SceneIndexed(core: seq<Partition>, n: Normalized, widths: seq<real>, sc: Scene, refs: seq<LinRef>)
    requires SceneOf(core, n, widths, sc, refs) && GidsOf(core, n)
    requires forall p, L :: 0 <= p < |core| && 0 <= L < |core[p].lins| ==> |core[p].lins[L]| > 0
    ensures Indexed(sc)
  {
    var nc := NormalCore(core, n);
    forall j | 0 <= j < |sc.byEnd|
      ensures sc.byEnd[j].gid < |sc.startOf|
    {
      assert sc.byEnd[j] in sc.byEnd;
    }
    forall L, k | 0 <= L < |sc.lins| && 0 <= k < |sc.lins[L]|
      ensures sc.lins[L][k] < |sc.startOf|
    {
      LinGids(core, n, widths, sc, refs, L, k);
    }
    forall g, j | 0 <= g < |sc.illegal| && 0 <= j < |sc.illegal[g]|
      ensures NonEmptyLin(sc, sc.illegal[g][j])
    {
      var G := sc.illegal[g][j];
      IllegalListed(nc, |n.byGid|, refs, sc.lins, sc.steps, sc.illegal, g, G);
    }
  }

  /** The boxes of `byEnd` describe the events, sorted by end, one for every
      event. */
  lemma SceneBoxes(core: seq<Partition>, n: Normalized, widths: seq<real>, sc: Scene, refs: seq<LinRef>)
    requires SceneOf(core, n, widths, sc, refs) && GidsOf(core, n)
    ensures forall j :: 0 <= j < |sc.byEnd| ==> BoxOf(sc, sc.byEnd[j])
    ensures forall i, j :: 0 <= i < j < |sc.byEnd| ==> sc.byEnd[i].end <= sc.byEnd[j].end
    ensures forall g :: 0 <= g < |sc.startOf| ==> HasBox(sc, g)
  {
    forall j | 0 <= j < |sc.byEnd|
      ensures BoxOf(sc, sc.byEnd[j])
    {
      assert sc.byEnd[j] in sc.byEnd;
    }
    forall g | 0 <= g < |sc.startOf|
      ensures HasBox(sc, g)
    {
      assert MakeBox(n.byGid[g], widths[g]) in sc.byEnd;
    }
  }

  /** The linearizations of the scene are ordered in time and listed among
      their events' steps. */
  lemma SceneLins(core: seq<Partition>, n: Normalized, widths: seq<real>, sc: Scene, refs: seq<LinRef>)
    requires SceneOf(core, n, widths, sc, refs) && GidsOf(core, n) && Indexed(sc)
    requires StrictRealTime(NormalCore(core, n))
    ensures forall L :: 0 <= L < |sc.lins| ==> LinOrdered(sc, L)
    ensures forall L, p :: 0 <= L < |sc.lins| && 0 <= p < |sc.lins[L]| ==> Listed(sc, L, p)
  {
    var nc := NormalCore(core, n);
    forall L, k, q | 0 <= L < |sc.lins| && 0 <= k <= q < |sc.lins[L]|
      ensures StartsBeforeEnd(sc, L, k, sc.lins[L][q])
    {
      LinGids(core, n, widths, sc, refs, L, k);
      LinGids(core, n, widths, sc, refs, L, q);
      var r := refs[L];
      assert CalledBefore(nc[r.partition].history, nc[r.partition].lins[r.lin][k].index, nc[r.partition].lins[r.lin][q].index);
    }
  }

  /** Every linearization listed as illegal for an event may end in it. */
  lemma SceneIllegal(core: seq<Partition>, n: Normalized, widths: seq<real>, sc: Scene, refs: seq<LinRef>)
    requires SceneOf(core, n, widths, sc, refs) && GidsOf(core, n) && Indexed(sc)
    requires StrictRealTime(NormalCore(core, n))
    ensures forall g, j :: 0 <= g < |sc.illegal| && 0 <= j < |sc.illegal[g]| ==> IllegalFor(sc, g, sc.illegal[g][j])
  {
    var nc := NormalCore(core, n);
    forall g, j | 0 <= g < |sc.illegal| && 0 <= j < |sc.illegal[g]|
      ensures IllegalFor(sc, g, sc.illegal[g][j])
    {
      var G := sc.illegal[g][j];
      IllegalListed(nc, |n.byGid|, refs, sc.lins, sc.steps, sc.illegal, g, G);
      var r := refs[G];
      var i: nat :| i < |nc[r.partition].history| && IsIllegalNext(nc[r.partition].history, nc[r.partition].lins[r.lin], i) &&
        nc[r.partition].history[i].gid == g;
      forall k | 0 <= k < |sc.lins[G]|
        ensures StartsBeforeEnd(sc, G, k, g)
      {
        LinGids(core, n, widths, sc, refs, G, k);
        assert CalledBefore(nc[r.partition].history, nc[r.partition].lins[r.lin][k].index, i);
      }
    }
  }

  /** Normalisation and the preprocessing establish everything the scan
      relies on. */
  lemma SceneWellFormed(core: seq<Partition>, n: Normalized, widths: seq<real>, sc: Scene, refs: seq<LinRef>)
    requires SceneOf(core, n, widths, sc, refs) && GidsOf(core, n) && StampsOf(n)
    requires StrictRealTime(NormalCore(core, n))
    requires forall p, L :: 0 <= p < |core| && 0 <= L < |core[p].lins| ==> |core[p].lins[L]| > 0
    ensures WellFormed(sc)
  {
    SceneIndexed(core, n, widths, sc, refs);
    SceneBoxes(core, n, widths, sc, refs);
    SceneLins(core, n, widths, sc, refs);
    SceneIllegal(core, n, widths, sc, refs);
  }

  /** What the handlers need of the normalised data: the annotations are
      still annotations and every `Largest` entry names a linearization. */
  ghost predicate ViewInput(core: seq<Partition>, n: Normalized)
  {
    && |n.allData| == |core| + 1
    && (forall k :: 0 <= k < |n.allData[|core|]| ==> n.allData[|core|][k].kind.Annotation?)
    && (forall p, i :: 0 <= p < |core| && i in core[p].largest ==> core[p].largest[i] < |core[p].lins|)
  }

  /** Normalisation moves annotations in time and onto their tag's client,
      and leaves their kind alone. */
  lemma NormalAnnotations(core: seq<Partition>, annotations: seq<Event>, n: Normalized)
    requires EventsAdjusted(core, annotations, n)
    requires forall k :: 0 <= k < |annotations| ==> annotations[k].kind.Annotation?
    ensures |n.allData| == |core| + 1
    ensures forall k :: 0 <= k < |n.allData[|core|]| ==> n.allData[|core|][k].kind.Annotation?
  {
    var hs := AllData(core, annotations);
    assert hs[|core|] == annotations;
    forall k | 0 <= k < |n.allData[|core|]|
      ensures n.allData[|core|][k].kind.Annotation?
    {
      assert n.allData[|core|][k].kind == annotations[k].kind;
    }
  }

  /** The tables of the drawing loop (lines 490-583) over the normalised
      partitions, as the handlers read them. */
  method BuildView(core: seq<Partition>, n: Normalized) returns (v: View)
    requires ViewInput(core, n) && LinsIndexed(core)
    ensures v.core == NormalCore(core, n) && v.annotations == n.allData[|core|]
    ensures ViewShape(v) && ViewTables(v)
  {
    var nc := NormalCore(core, n);
    var illegalLast, largestIllegal := ChooseAll(nc);
    v := View(nc, n.allData[|core|], illegalLast, largestIllegal);
    forall p, i | 0 <= p < |nc| && i in largestIllegal[p]
      ensures largestIllegal[p][i] < |nc[p].lins|
    {
      assert LargestIllegalOf(nc[p].history, nc[p].lins, largestIllegal[p]);
    }
    forall p, L | 0 <= p < |nc| && 0 <= L < |nc[p].lins|
      ensures |nc[p].lins[L]| > 0
    {
      assert |core[p].lins[L]| > 0;
    }
  }

  /** Every linearization is non-empty and its steps name events of its
      partition. */
  predicate LinsIndexed(core: seq<Partition>)
  {
    forall p, L :: 0 <= p < |core| && 0 <= L < |core[p].lins| ==>
      |core[p].lins[L]| > 0 && forall k :: 0 <= k < |core[p].lins[L]| ==> core[p].lins[L][k].index < |core[p].history|
  }

  /** The normalised partitions are fit for the preprocessing. */
  lemma NormalIndexed(core: seq<Partition>, n: Normalized)
    requires GidsOf(core, n) && LinsIndexed(core)
    ensures StepsIndexed(NormalCore(core, n), |n.byGid|)
  {
    var nc := NormalCore(core, n);
    forall p, L, k | 0 <= p < |nc| && 0 <= L < |nc[p].lins| && 0 <= k < |nc[p].lins[L]|
      ensures nc[p].lins[L][k].index < |nc[p].history|
    {
      assert |core[p].lins[L]| > 0 && core[p].lins[L][k].index < |core[p].history|;
    }
  }

  /** Lines 238-293: the scene the scan reads, built from the normalised
      events and the measured `widths`. */
  method BuildScene(core: seq<Partition>, n: Normalized, widths: seq<real>) returns (sc: Scene, ghost refs: seq<LinRef>)
    requires GidsOf(core, n) && StampsOf(n) && StrictRealTime(NormalCore(core, n)) && LinsIndexed(core)
    requires |widths| == |n.byGid|
    ensures SceneOf(core, n, widths, sc, refs) && WellFormed(sc)
  {
    var nc := NormalCore(core, n);
    NormalIndexed(core, n);
    var byEnd := ByEnd(n.byGid, widths);
    var startOf := seq(|n.byGid|, g requires 0 <= g < |n.byGid| => n.byGid[g].start);
    var endOf := seq(|n.byGid|, g requires 0 <= g < |n.byGid| => n.byGid[g].end);
    var lins, steps, illegal;
    lins, steps, illegal, refs := Preprocess(nc, |n.byGid|);
    sc := Scene(n.timestamps, byEnd, startOf, endOf, lins, steps, illegal);
    SceneWellFormed(core, n, widths, sc, refs);
  }

  /** `render(data)`: normalise the histories, build `byEnd` from the
      measured `widths` and the preprocessing tables, run the layout scan,
      build the tables of the drawing loop and leave the handlers in their
      initial state. */
  method Render(core: seq<Partition>, annotations: seq<Event>, widths: seq<real>)
    returns (n: Normalized, sc: Scene, xPos: map<real, real>, lp: seq<seq<real>>, ctl: Controller, ghost refs: seq<LinRef>)
    requires RenderInput(core, annotations, widths)
    ensures NormalizedFrom(core, annotations, n)
    ensures SceneOf(core, n, widths, sc, refs) && WellFormed(sc)
    ensures xPos == XPositions(sc) && |lp| == |sc.lins|
    ensures forall L :: 0 <= L < |sc.lins| ==> lp[L] == Points(xPos, sc.startOf, sc.lins[L])
    ensures fresh(ctl) && ctl.Valid() && !ctl.selected
    ensures !ctl.tooltipShown && ctl.lastTooltip == NoKey && LinsReset(ctl.linHidden)
    ensures forall i :: 0 <= i < |ctl.historyHidden| ==> !ctl.historyHidden[i]
    ensures ctl.view.core == NormalCore(core, n) && ctl.view.annotations == n.allData[|core|]
    ensures ViewTables(ctl.view)
  {
    n := Normalize.Normalize(core, annotations);
    RenderFacts(core, annotations, widths, n);
    sc, refs := BuildScene(core, n, widths);
    var consumed;
    xPos, lp, consumed := Scan(sc);
    var v := BuildView(core, n);
    ctl := new Controller(v);
  }
}
