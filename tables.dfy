/** The tables the layout scan reads, as `render` builds them before the
    scan (visualization/index.js, lines 238-290): `byEnd`, the events' boxes
    sorted by end, and the preprocessing of the partial linearizations into
    `allLinearizations` (lists of gids), `eventToLinearizations` and
    `eventIllegalLast`. */
module Tables {
  import opened Timeline
  import opened Ordering
  import opened Illegal
  import opened Layout

  /** The box of event `e` whose description measures `measured` wide: the
      text needs `BoxTextPadding` on either side (lines 253-259). */
  function MakeBox(e: Event, measured: real): Box
  {
    Box(e.start, e.end, measured + 2.0 * BoxTextPadding, e.gid)
  }

  /** Box `a` precedes box `b` in `byEnd`: it ends earlier, or ends at the
      same time and comes first in gid order (the sort is stable and the
      boxes are listed in gid order). */
  predicate EndsBefore(a: Box, b: Box)
  {
    a.end < b.end || (a.end == b.end && a.gid < b.gid)
  }

  /** Strictly ordered by `EndsBefore`, hence also sorted by end. */
  predicate ByEndOrder(bs: seq<Box>)
  {
    forall i, j :: 0 <= i < j < |bs| ==> EndsBefore(bs[i], bs[j])
  }

  /** One step of the stable sort: `x`, listed after every box of `r`, goes
      after the boxes that end no later than it. */
  function InsertBox(r: seq<Box>, x: Box): (r': seq<Box>)
    requires ByEndOrder(r) && forall y :: y in r ==> y.gid < x.gid
    ensures ByEndOrder(r') && |r'| == |r| + 1
    ensures forall y :: y in r' <==> y in r || y == x
    decreases |r|
  {
    if r == [] || x.end < r[0].end then
      InsertBoxFront(r, x);
      [x] + r
    else
      var tail := InsertBox(r[1..], x);
      InsertBoxCons(r[0], tail, r[1..], x);
      [r[0]] + tail
  }

  lemma InsertBoxFront(r: seq<Box>, x: Box)
    requires ByEndOrder(r) && (r == [] || x.end < r[0].end)
    ensures ByEndOrder([x] + r)
  {
    forall j | 0 < j < |r| + 1
      ensures EndsBefore(([x] + r)[0], ([x] + r)[j])
    {
      if j > 1 {
        assert EndsBefore(r[0], r[j - 1]);
      }
    }
  }

  lemma InsertBoxCons(head: Box, tail: seq<Box>, rest: seq<Box>, x: Box)
    requires ByEndOrder(tail) && EndsBefore(head, x)
    requires forall y :: y in rest ==> EndsBefore(head, y)
    requires forall y :: y in tail ==> y in rest || y == x
    ensures ByEndOrder([head] + tail)
  {
    forall i, j | 0 <= i < j < |tail| + 1
      ensures EndsBefore(([head] + tail)[i], ([head] + tail)[j])
    {
      if i == 0 {
        assert tail[j - 1] in tail;
      }
    }
  }

  /** `.sort((a, b) => a.end - b.end)` on boxes listed in increasing gid
      order: the same boxes, ordered by end and, among equal ends, by gid. */
  method SortByEnd(bs: seq<Box>) returns (r: seq<Box>)
    requires forall i, j :: 0 <= i < j < |bs| ==> bs[i].gid < bs[j].gid
    ensures ByEndOrder(r) && |r| == |bs|
    ensures forall b :: b in r <==> b in bs
  {
    r := [];
    for k := 0 to |bs|
      invariant ByEndOrder(r) && |r| == k
      invariant forall b :: b in r <==> b in bs[..k]
    {
      assert forall y :: y in r ==> y.gid < bs[k].gid;
      r := InsertBox(r, bs[k]);
      assert bs[..k + 1] == bs[..k] + [bs[k]];
    }
    assert bs[..|bs|] == bs;
  }

  /** `byEnd` (lines 238-261): a box for every event of `byGid`, with its
      measured width, sorted by end. */
  method ByEnd(byGid: seq<Event>, widths: seq<real>) returns (byEnd: seq<Box>)
    requires |widths| == |byGid|
    requires forall g :: 0 <= g < |byGid| ==> byGid[g].gid == g
    ensures ByEndOrder(byEnd) && |byEnd| == |byGid|
    ensures forall b :: b in byEnd <==> exists g :: 0 <= g < |byGid| && b == MakeBox(byGid[g], widths[g])
  {
    var boxes := [];
    for g := 0 to |byGid|
      invariant |boxes| == g
      invariant forall j :: 0 <= j < g ==> boxes[j] == MakeBox(byGid[j], widths[j])
    {
      boxes := boxes + [MakeBox(byGid[g], widths[g])];
    }
    byEnd := SortByEnd(boxes);
    forall b ensures b in boxes <==> exists g :: 0 <= g < |byGid| && b == MakeBox(byGid[g], widths[g])
    {
      if b in boxes {
        var j :| 0 <= j < |boxes| && boxes[j] == b;
      }
    }
  }

  /** The gids of the steps of `lin` (`globalized`). */
  function Globalize(history: seq<Event>, lin: seq<Step>): (r: seq<nat>)
    requires forall k :: 0 <= k < |lin| ==> lin[k].index < |history|
    ensures |r| == |lin|
  {
    seq(|lin|, k requires 0 <= k < |lin| => history[lin[k].index].gid)
  }

  /** Linearization `lin` of partition `partition`. */
  datatype LinRef = LinRef(partition: nat, lin: nat)

  /** Every step names an event of its partition, and every gid is below
      `nEvents`. */
  predicate StepsIndexed(core: seq<Partition>, nEvents: nat)
  {
    && (forall p, k :: 0 <= p < |core| && 0 <= k < |core[p].history| ==> core[p].history[k].gid < nEvents)
    && (forall p, L, k :: 0 <= p < |core| && 0 <= L < |core[p].lins| && 0 <= k < |core[p].lins[L]| ==>
          core[p].lins[L][k].index < |core[p].history|)
  }

  /** `r` names a linearization of `core`. */
  predicate Owns(core: seq<Partition>, r: LinRef)
  {
    r.partition < |core| && r.lin < |core[r.partition].lins|
  }

  /** Partition order, then linearization order. */
  predicate RefBefore(a: LinRef, b: LinRef)
  {
    a.partition < b.partition || (a.partition == b.partition && a.lin < b.lin)
  }

  /** Some illegal next step of `lin` has gid `g`. */
  predicate IllegalGidIn(history: seq<Event>, lin: seq<Step>, g: nat)
  {
    exists i: nat :: i < |history| && IsIllegalNext(history, lin, i) && history[i].gid == g
  }

  /** Some event listed in `ill` has gid `g`. */
  predicate ListedGid(history: seq<Event>, ill: seq<nat>, g: nat)
  {
    exists a :: 0 <= a < |ill| && ill[a] < |history| && history[ill[a]].gid == g
  }

  /** The event with gid `g` is an illegal next step of linearization `r`. */
  predicate IllegalGid(core: seq<Partition>, r: LinRef, g: nat)
  {
    Owns(core, r) && IllegalGidIn(core[r.partition].history, core[r.partition].lins[r.lin], g)
  }

  /** Event `g` is an illegal next step of linearization number `G`. */
  predicate IllegalLin(core: seq<Partition>, refs: seq<LinRef>, G: nat, g: nat)
  {
    G < |refs| && IllegalGid(core, refs[G], g)
  }

  /** The preprocessing tables for the linearizations `refs` (numbered by
      their position, the `lgid`): `allLins` holds their gids, `steps[g]`
      the positions at which event `g` occurs, and `illegal[g]` the
      linearizations the event is an illegal next step of. */
  ghost predicate TablesFor(core: seq<Partition>, nEvents: nat, refs: seq<LinRef>, allLins: seq<seq<nat>>,
                            steps: seq<seq<LinPos>>, illegal: seq<seq<nat>>)
  {
    && StepsIndexed(core, nEvents)
    && |refs| == |allLins| && |steps| == |illegal| == nEvents
    && (forall G :: 0 <= G < |refs| ==>
          Owns(core, refs[G]) &&
          allLins[G] == Globalize(core[refs[G].partition].history, core[refs[G].partition].lins[refs[G].lin]))
    && (forall g: nat, li: LinPos :: g < nEvents ==>
          (li in steps[g] <==> li.index < |allLins| && li.position < |allLins[li.index]| && allLins[li.index][li.position] == g))
    && (forall g: nat, G: nat :: g < nEvents ==> (G in illegal[g] <==> IllegalLin(core, refs, G, g)))
  }

  /** The `lin.forEach` of the preprocessing: the gids of `lin`, and
      `eventToLinearizations` with the positions of linearization `lgid`
      added. */
  method GlobalizeLin(history: seq<Event>, lin: seq<Step>, nEvents: nat, lgid: nat, steps: seq<seq<LinPos>>)
    returns (globalized: seq<nat>, steps': seq<seq<LinPos>>)
    requires |steps| == nEvents
    requires forall k :: 0 <= k < |history| ==> history[k].gid < nEvents
    requires forall k :: 0 <= k < |lin| ==> lin[k].index < |history|
    ensures globalized == Globalize(history, lin) && |steps'| == nEvents
    ensures forall g: nat, li: LinPos :: g < nEvents ==>
      (li in steps'[g] <==> li in steps[g] || (li.index == lgid && li.position < |lin| && globalized[li.position] == g))
  {
    globalized := [];
    steps' := steps;
    for position := 0 to |lin|
      invariant |globalized| == position && |steps'| == nEvents
      invariant forall k :: 0 <= k < position ==> globalized[k] == history[lin[k].index].gid
      invariant forall g: nat, li: LinPos :: g < nEvents ==>
        (li in steps'[g] <==> li in steps[g] || (li.index == lgid && li.position < position && globalized[li.position] == g))
    {
      var gid := history[lin[position].index].gid;
      globalized := globalized + [gid];
      steps' := steps'[gid := steps'[gid] + [LinPos(lgid, position)]];
    }
  }

  /** The `minEnd` filter of the preprocessing: `lgid` is added to
      `eventIllegalLast` of every illegal next step of `lin`. */
  method RecordIllegal(history: seq<Event>, lin: seq<Step>, nEvents: nat, lgid: nat, illegal: seq<seq<nat>>)
    returns (illegal': seq<seq<nat>>)
    requires |illegal| == nEvents
    requires forall k :: 0 <= k < |history| ==> history[k].gid < nEvents
    ensures |illegal'| == nEvents
    ensures forall g: nat, G: nat :: g < nEvents ==>
      (G in illegal'[g] <==>
        G in illegal[g] || (G == lgid && IllegalGidIn(history, lin, g)))
  {
    var ill := IllegalNext(history, lin);
    forall a | 0 <= a < |ill| ensures ill[a] < |history| {
      assert ill[a] in ill;
    }
    illegal' := illegal;
    for j := 0 to |ill|
      invariant |illegal'| == nEvents
      invariant forall g: nat, G: nat :: g < nEvents ==>
        (G in illegal'[g] <==> G in illegal[g] || (G == lgid && ListedGid(history, ill[..j], g)))
    {
      assert ill[j] in ill;
      illegal' := illegal'[history[ill[j]].gid := illegal'[history[ill[j]].gid] + [lgid]];
    }
    assert ill[..|ill|] == ill;
    forall g: nat | g < nEvents
      ensures ListedGid(history, ill, g) <==> IllegalGidIn(history, lin, g)
    {
      if i: nat :| i < |history| && IsIllegalNext(history, lin, i) && history[i].gid == g {
        assert i in ill;
      }
      if a :| 0 <= a < |ill| && ill[a] < |history| && history[ill[a]].gid == g {
        assert ill[a] in ill;
      }
    }
  }

  /** The preprocessing for the layout (lines 262-290): linearizations are
      numbered in partition order, then in order within their partition;
      `allLins[lgid]` holds the gids of linearization `lgid`,
      `steps[g]` the positions of event `g`, and `illegal[g]` the
      linearizations the event is an illegal next step of. `refs` says which
      linearization each `lgid` is. */
  method Preprocess(core: seq<Partition>, nEvents: nat)
    returns (allLins: seq<seq<nat>>, steps: seq<seq<LinPos>>, illegal: seq<seq<nat>>, ghost refs: seq<LinRef>)
    requires StepsIndexed(core, nEvents)
    ensures TablesFor(core, nEvents, refs, allLins, steps, illegal)
    ensures forall G, H :: 0 <= G < H < |refs| ==> RefBefore(refs[G], refs[H])
    ensures forall p, L :: 0 <= p < |core| && 0 <= L < |core[p].lins| ==> LinRef(p, L) in refs
  {
    allLins, refs := [], [];
    steps := seq(nEvents, _ => []);
    illegal := seq(nEvents, _ => []);
    for p := 0 to |core|
      invariant TablesFor(core, nEvents, refs, allLins, steps, illegal)
      invariant NumberedBefore(core, refs, LinRef(p, 0))
    {
      var part := core[p];
      for L := 0 to |part.lins|
        invariant TablesFor(core, nEvents, refs, allLins, steps, illegal)
        invariant NumberedBefore(core, refs, LinRef(p, L))
      {
        var lgid := |allLins|;
        var globalized, steps' := GlobalizeLin(part.history, part.lins[L], nEvents, lgid, steps);
        var illegal' := RecordIllegal(part.history, part.lins[L], nEvents, lgid, illegal);
        AddLinearization(core, nEvents, refs, allLins, steps, illegal, LinRef(p, L), globalized, steps', illegal');
        NumberNext(core, refs, p, L);
        allLins, steps, illegal, refs := allLins + [globalized], steps', illegal', refs + [LinRef(p, L)];
      }
      NextPartition(core, refs, p);
    }
    NumberedAll(core, refs);
  }

  /** `refs` numbers, in order, exactly the linearizations of `core` that
      come before `next`. */
  predicate NumberedBefore(core: seq<Partition>, refs: seq<LinRef>, next: LinRef)
  {
    && (forall G, H :: 0 <= G < H < |refs| ==> RefBefore(refs[G], refs[H]))
    && (forall G :: 0 <= G < |refs| ==> RefBefore(refs[G], next))
    && (forall q, M :: 0 <= q < |core| && 0 <= M < |core[q].lins| && RefBefore(LinRef(q, M), next) ==>
          LinRef(q, M) in refs)
  }

  /** Numbering linearization `L` of partition `p` moves on to the next. */
  lemma NumberNext(core: seq<Partition>, refs: seq<LinRef>, p: nat, L: nat)
    requires NumberedBefore(core, refs, LinRef(p, L))
    ensures NumberedBefore(core, refs + [LinRef(p, L)], LinRef(p, L + 1))
  {
    var refs' := refs + [LinRef(p, L)];
    forall q, M | 0 <= q < |core| && 0 <= M < |core[q].lins| && RefBefore(LinRef(q, M), LinRef(p, L + 1))
      ensures LinRef(q, M) in refs'
    {
      if LinRef(q, M) != LinRef(p, L) {
        assert LinRef(q, M) in refs;
      }
    }
  }

  /** After the last linearization of partition `p` comes partition `p + 1`. */
  lemma NextPartition(core: seq<Partition>, refs: seq<LinRef>, p: nat)
    requires p < |core| && NumberedBefore(core, refs, LinRef(p, |core[p].lins|))
    ensures NumberedBefore(core, refs, LinRef(p + 1, 0))
  {
  }

  /** After the last partition every linearization is numbered. */
  lemma NumberedAll(core: seq<Partition>, refs: seq<LinRef>)
    requires NumberedBefore(core, refs, LinRef(|core|, 0))
    ensures forall G, H :: 0 <= G < H < |refs| ==> RefBefore(refs[G], refs[H])
    ensures forall p, L :: 0 <= p < |core| && 0 <= L < |core[p].lins| ==> LinRef(p, L) in refs
  {
  }

  /** Numbering linearization `r` next keeps the tables right. */
  lemma AddLinearization(core: seq<Partition>, nEvents: nat, refs: seq<LinRef>, allLins: seq<seq<nat>>,
                         steps: seq<seq<LinPos>>, illegal: seq<seq<nat>>, r: LinRef,
                         globalized: seq<nat>, steps': seq<seq<LinPos>>, illegal': seq<seq<nat>>)
    requires TablesFor(core, nEvents, refs, allLins, steps, illegal) && Owns(core, r)
    requires globalized == Globalize(core[r.partition].history, core[r.partition].lins[r.lin])
    requires |steps'| == |illegal'| == nEvents
    requires forall g: nat, li: LinPos :: g < nEvents ==>
      (li in steps'[g] <==> li in steps[g] || (li.index == |allLins| && li.position < |globalized| && globalized[li.position] == g))
    requires forall g: nat, G: nat :: g < nEvents ==>
      (G in illegal'[g] <==> G in illegal[g] || (G == |allLins| && IllegalGid(core, r, g)))
    ensures TablesFor(core, nEvents, refs + [r], allLins + [globalized], steps', illegal')
  {
    var refs', allLins' := refs + [r], allLins + [globalized];
    forall G | 0 <= G < |refs'|
      ensures Owns(core, refs'[G])
      ensures allLins'[G] == Globalize(core[refs'[G].partition].history, core[refs'[G].partition].lins[refs'[G].lin])
    {
      if G < |refs| {
        assert refs'[G] == refs[G] && allLins'[G] == allLins[G];
      }
    }
    forall g: nat, li: LinPos | g < nEvents
      ensures li in steps'[g] <==>
        li.index < |allLins'| && li.position < |allLins'[li.index]| && allLins'[li.index][li.position] == g
    {
      if li.index < |allLins| {
        assert allLins'[li.index] == allLins[li.index];
      }
    }
    forall g: nat, G: nat | g < nEvents
      ensures G in illegal'[g] <==> IllegalLin(core, refs', G, g)
    {
      assert G in illegal[g] <==> IllegalLin(core, refs, G, g);
      if G < |refs| {
        assert refs'[G] == refs[G];
      } else if G == |refs| {
        assert refs'[G] == r;
      }
    }
  }

  /** A linearization listed for event `g` in `illegal` has `g` as an
      illegal next step. */
  lemma IllegalListed(core: seq<Partition>, nEvents: nat, refs: seq<LinRef>, allLins: seq<seq<nat>>,
                      steps: seq<seq<LinPos>>, illegal: seq<seq<nat>>, g: nat, G: nat)
    requires TablesFor(core, nEvents, refs, allLins, steps, illegal)
    requires g < |illegal| && G in illegal[g]
    ensures IllegalLin(core, refs, G, g)
  {
  }
}
