/** Input normalisation at the start of `render` (visualization/index.js,
    lines 65-200): synthetic client ids for annotation tags, dense global ids,
    the timestamp sets, and the epsilon tie breaking that makes touching
    intervals overlap (operations) or separate (annotations).

    The source edits the event records in place; here every pass takes the
    histories and returns the edited copies, and `byGid` is rebuilt from the
    final histories (in the source it holds the very same records). */
module Normalize {
  import opened Timeline
  import opened Ordering

  /** The histories of the partitions. */
  function Histories(core: seq<Partition>): seq<seq<Event>>
  {
    seq(|core|, p requires 0 <= p < |core| => core[p].history)
  }

  /** `allData`: the partitions' histories, then the annotations as one more
      history (line 68). */
  function AllData(core: seq<Partition>, annotations: seq<Event>): seq<seq<Event>>
  {
    Histories(core) + [annotations]
  }

  /** All histories one after the other, in visiting order. */
  function Flatten(hs: seq<seq<Event>>): seq<Event>
    decreases |hs|
  {
    if hs == [] then [] else Flatten(hs[..|hs| - 1]) + hs[|hs| - 1]
  }

  lemma FlattenSnoc(hs: seq<seq<Event>>, p: nat)
    requires p < |hs|
    ensures Flatten(hs[..p + 1]) == Flatten(hs[..p]) + hs[p]
  {
    assert hs[..p + 1][..p] == hs[..p];
  }

  /** The last history: the annotations. */
  function Last(hs: seq<seq<Event>>): seq<Event>
    requires |hs| > 0
  {
    hs[|hs| - 1]
  }

  /** The gid of the first event of history `p`. */
  function Offset(hs: seq<seq<Event>>, p: nat): nat
    requires p <= |hs|
  {
    |Flatten(hs[..p])|
  }

  /** Position `(q, j)` is visited before position `(p, k)`. */
  predicate Visited(hs: seq<seq<Event>>, q: int, j: int, p: int, k: int)
  {
    0 <= q < |hs| && 0 <= j < |hs[q]| && (q < p || (q == p && j < k))
  }

  /** Some event visited before `(p, k)` starts at `t`. */
  ghost predicate StartSeen(hs: seq<seq<Event>>, t: real, p: int, k: int)
  {
    exists q, j :: Visited(hs, q, j, p, k) && hs[q][j].start == t
  }

  /** Some event visited before `(p, k)` ends at `t`. */
  ghost predicate EndSeen(hs: seq<seq<Event>>, t: real, p: int, k: int)
  {
    exists q, j :: Visited(hs, q, j, p, k) && hs[q][j].end == t
  }

  /** `t` is in `startTimestamps`. */
  ghost predicate IsStart(hs: seq<seq<Event>>, t: real)
  {
    StartSeen(hs, t, |hs|, 0)
  }

  /** `t` is in `endTimestamps`. */
  ghost predicate IsEnd(hs: seq<seq<Event>>, t: real)
  {
    EndSeen(hs, t, |hs|, 0)
  }

  /** `t` is an original timestamp of `hs`. */
  ghost predicate IsStamp(hs: seq<seq<Event>>, t: real)
  {
    IsStart(hs, t) || IsEnd(hs, t)
  }

  /** The tag of an annotation; operations have none. */
  function TagOf(e: Event): string
  {
    if e.kind.Annotation? then e.kind.tag else ""
  }

  /** `t` is a non-empty tag of some annotation. */
  ghost predicate HasTag(annotations: seq<Event>, t: string)
  {
    t != "" && exists k :: 0 <= k < |annotations| && TagOf(annotations[k]) == t
  }

  /** `tag2ClientId` numbers the sorted tags consecutively from `base + 1`. */
  ghost predicate Numbered(sorted: seq<string>, tag2: map<string, int>, base: int)
  {
    && (forall t :: t in tag2 <==> t in sorted)
    && (forall j :: 0 <= j < |sorted| ==> sorted[j] in tag2 && tag2[sorted[j]] == base + 1 + j)
  }

  /** `a` has no tag or a numbered one. */
  predicate Labelled(a: Event, tag2: map<string, int>)
  {
    TagOf(a) == "" || TagOf(a) in tag2
  }

  /** An annotation moved to its tag's client; without a tag it keeps its
      own. */
  function Relabel(a: Event, tag2: map<string, int>): Event
    requires Labelled(a, tag2)
  {
    if TagOf(a) == "" then a else a.(clientId := tag2[TagOf(a)])
  }

  /** The largest client id of any event, or -1 (lines 70-75). */
  method MaxClient(hs: seq<seq<Event>>) returns (m: int)
    ensures m >= -1
    ensures forall e :: e in Flatten(hs) ==> e.clientId <= m
    ensures m == -1 || exists e :: e in Flatten(hs) && e.clientId == m
  {
    m := -1;
    for p := 0 to |hs|
      invariant m >= -1
      invariant forall e :: e in Flatten(hs[..p]) ==> e.clientId <= m
      invariant m == -1 || exists e :: e in Flatten(hs[..p]) && e.clientId == m
    {
      FlattenSnoc(hs, p);
      ghost var seen := Flatten(hs[..p]);
      for k := 0 to |hs[p]|
        invariant m >= -1
        invariant forall e :: e in seen + hs[p][..k] ==> e.clientId <= m
        invariant m == -1 || exists e :: e in seen + hs[p][..k] && e.clientId == m
      {
        assert seen + hs[p][..k + 1] == (seen + hs[p][..k]) + [hs[p][k]];
        if m < hs[p][k].clientId {
          m := hs[p][k].clientId;
        }
      }
      assert hs[p][..|hs[p]|] == hs[p];
    }
    assert hs[..|hs|] == hs;
  }

  /** The distinct non-empty tags, in order of first appearance (lines
      79-85). */
  method CollectTags(annotations: seq<Event>) returns (tags: seq<string>)
    ensures forall t :: t in tags <==> HasTag(annotations, t)
  {
    tags := [];
    for k := 0 to |annotations|
      invariant forall t :: t in tags <==> t != "" && exists i :: 0 <= i < k && TagOf(annotations[i]) == t
    {
      var tag := TagOf(annotations[k]);
      if |tag| != 0 {
        tags := SetAdd(tags, tag);
      }
    }
  }

  /** Gives the sorted tags the client ids after `base` (lines 87-92). */
  method NumberTags(sorted: seq<string>, base: int) returns (tag2: map<string, int>, maxClient: int)
    requires StrSorted(sorted)
    ensures Numbered(sorted, tag2, base)
    ensures maxClient == base + |sorted|
  {
    tag2 := map[];
    maxClient := base;
    for j := 0 to |sorted|
      invariant maxClient == base + j
      invariant forall t :: t in tag2 <==> t in sorted[..j]
      invariant forall i :: 0 <= i < j ==> sorted[i] in tag2 && tag2[sorted[i]] == base + 1 + i
    {
      forall i | 0 <= i < j
        ensures sorted[i] != sorted[j]
      {
        StrSortedIndexOrder(sorted, i, j);
      }
      maxClient := maxClient + 1;
      tag2 := tag2[sorted[j] := maxClient];
      assert sorted[..j + 1] == sorted[..j] + [sorted[j]];
    }
    assert sorted[..|sorted|] == sorted;
  }

  /** Moves every annotation with a non-empty tag to its tag's client
      (lines 93-98). */
  method RelabelAnnotations(annotations: seq<Event>, tag2: map<string, int>) returns (r: seq<Event>)
    requires forall k :: 0 <= k < |annotations| ==> Labelled(annotations[k], tag2)
    ensures |r| == |annotations|
    ensures forall k :: 0 <= k < |r| ==> r[k] == Relabel(annotations[k], tag2)
  {
    r := [];
    for k := 0 to |annotations|
      invariant |r| == k
      invariant forall i :: 0 <= i < k ==> r[i] == Relabel(annotations[i], tag2)
    {
      var annot := annotations[k];
      var tag := TagOf(annot);
      if |tag| != 0 {
        annot := annot.(clientId := tag2[tag]);
      }
      r := r + [annot];
    }
  }

  /** Lines 76-100: each distinct non-empty tag becomes a client after the
      real ones, in sorted order; `nClient` counts real and synthetic
      clients. */
  method TagClients(annotations: seq<Event>, maxClient: int)
    returns (r: seq<Event>, sorted: seq<string>, tag2: map<string, int>, nClient: int)
    ensures StrSorted(sorted)
    ensures forall t :: t in sorted <==> HasTag(annotations, t)
    ensures Numbered(sorted, tag2, maxClient)
    ensures nClient == maxClient + 1 + |sorted|
    ensures forall k :: 0 <= k < |annotations| ==> Labelled(annotations[k], tag2)
    ensures |r| == |annotations|
    ensures forall k :: 0 <= k < |r| ==> r[k] == Relabel(annotations[k], tag2)
  {
    var tags := CollectTags(annotations);
    sorted := SortStrings(tags);
    var last;
    tag2, last := NumberTags(sorted, maxClient);
    forall k | 0 <= k < |annotations|
      ensures Labelled(annotations[k], tag2)
    {
      if TagOf(annotations[k]) != "" {
        assert HasTag(annotations, TagOf(annotations[k]));
      }
    }
    r := RelabelAnnotations(annotations, tag2);
    nClient := last + 1;
  }

  /** Tag client ids lie after the real clients, are distinct for distinct
      tags, and follow the string order of the tags. */
  lemma TagIdsRanked(sorted: seq<string>, tag2: map<string, int>, base: int, t1: string, t2: string)
    requires StrSorted(sorted) && Numbered(sorted, tag2, base)
    requires t1 in tag2 && t2 in tag2
    ensures base < tag2[t1] <= base + |sorted|
    ensures StrLess(t1, t2) <==> tag2[t1] < tag2[t2]
    ensures t1 == t2 <==> tag2[t1] == tag2[t2]
  {
    var i :| 0 <= i < |sorted| && sorted[i] == t1;
    var j :| 0 <= j < |sorted| && sorted[j] == t2;
    StrSortedIndexOrder(sorted, i, j);
  }

  /** `allTimestamps`, `startTimestamps` and `endTimestamps`. */
  datatype Stamps = Stamps(all: seq<real>, starts: set<real>, ends: set<real>)

  /** The sets hold the timestamps of the events visited before `(p, k)`. */
  ghost predicate StampedUpTo(hs: seq<seq<Event>>, st: Stamps, p: int, k: int)
  {
    && (forall t :: t in st.starts <==> StartSeen(hs, t, p, k))
    && (forall t :: t in st.ends <==> EndSeen(hs, t, p, k))
    && (forall t :: t in st.all <==> t in st.starts || t in st.ends)
  }

  /** The events of `out` are those of `hs` numbered in visiting order. */
  predicate NumberedUpTo(hs: seq<seq<Event>>, out: seq<seq<Event>>, p: nat)
    requires p <= |hs|
  {
    && |out| == p
    && (forall q :: 0 <= q < p ==> |out[q]| == |hs[q]|)
    && (forall q, j :: 0 <= q < p && 0 <= j < |hs[q]| ==> out[q][j] == hs[q][j].(gid := Offset(hs, q) + j))
  }

  /** Every event of `byGid` sits at its own gid. */
  predicate Dense(byGid: seq<Event>)
  {
    forall g :: 0 <= g < |byGid| ==> byGid[g].gid == g
  }

  /** Records the timestamps of the event at `(p, k)` (lines 114-117). */
  method RecordEvent(hs: seq<seq<Event>>, st: Stamps, p: nat, k: nat) returns (st': Stamps)
    requires p < |hs| && k < |hs[p]| && StampedUpTo(hs, st, p, k)
    ensures StampedUpTo(hs, st', p, k + 1)
  {
    var el := hs[p][k];
    st' := Stamps(SetAdd(SetAdd(st.all, el.start), el.end), st.starts + {el.start}, st.ends + {el.end});
    assert Visited(hs, p, k, p, k + 1);
  }

  /** Numbers history `p`, whose first event gets gid `|byGid|`, and records
      its timestamps (lines 112-122). */
  method NumberHistory(hs: seq<seq<Event>>, p: nat, byGid: seq<Event>, st: Stamps)
    returns (h: seq<Event>, byGid': seq<Event>, st': Stamps)
    requires p < |hs| && StampedUpTo(hs, st, p, 0) && Dense(byGid)
    ensures |h| == |hs[p]|
    ensures forall j :: 0 <= j < |h| ==> h[j] == hs[p][j].(gid := |byGid| + j)
    ensures byGid' == byGid + h && Dense(byGid')
    ensures StampedUpTo(hs, st', p + 1, 0)
  {
    h, byGid', st' := [], byGid, st;
    for k := 0 to |hs[p]|
      invariant |h| == k
      invariant forall j :: 0 <= j < k ==> h[j] == hs[p][j].(gid := |byGid| + j)
      invariant byGid' == byGid + h && Dense(byGid')
      invariant StampedUpTo(hs, st', p, k)
    {
      st' := RecordEvent(hs, st', p, k);
      var el := hs[p][k].(gid := |byGid'|);
      h := h + [el];
      byGid' := byGid' + [el];
    }
    assert forall t :: StartSeen(hs, t, p, |hs[p]|) <==> StartSeen(hs, t, p + 1, 0);
    assert forall t :: EndSeen(hs, t, p, |hs[p]|) <==> EndSeen(hs, t, p + 1, 0);
  }

  /** Lines 101-123: gids `0 .. n-1` in visiting order (partitions in
      order, annotations last), `byGid` maps each gid to its event, and the
      three timestamp sets. */
  method AssignGids(hs: seq<seq<Event>>) returns (out: seq<seq<Event>>, byGid: seq<Event>, st: Stamps)
    ensures NumberedUpTo(hs, out, |hs|)
    ensures byGid == Flatten(out) && Dense(byGid)
    ensures forall t :: t in st.starts <==> IsStart(hs, t)
    ensures forall t :: t in st.ends <==> IsEnd(hs, t)
    ensures forall t :: t in st.all <==> IsStamp(hs, t)
  {
    out, byGid, st := [], [], Stamps([], {}, {});
    for p := 0 to |hs|
      invariant NumberedUpTo(hs, out, p)
      invariant byGid == Flatten(out) && Dense(byGid)
      invariant |byGid| == Offset(hs, p)
      invariant StampedUpTo(hs, st, p, 0)
    {
      var h;
      h, byGid, st := NumberHistory(hs, p, byGid, st);
      assert (out + [h])[..p] == out;
      FlattenSnoc(hs, p);
      out := out + [h];
    }
  }

  /** `minDelta` (lines 137-144): the smallest gap between neighbours, or
      `None` (infinity) when there are fewer than two timestamps. */
  method MinGap(ts: seq<real>) returns (d: Option<real>)
    ensures d.None? <==> |ts| < 2
    ensures d.Some? ==> exists i :: 0 <= i < |ts| - 1 && d.value == ts[i + 1] - ts[i]
    ensures d.Some? ==> forall i :: 0 <= i < |ts| - 1 ==> d.value <= ts[i + 1] - ts[i]
  {
    d := None;
    var i := 0;
    while i + 1 < |ts|
      invariant 0 <= i && (i == 0 || i < |ts|)
      invariant d.None? <==> i == 0
      invariant d.Some? ==> exists j :: 0 <= j < i && d.value == ts[j + 1] - ts[j]
      invariant d.Some? ==> forall j :: 0 <= j < i ==> d.value <= ts[j + 1] - ts[j]
    {
      var delta := ts[i + 1] - ts[i];
      if d.None? || delta < d.value {
        d := Some(delta);
      }
      i := i + 1;
    }
  }

  /** In a strictly increasing sequence, the smallest neighbour gap is
      positive and bounds the distance of any two elements. */
  lemma GapBound(ts: seq<real>, d: real)
    requires Increasing(ts)
    requires exists i :: 0 <= i < |ts| - 1 && d == ts[i + 1] - ts[i]
    requires forall i :: 0 <= i < |ts| - 1 ==> d <= ts[i + 1] - ts[i]
    ensures d > 0.0
    ensures forall i, j :: 0 <= i < j < |ts| ==> ts[j] - ts[i] >= d
  {
    forall i, j | 0 <= i < j < |ts|
      ensures ts[j] - ts[i] >= d
    {
      assert d <= ts[j] - ts[j - 1];
      if i < j - 1 {
        assert ts[i] < ts[j - 1];
      }
    }
  }

  /** Every start and end of `hs` is in `all`. */
  ghost predicate Covered(hs: seq<seq<Event>>, all: seq<real>)
  {
    forall q, j :: 0 <= q < |hs| && 0 <= j < |hs[q]| ==> hs[q][j].start in all && hs[q][j].end in all
  }

  /** An operation after the tie-breaking pass (lines 150-157): its end
      moves `eps` to the right when it equals some start, and the end it had
      is kept for display. */
  function AdjustOperation(e: Event, starts: set<real>, eps: real): Event
  {
    e.(originalEnd := Some(e.end), end := if e.end in starts then e.end + eps else e.end)
  }

  /** An annotation after lines 179-197: a point annotation gets a quarter
      epsilon of length; otherwise an end touching a start moves half an
      epsilon left and a start touching an end half an epsilon right. */
  function AdjustAnnotation(e: Event, starts: set<real>, ends: set<real>, eps: real): Event
  {
    if e.end == e.start then e.(end := e.end + eps / 4.0)
    else e.(start := if e.start in ends then e.start + eps / 2.0 else e.start,
            end := if e.end in starts then e.end - eps / 2.0 else e.end)
  }

  /** The operations of one history through the tie-breaking pass: the loop
      applies `AdjustOperation` to each event in turn. */
  method AdjustHistory(h: seq<Event>, starts: set<real>, eps: real, all: seq<real>)
    returns (h': seq<Event>, all': seq<real>)
    requires forall j :: 0 <= j < |h| ==> h[j].end in all
    ensures |h'| == |h|
    ensures forall j :: 0 <= j < |h| ==> h'[j] == AdjustOperation(h[j], starts, eps)
    ensures forall t :: t in all' <==> t in all || exists j :: 0 <= j < |h'| && h'[j].end == t
  {
    h', all' := [], all;
    for k := 0 to |h|
      invariant |h'| == k
      invariant forall j :: 0 <= j < k ==> h'[j] == AdjustOperation(h[j], starts, eps)
      invariant forall t :: t in all' <==> t in all || exists j :: 0 <= j < k && h'[j].end == t
    {
      var el := h[k];
      var end := el.end;
      el := el.(originalEnd := Some(end));
      if end in starts {
        el := el.(end := end + eps);
        all' := SetAdd(all', el.end);
      }
      h' := h' + [el];
    }
  }

  /** Lines 147-159: every history but the last (the annotations) through
      the tie-breaking pass; new ends join `allTimestamps`. */
  method AdjustOperations(hs: seq<seq<Event>>, starts: set<real>, eps: real, all: seq<real>)
    returns (out: seq<seq<Event>>, all': seq<real>)
    requires |hs| > 0
    requires forall q, j :: 0 <= q < |hs| && 0 <= j < |hs[q]| ==> hs[q][j].end in all
    ensures |out| == |hs| && out[|hs| - 1] == hs[|hs| - 1]
    ensures forall q :: 0 <= q < |hs| - 1 ==> |out[q]| == |hs[q]|
    ensures forall q, j :: 0 <= q < |hs| - 1 && 0 <= j < |hs[q]| ==> out[q][j] == AdjustOperation(hs[q][j], starts, eps)
    ensures forall t :: t in all' <==>
      t in all || exists q, j :: 0 <= q < |hs| - 1 && 0 <= j < |out[q]| && out[q][j].end == t
  {
    out, all' := [], all;
    for p := 0 to |hs|
      invariant |out| == p
      invariant forall q :: 0 <= q < p && q < |hs| - 1 ==> |out[q]| == |hs[q]|
      invariant forall q, j :: 0 <= q < p && q < |hs| - 1 && 0 <= j < |hs[q]| ==> out[q][j] == AdjustOperation(hs[q][j], starts, eps)
      invariant p == |hs| ==> out[|hs| - 1] == hs[|hs| - 1]
      invariant forall t :: t in all' <==>
        t in all || exists q, j :: 0 <= q < p && q < |hs| - 1 && 0 <= j < |out[q]| && out[q][j].end == t
    {
      if p == |hs| - 1 {
        out := out + [hs[p]];
      } else {
        var h;
        h, all' := AdjustHistory(hs[p], starts, eps, all');
        out := out + [h];
      }
    }
  }

  /** Lines 179-197: the annotations through their own tie breaking, each by
      `AdjustAnnotation`; new values join `allTimestamps`. */
  method AdjustAnnotations(anns: seq<Event>, starts: set<real>, ends: set<real>, eps: real, all: seq<real>)
    returns (anns': seq<Event>, all': seq<real>)
    requires forall j :: 0 <= j < |anns| ==> anns[j].start in all && anns[j].end in all
    ensures |anns'| == |anns|
    ensures forall j :: 0 <= j < |anns| ==> anns'[j] == AdjustAnnotation(anns[j], starts, ends, eps)
    ensures forall t :: t in all' <==>
      t in all || exists j :: 0 <= j < |anns'| && (anns'[j].start == t || anns'[j].end == t)
  {
    anns', all' := [], all;
    for k := 0 to |anns|
      invariant |anns'| == k
      invariant forall j :: 0 <= j < k ==> anns'[j] == AdjustAnnotation(anns[j], starts, ends, eps)
      invariant forall t :: t in all' <==>
        t in all || exists j :: 0 <= j < k && (anns'[j].start == t || anns'[j].end == t)
    {
      var el := anns[k];
      if el.end == el.start {
        el := el.(end := el.end + eps / 4.0);
        all' := SetAdd(all', el.end);
      } else {
        if el.end in starts {
          el := el.(end := el.end - eps / 2.0);
          all' := SetAdd(all', el.end);
        }
        if el.start in ends {
          el := el.(start := el.start + eps / 2.0);
          all' := SetAdd(all', el.start);
        }
      }
      anns' := anns' + [el];
    }
  }

  /** Two lists of histories of the same lengths. */
  predicate SameShape(hs: seq<seq<Event>>, hs': seq<seq<Event>>)
  {
    |hs| == |hs'| && forall q :: 0 <= q < |hs| ==> |hs[q]| == |hs'[q]|
  }

  /** Same shape and the same times at every position. */
  predicate SameTimes(hs: seq<seq<Event>>, hs': seq<seq<Event>>)
  {
    SameShape(hs, hs') &&
    forall q, j :: 0 <= q < |hs| && 0 <= j < |hs[q]| ==>
      hs[q][j].start == hs'[q][j].start && hs[q][j].end == hs'[q][j].end
  }

  /** Same shape and the same gids at every position. */
  predicate SameGids(hs: seq<seq<Event>>, hs': seq<seq<Event>>)
  {
    SameShape(hs, hs') &&
    forall q, j :: 0 <= q < |hs| && 0 <= j < |hs[q]| ==> hs[q][j].gid == hs'[q][j].gid
  }

  lemma {:induction false} OffsetShape(hs: seq<seq<Event>>, hs': seq<seq<Event>>, p: nat)
    requires SameShape(hs, hs') && p <= |hs|
    ensures Offset(hs, p) == Offset(hs', p)
    decreases p
  {
    if p > 0 {
      OffsetShape(hs, hs', p - 1);
      FlattenSnoc(hs, p - 1);
      FlattenSnoc(hs', p - 1);
    }
  }

  lemma {:induction false} FlattenGids(hs: seq<seq<Event>>, hs': seq<seq<Event>>)
    requires SameGids(hs, hs')
    ensures |Flatten(hs)| == |Flatten(hs')|
    ensures forall g :: 0 <= g < |Flatten(hs)| ==> Flatten(hs)[g].gid == Flatten(hs')[g].gid
    decreases |hs|
  {
    if hs != [] {
      var n := |hs| - 1;
      assert SameGids(hs[..n], hs'[..n]);
      FlattenGids(hs[..n], hs'[..n]);
    }
  }

  lemma SameStamps(hs: seq<seq<Event>>, hs': seq<seq<Event>>)
    requires SameTimes(hs, hs')
    ensures forall t :: IsStart(hs, t) <==> IsStart(hs', t)
    ensures forall t :: IsEnd(hs, t) <==> IsEnd(hs', t)
  {
    forall t | IsStart(hs, t)
      ensures IsStart(hs', t)
    {
      var q, j :| Visited(hs, q, j, |hs|, 0) && hs[q][j].start == t;
      assert Visited(hs', q, j, |hs'|, 0);
    }
    forall t | IsStart(hs', t)
      ensures IsStart(hs, t)
    {
      var q, j :| Visited(hs', q, j, |hs'|, 0) && hs'[q][j].start == t;
      assert Visited(hs, q, j, |hs|, 0);
    }
    forall t | IsEnd(hs, t)
      ensures IsEnd(hs', t)
    {
      var q, j :| Visited(hs, q, j, |hs|, 0) && hs[q][j].end == t;
      assert Visited(hs', q, j, |hs'|, 0);
    }
    forall t | IsEnd(hs', t)
      ensures IsEnd(hs, t)
    {
      var q, j :| Visited(hs', q, j, |hs'|, 0) && hs'[q][j].end == t;
      assert Visited(hs, q, j, |hs|, 0);
    }
  }

  /** Distinct timestamps of `hs` are at least `3 * eps` apart. */
  ghost predicate Separated(hs: seq<seq<Event>>, eps: real)
  {
    eps > 0.0 && forall a, b :: IsStamp(hs, a) && IsStamp(hs, b) && a < b ==> b - a >= 3.0 * eps
  }

  /** At least two distinct timestamps: otherwise `minDelta` stays
      infinite. */
  ghost predicate TwoStamps(hs: seq<seq<Event>>)
  {
    exists a, b :: IsStamp(hs, a) && IsStamp(hs, b) && a != b
  }

  /** What `render` has made of its input by line 200. */
  datatype Normalized = Normalized(
    allData: seq<seq<Event>>,
    byGid: seq<Event>,
    timestamps: seq<real>,
    starts: set<real>,
    ends: set<real>,
    sortedTags: seq<string>,
    tag2: map<string, int>,
    realClients: int,
    nClient: int,
    epsilon: real)

  /** The outcome of lines 70-200 on `core` and `annotations`. */
  ghost predicate NormalizedFrom(core: seq<Partition>, annotations: seq<Event>, n: Normalized)
  {
    && GidsAssigned(core, annotations, n)
    && ClientsAssigned(core, annotations, n)
    && StampsRecorded(core, annotations, n)
    && EventsAdjusted(core, annotations, n)
    && StampsResorted(core, annotations, n)
  }

  /** Same shape as the input, and `byGid` lists the events in gid order. */
  ghost predicate GidsAssigned(core: seq<Partition>, annotations: seq<Event>, n: Normalized)
  {
    && SameShape(AllData(core, annotations), n.allData)
    && n.byGid == Flatten(n.allData) && Dense(n.byGid)
  }

  /** The real clients and the clients numbered after them for the tags. */
  ghost predicate ClientsAssigned(core: seq<Partition>, annotations: seq<Event>, n: Normalized)
  {
    var hs := AllData(core, annotations);
    && n.realClients >= 0
    && (forall e :: e in Flatten(hs) ==> e.clientId < n.realClients)
    && (n.realClients == 0 || exists e :: e in Flatten(hs) && e.clientId == n.realClients - 1)
    && StrSorted(n.sortedTags)
    && (forall t :: t in n.sortedTags <==> HasTag(annotations, t))
    && Numbered(n.sortedTags, n.tag2, n.realClients - 1)
    && n.nClient == n.realClients + |n.sortedTags|
  }

  /** The timestamp sets of the gid pass and the epsilon of the smallest gap. */
  ghost predicate StampsRecorded(core: seq<Partition>, annotations: seq<Event>, n: Normalized)
  {
    var hs := AllData(core, annotations);
    && (forall t :: t in n.starts <==> IsStart(hs, t))
    && (forall t :: t in n.ends <==> IsEnd(hs, t))
    && Separated(hs, n.epsilon)
    && (exists a, b :: IsStamp(hs, a) && IsStamp(hs, b) && b - a == 3.0 * n.epsilon)
  }

  /** Every event after its numbering, relabelling and nudges. */
  ghost predicate EventsAdjusted(core: seq<Partition>, annotations: seq<Event>, n: Normalized)
  {
    var hs := AllData(core, annotations);
    && SameShape(hs, n.allData)
    && (forall p, k :: 0 <= p < |core| && 0 <= k < |hs[p]| ==>
          n.allData[p][k] == AdjustOperation(hs[p][k].(gid := Offset(hs, p) + k), n.starts, n.epsilon))
    && (forall k :: 0 <= k < |annotations| ==>
          Labelled(annotations[k], n.tag2) &&
          n.allData[|core|][k] == AdjustAnnotation(
            Relabel(annotations[k], n.tag2).(gid := Offset(hs, |core|) + k), n.starts, n.ends, n.epsilon))
  }

  /** The re-sorted timestamps. */
  ghost predicate StampsResorted(core: seq<Partition>, annotations: seq<Event>, n: Normalized)
  {
    var hs := AllData(core, annotations);
    && Increasing(n.timestamps)
    && (forall t :: t in n.timestamps <==> IsStamp(hs, t) || IsStamp(n.allData, t))
  }

  /** The events as the gid pass leaves them: numbered in visiting order,
      annotations already on their tag's client. */
  ghost predicate NumberedFrom(core: seq<Partition>, annotations: seq<Event>, tag2: map<string, int>,
                               numbered: seq<seq<Event>>)
  {
    var hs := AllData(core, annotations);
    && SameShape(hs, numbered)
    && (forall p, k :: 0 <= p < |core| && 0 <= k < |hs[p]| ==>
          numbered[p][k] == hs[p][k].(gid := Offset(hs, p) + k))
    && (forall k :: 0 <= k < |annotations| ==>
          Labelled(annotations[k], tag2) &&
          numbered[|core|][k] == Relabel(annotations[k], tag2).(gid := Offset(hs, |core|) + k))
  }

  /** Lines 70-100: the real clients, then one synthetic client per tag. */
  method Clients(core: seq<Partition>, annotations: seq<Event>)
    returns (anns: seq<Event>, sortedTags: seq<string>, tag2: map<string, int>, realClients: int, nClient: int)
    ensures var hs := AllData(core, annotations);
      && realClients >= 0
      && (forall e :: e in Flatten(hs) ==> e.clientId < realClients)
      && (realClients == 0 || exists e :: e in Flatten(hs) && e.clientId == realClients - 1)
    ensures StrSorted(sortedTags)
    ensures forall t :: t in sortedTags <==> HasTag(annotations, t)
    ensures Numbered(sortedTags, tag2, realClients - 1)
    ensures nClient == realClients + |sortedTags|
    ensures |anns| == |annotations|
    ensures forall k :: 0 <= k < |annotations| ==> Labelled(annotations[k], tag2) && anns[k] == Relabel(annotations[k], tag2)
  {
    var maxClient := MaxClient(AllData(core, annotations));
    anns, sortedTags, tag2, nClient := TagClients(annotations, maxClient);
    realClients := maxClient + 1;
  }

  /** Lines 65-146: client ids, gids, the timestamp sets and epsilon. */
  method Prepare(core: seq<Partition>, annotations: seq<Event>)
    returns (numbered: seq<seq<Event>>, st: Stamps, sortedTags: seq<string>, tag2: map<string, int>,
             realClients: int, nClient: int, eps: real)
    requires TwoStamps(AllData(core, annotations))
    ensures var hs := AllData(core, annotations);
      && realClients >= 0
      && (forall e :: e in Flatten(hs) ==> e.clientId < realClients)
      && (realClients == 0 || exists e :: e in Flatten(hs) && e.clientId == realClients - 1)
      && StrSorted(sortedTags)
      && (forall t :: t in sortedTags <==> HasTag(annotations, t))
      && Numbered(sortedTags, tag2, realClients - 1)
      && nClient == realClients + |sortedTags|
      && NumberedFrom(core, annotations, tag2, numbered)
      && Dense(Flatten(numbered))
      && (forall t :: t in st.starts <==> IsStart(hs, t))
      && (forall t :: t in st.ends <==> IsEnd(hs, t))
      && (forall t :: t in st.all <==> IsStamp(hs, t))
      && Covered(numbered, st.all)
      && Separated(hs, eps)
      && (exists a, b :: IsStamp(hs, a) && IsStamp(hs, b) && b - a == 3.0 * eps)
  {
    var hs := AllData(core, annotations);
    var anns;
    anns, sortedTags, tag2, realClients, nClient := Clients(core, annotations);
    var hs1 := Histories(core) + [anns];
    assert SameTimes(hs, hs1);
    SameStamps(hs, hs1);
    var byGid;
    numbered, byGid, st := AssignGids(hs1);
    RelabelledNumbered(core, annotations, anns, tag2, numbered);
    CoveredStamps(hs1, numbered, st.all);
    eps := Epsilon(hs, st.all);
  }

  /** Lines 137-144 on the sorted timestamps: a third of the smallest gap. */
  method Epsilon(hs: seq<seq<Event>>, all: seq<real>) returns (eps: real)
    requires TwoStamps(hs) && forall t :: t in all <==> IsStamp(hs, t)
    ensures Separated(hs, eps)
    ensures exists a, b :: IsStamp(hs, a) && IsStamp(hs, b) && b - a == 3.0 * eps
  {
    var sorted := SortReals(all);
    var d := MinGap(sorted);
    ghost var a, b :| IsStamp(hs, a) && IsStamp(hs, b) && a != b;
    assert |sorted| >= 2 by {
      assert a in sorted && b in sorted;
      var i :| 0 <= i < |sorted| && sorted[i] == a;
      var j :| 0 <= j < |sorted| && sorted[j] == b;
      assert i != j;
    }
    eps := d.value / 3.0;
    GapBound(sorted, d.value);
    Separate(hs, sorted, eps);
    ghost var i :| 0 <= i < |sorted| - 1 && d.value == sorted[i + 1] - sorted[i];
    assert sorted[i] in sorted && sorted[i + 1] in sorted;
  }

  /** Numbering the histories with relabelled annotations. */
  lemma RelabelledNumbered(core: seq<Partition>, annotations: seq<Event>, anns: seq<Event>, tag2: map<string, int>,
                           numbered: seq<seq<Event>>)
    requires |anns| == |annotations|
    requires forall k :: 0 <= k < |annotations| ==> Labelled(annotations[k], tag2) && anns[k] == Relabel(annotations[k], tag2)
    requires NumberedUpTo(Histories(core) + [anns], numbered, |core| + 1)
    ensures NumberedFrom(core, annotations, tag2, numbered)
  {
    var hs := AllData(core, annotations);
    var hs1 := Histories(core) + [anns];
    assert SameShape(hs, hs1);
    forall p | 0 <= p <= |hs|
      ensures Offset(hs, p) == Offset(hs1, p)
    {
      OffsetShape(hs, hs1, p);
    }
  }

  /** Every timestamp of numbered events is in `all`. */
  lemma CoveredStamps(hs: seq<seq<Event>>, numbered: seq<seq<Event>>, all: seq<real>)
    requires SameShape(hs, numbered)
    requires forall q, j :: 0 <= q < |hs| && 0 <= j < |hs[q]| ==> numbered[q][j] == hs[q][j].(gid := numbered[q][j].gid)
    requires forall t :: t in all <==> IsStamp(hs, t)
    ensures Covered(numbered, all)
  {
    forall q, j | 0 <= q < |hs| && 0 <= j < |hs[q]|
      ensures numbered[q][j].start in all && numbered[q][j].end in all
    {
      assert Visited(hs, q, j, |hs|, 0);
    }
  }

  /** Lines 147-200: the two tie-breaking passes and the re-sort. */
  method Adjust(numbered: seq<seq<Event>>, st: Stamps, eps: real) returns (data: seq<seq<Event>>, timestamps: seq<real>)
    requires |numbered| > 0 && Covered(numbered, st.all)
    ensures SameGids(numbered, data)
    ensures forall p, k :: 0 <= p < |numbered| - 1 && 0 <= k < |numbered[p]| ==>
      data[p][k] == AdjustOperation(numbered[p][k], st.starts, eps)
    ensures forall k :: 0 <= k < |Last(numbered)| ==>
      Last(data)[k] == AdjustAnnotation(Last(numbered)[k], st.starts, st.ends, eps)
    ensures Increasing(timestamps)
    ensures forall t :: t in timestamps <==> t in st.all || IsStamp(data, t)
  {
    var last := |numbered| - 1;
    var ops, all1 := AdjustOperations(numbered, st.starts, eps, st.all);
    var anns', all2 := AdjustAnnotations(ops[last], st.starts, st.ends, eps, all1);
    data := ops[..last] + [anns'];
    FinalStamps(numbered, ops, anns', st.all, all1, all2);
    timestamps := SortReals(all2);
  }

  /** Lines 65-200. */
  method Normalize(core: seq<Partition>, annotations: seq<Event>) returns (n: Normalized)
    requires TwoStamps(AllData(core, annotations))
    ensures NormalizedFrom(core, annotations, n)
  {
    var numbered, st, sortedTags, tag2, realClients, nClient, eps := Prepare(core, annotations);
    var data, timestamps := Adjust(numbered, st, eps);
    FlattenGids(numbered, data);
    assert Last(numbered) == numbered[|core|] && Last(data) == data[|core|];
    n := Normalized(data, Flatten(data), timestamps, st.starts, st.ends, sortedTags, tag2, realClients, nClient, eps);
  }

  /** The re-sorted timestamps are those collected before and those of the
      final histories. */
  lemma FinalStamps(hs: seq<seq<Event>>, ops: seq<seq<Event>>, anns': seq<Event>,
                    all0: seq<real>, all1: seq<real>, all2: seq<real>)
    requires |ops| == |hs| > 0 && Covered(hs, all0)
    requires forall q, j :: 0 <= q < |hs| - 1 && 0 <= j < |ops[q]| ==> j < |hs[q]| && ops[q][j].start == hs[q][j].start
    requires forall t :: t in all1 <==>
      t in all0 || exists q, j :: 0 <= q < |hs| - 1 && 0 <= j < |ops[q]| && ops[q][j].end == t
    requires forall t :: t in all2 <==>
      t in all1 || exists j :: 0 <= j < |anns'| && (anns'[j].start == t || anns'[j].end == t)
    ensures var data := ops[..|hs| - 1] + [anns'];
      forall t :: t in all2 <==> t in all0 || IsStamp(data, t)
  {
    var last := |hs| - 1;
    var data := ops[..last] + [anns'];
    forall t | t in all2 && t !in all0
      ensures IsStamp(data, t)
    {
      if t in all1 {
        var q, j :| 0 <= q < last && 0 <= j < |ops[q]| && ops[q][j].end == t;
        assert Visited(data, q, j, |data|, 0) && data[q][j].end == t;
      } else {
        var j :| 0 <= j < |anns'| && (anns'[j].start == t || anns'[j].end == t);
        assert Visited(data, last, j, |data|, 0) && data[last][j] == anns'[j];
      }
    }
    forall t | IsStamp(data, t)
      ensures t in all2
    {
      var q, j :| Visited(data, q, j, |data|, 0) && (data[q][j].start == t || data[q][j].end == t);
      if q == last {
        assert data[q][j] == anns'[j];
      } else {
        assert data[q][j] == ops[q][j];
      }
    }
  }

  /** From the sorted distinct timestamps and their smallest gap to
      `Separated`. */
  lemma Separate(hs: seq<seq<Event>>, sorted: seq<real>, eps: real)
    requires Increasing(sorted) && forall t :: t in sorted <==> IsStamp(hs, t)
    requires eps > 0.0 && forall i, j :: 0 <= i < j < |sorted| ==> sorted[j] - sorted[i] >= 3.0 * eps
    ensures Separated(hs, eps)
  {
    forall a, b | IsStamp(hs, a) && IsStamp(hs, b) && a < b
      ensures b - a >= 3.0 * eps
    {
      var i :| 0 <= i < |sorted| && sorted[i] == a;
      var j :| 0 <= j < |sorted| && sorted[j] == b;
    }
  }

  /** `w` is `v` after one of the tie-breaking nudges: at most half an
      epsilon to the left, at most one epsilon to the right. */
  predicate Near(v: real, w: real, eps: real)
  {
    v - eps / 2.0 <= w <= v + eps
  }

  /** Normalisation moves every start and end of an event by a nudge, and
      never moves a start to the left. */
  lemma EventNudged(core: seq<Partition>, annotations: seq<Event>, n: Normalized, p: nat, k: nat)
    requires StampsRecorded(core, annotations, n) && EventsAdjusted(core, annotations, n)
    requires p <= |core| && k < |AllData(core, annotations)[p]|
    ensures var hs := AllData(core, annotations); var e := hs[p][k]; var r := n.allData[p][k];
      && IsStamp(hs, e.start) && IsStamp(hs, e.end)
      && Near(e.start, r.start, n.epsilon) && Near(e.end, r.end, n.epsilon)
      && e.start <= r.start
      && (p < |core| && e.start == e.end ==> r.start == e.start && r.end == e.end + n.epsilon)
      && (p == |core| && e.start == e.end ==> r.start == e.start && r.end == e.end + n.epsilon / 4.0)
  {
    var hs := AllData(core, annotations);
    assert Visited(hs, p, k, |hs|, 0);
    if p < |core| && hs[p][k].start == hs[p][k].end {
      assert IsStart(hs, hs[p][k].end);
    }
  }

  /** Distinct timestamps keep their order under any nudges. */
  lemma NudgesKeepOrder(hs: seq<seq<Event>>, eps: real, a: real, b: real, x: real, y: real)
    requires Separated(hs, eps) && IsStamp(hs, a) && IsStamp(hs, b) && a < b
    requires Near(a, x, eps) && Near(b, y, eps)
    ensures x < y
  {
    assert b - a >= 3.0 * eps;
  }

  /** A nudged timestamp that moved meets no original timestamp. */
  lemma NudgeAvoidsStamps(hs: seq<seq<Event>>, eps: real, a: real, x: real)
    requires Separated(hs, eps) && IsStamp(hs, a) && Near(a, x, eps) && x != a
    ensures !IsStamp(hs, x)
  {
  }

  /** Lines 145-146 and 163-178: normalisation never reorders two
      originally distinct timestamps of any two events. */
  lemma NormalizedOrder(core: seq<Partition>, annotations: seq<Event>, n: Normalized,
                        p1: nat, k1: nat, p2: nat, k2: nat)
    requires StampsRecorded(core, annotations, n) && EventsAdjusted(core, annotations, n)
    requires p1 <= |core| && k1 < |AllData(core, annotations)[p1]|
    requires p2 <= |core| && k2 < |AllData(core, annotations)[p2]|
    ensures var hs := AllData(core, annotations);
      var e1, e2 := hs[p1][k1], hs[p2][k2];
      var r1, r2 := n.allData[p1][k1], n.allData[p2][k2];
      && (e1.start < e2.start ==> r1.start < r2.start)
      && (e1.start < e2.end ==> r1.start < r2.end)
      && (e1.end < e2.start ==> r1.end < r2.start)
      && (e1.end < e2.end ==> r1.end < r2.end)
  {
    var hs := AllData(core, annotations);
    EventNudged(core, annotations, n, p1, k1);
    EventNudged(core, annotations, n, p2, k2);
    PairKeepsOrder(hs, n.epsilon, hs[p1][k1], hs[p2][k2], n.allData[p1][k1], n.allData[p2][k2]);
  }

  /** Two events whose times are all original timestamps, each nudged
      into its results, keep the order of every pair of distinct times. */
  lemma PairKeepsOrder(hs: seq<seq<Event>>, eps: real, e1: Event, e2: Event, r1: Event, r2: Event)
    requires Separated(hs, eps)
    requires IsStamp(hs, e1.start) && IsStamp(hs, e1.end) && IsStamp(hs, e2.start) && IsStamp(hs, e2.end)
    requires Near(e1.start, r1.start, eps) && Near(e1.end, r1.end, eps)
    requires Near(e2.start, r2.start, eps) && Near(e2.end, r2.end, eps)
    ensures e1.start < e2.start ==> r1.start < r2.start
    ensures e1.start < e2.end ==> r1.start < r2.end
    ensures e1.end < e2.start ==> r1.end < r2.start
    ensures e1.end < e2.end ==> r1.end < r2.end
  {
    if e1.start < e2.start {
      NudgesKeepOrder(hs, eps, e1.start, e2.start, r1.start, r2.start);
    }
    if e1.start < e2.end {
      NudgesKeepOrder(hs, eps, e1.start, e2.end, r1.start, r2.end);
    }
    if e1.end < e2.start {
      NudgesKeepOrder(hs, eps, e1.end, e2.start, r1.end, r2.start);
    }
    if e1.end < e2.end {
      NudgesKeepOrder(hs, eps, e1.end, e2.end, r1.end, r2.end);
    }
  }

  /** Lines 145-146: a start or end that normalisation moved meets no
      original timestamp. */
  lemma MovedAvoidsStamps(core: seq<Partition>, annotations: seq<Event>, n: Normalized, p: nat, k: nat)
    requires StampsRecorded(core, annotations, n) && EventsAdjusted(core, annotations, n)
    requires p <= |core| && k < |AllData(core, annotations)[p]|
    ensures var hs := AllData(core, annotations); var e, r := hs[p][k], n.allData[p][k];
      && (r.start != e.start ==> !IsStamp(hs, r.start))
      && (r.end != e.end ==> !IsStamp(hs, r.end))
  {
    var hs := AllData(core, annotations);
    var e: Event, r: Event := hs[p][k], n.allData[p][k];
    EventNudged(core, annotations, n, p, k);
    if r.start != e.start {
      NudgeAvoidsStamps(hs, n.epsilon, e.start, r.start);
    }
    if r.end != e.end {
      NudgeAvoidsStamps(hs, n.epsilon, e.end, r.end);
    }
  }

  /** Lines 147-197: after normalisation every event whose start was not
      after its end starts strictly before it ends. */
  lemma StartBeforeEnd(core: seq<Partition>, annotations: seq<Event>, n: Normalized, p: nat, k: nat)
    requires StampsRecorded(core, annotations, n) && EventsAdjusted(core, annotations, n)
    requires p <= |core| && k < |AllData(core, annotations)[p]|
    requires AllData(core, annotations)[p][k].start <= AllData(core, annotations)[p][k].end
    ensures n.allData[p][k].start < n.allData[p][k].end
  {
    var hs := AllData(core, annotations);
    var e: Event := hs[p][k];
    var r := n.allData[p][k];
    EventNudged(core, annotations, n, p, k);
    if e.start < e.end {
      NudgesKeepOrder(hs, n.epsilon, e.start, e.end, r.start, r.end);
    }
  }


  /** What the comment at lines 312-315 relies on: an operation that starts
      no later than another operation ends starts strictly before that one
      ends once ties are broken. */
  lemma OperationsOverlap(core: seq<Partition>, annotations: seq<Event>, n: Normalized,
                          p1: nat, k1: nat, p2: nat, k2: nat)
    requires StampsRecorded(core, annotations, n) && EventsAdjusted(core, annotations, n)
    requires p1 < |core| && k1 < |core[p1].history| && p2 < |core| && k2 < |core[p2].history|
    requires core[p1].history[k1].start <= core[p2].history[k2].end
    ensures n.allData[p1][k1].start < n.allData[p2][k2].end
  {
    var hs := AllData(core, annotations);
    assert hs[p1] == core[p1].history && hs[p2] == core[p2].history;
    NormalizedOrder(core, annotations, n, p1, k1, p2, k2);
    if hs[p1][k1].start == hs[p2][k2].end {
      assert Visited(hs, p1, k1, |hs|, 0) && IsStart(hs, hs[p2][k2].end);
    }
  }

  /** The gid of every event is its position in visiting order, and `byGid`
      maps it back to the event (lines 118-121). */
  lemma GidLookup(core: seq<Partition>, annotations: seq<Event>, n: Normalized, p: nat, k: nat)
    requires GidsAssigned(core, annotations, n) && EventsAdjusted(core, annotations, n)
    requires p <= |core| && k < |AllData(core, annotations)[p]|
    ensures n.allData[p][k].gid == Offset(AllData(core, annotations), p) + k
    ensures n.allData[p][k].gid < |n.byGid| && n.byGid[n.allData[p][k].gid] == n.allData[p][k]
  {
    var hs := AllData(core, annotations);
    OffsetShape(hs, n.allData, p);
    FlattenIndex(n.allData, p, k);
  }

  /** Event `k` of history `p` sits at `Offset(hs, p) + k` of the
      flattening. */
  lemma {:induction false} FlattenIndex(hs: seq<seq<Event>>, p: nat, k: nat)
    requires p < |hs| && k < |hs[p]|
    ensures Offset(hs, p) + k < |Flatten(hs)| && Flatten(hs)[Offset(hs, p) + k] == hs[p][k]
    decreases |hs|
  {
    var last := |hs| - 1;
    FlattenSnoc(hs, p);
    if p < last {
      assert hs[..last][..p] == hs[..p] && hs[..last][p] == hs[p];
      FlattenIndex(hs[..last], p, k);
      assert hs[..last + 1] == hs;
      FlattenSnoc(hs, last);
      OffsetPrefix(hs, p + 1, last);
    } else {
      assert hs[..p + 1] == hs;
    }
  }

  /** Flattening a longer prefix extends the flattening of a shorter one. */
  lemma {:induction false} OffsetPrefix(hs: seq<seq<Event>>, p: nat, q: nat)
    requires p <= q <= |hs|
    ensures |Flatten(hs[..p])| <= |Flatten(hs[..q])|
    ensures Flatten(hs[..q])[..|Flatten(hs[..p])|] == Flatten(hs[..p])
    decreases q - p
  {
    if p < q {
      OffsetPrefix(hs, p, q - 1);
      FlattenSnoc(hs, q - 1);
    }
  }

  /** An annotation with a tag is on the client numbered by its tag's rank
      among the sorted tags, after the real clients; one without keeps its
      own client (lines 76-98). */
  lemma AnnotationClient(core: seq<Partition>, annotations: seq<Event>, n: Normalized, k: nat)
    requires ClientsAssigned(core, annotations, n) && EventsAdjusted(core, annotations, n)
    requires k < |annotations|
    ensures TagOf(annotations[k]) == "" ==> n.allData[|core|][k].clientId == annotations[k].clientId
    ensures TagOf(annotations[k]) != "" ==>
      && n.realClients <= n.allData[|core|][k].clientId < n.nClient
      && n.sortedTags[n.allData[|core|][k].clientId - n.realClients] == TagOf(annotations[k])
  {
    var a := annotations[k];
    var tag := TagOf(a);
    assert Labelled(a, n.tag2) && n.allData[|core|][k].clientId == Relabel(a, n.tag2).clientId;
    if tag != "" {
      assert HasTag(annotations, tag);
      var r :| 0 <= r < |n.sortedTags| && n.sortedTags[r] == tag;
      assert n.tag2[tag] == n.realClients + r;
    }
  }

  /** Every start and end of the normalised events is among the re-sorted
      timestamps. */
  lemma FinalCovered(core: seq<Partition>, annotations: seq<Event>, n: Normalized)
    requires StampsResorted(core, annotations, n)
    ensures Covered(n.allData, n.timestamps)
  {
    forall q, j | 0 <= q < |n.allData| && 0 <= j < |n.allData[q]|
      ensures n.allData[q][j].start in n.timestamps && n.allData[q][j].end in n.timestamps
    {
      assert Visited(n.allData, q, j, |n.allData|, 0);
    }
  }
}
