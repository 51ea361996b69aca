/** The illegal next steps of a partial linearization and the choice of the
    linearization to show for an event (visualization/index.js, lines
    280-290, 537-583 and 606-618). The illegal-next rule is written once, as
    `IllegalNext`, and used both by the preprocessing for the layout and by
    the drawing loop. */
module Illegal {
  import opened Timeline

  /** Event `i` is one of the steps of `lin` (the `included` set). */
  predicate Included(lin: seq<Step>, i: nat)
  {
    exists k :: 0 <= k < |lin| && lin[k].index == i
  }

  /** Reference definition of an illegal next step: event `i` is not in
      `lin`, and it starts before every event outside `lin` ends, so no
      other event has to be linearized before it. */
  predicate IsIllegalNext(history: seq<Event>, lin: seq<Step>, i: nat)
  {
    && i < |history| && !Included(lin, i)
    && forall j :: 0 <= j < |history| && !Included(lin, j) ==> history[i].start < history[j].end
  }

  /** Strictly increasing indices: history order, no repetition. */
  predicate Ascending(s: seq<nat>)
  {
    forall a, b :: 0 <= a < b < |s| ==> s[a] < s[b]
  }

  /** The `included` set: the indices the steps of `lin` name. */
  method IncludedSet(lin: seq<Step>) returns (included: set<nat>)
    ensures forall i :: i in included <==> Included(lin, i)
  {
    included := {};
    for k := 0 to |lin|
      invariant forall i :: i in included <==> exists k' :: 0 <= k' < k && lin[k'].index == i
    {
      included := included + {lin[k].index};
    }
  }

  /** `minEnd` of the events outside `included`; `None` stands for
      `Infinity`, the value when every event is included. */
  method MinEnd(history: seq<Event>, included: set<nat>) returns (minEnd: Option<real>)
    ensures minEnd.None? <==> forall j :: 0 <= j < |history| ==> j in included
    ensures minEnd.Some? ==> exists j :: 0 <= j < |history| && j !in included && history[j].end == minEnd.value
    ensures minEnd.Some? ==> forall j :: 0 <= j < |history| && j !in included ==> minEnd.value <= history[j].end
  {
    minEnd := None;
    for i := 0 to |history|
      invariant minEnd.None? <==> forall j :: 0 <= j < i ==> j in included
      invariant minEnd.Some? ==> exists j :: 0 <= j < i && j !in included && history[j].end == minEnd.value
      invariant minEnd.Some? ==> forall j :: 0 <= j < i && j !in included ==> minEnd.value <= history[j].end
    {
      if i !in included {
        if minEnd.None? || history[i].end < minEnd.value {
          minEnd := Some(history[i].end);
        }
      }
    }
  }

  /** The illegal next steps of `lin`, in history order: the events outside
      `lin` that start before the smallest end among them. */
  method IllegalNext(history: seq<Event>, lin: seq<Step>) returns (ill: seq<nat>)
    ensures Ascending(ill)
    ensures forall i: nat :: i in ill <==> IsIllegalNext(history, lin, i)
  {
    var included := IncludedSet(lin);
    var minEnd := MinEnd(history, included);
    ill := [];
    for i := 0 to |history|
      invariant Ascending(ill) && forall a :: 0 <= a < |ill| ==> ill[a] < i
      invariant forall x: nat :: x in ill <==> x < i && IsIllegalNext(history, lin, x)
    {
      if i !in included && (minEnd.None? || history[i].start < minEnd.value) {
        ill := ill + [i];
      }
    }
  }

  /** Whenever some event is left out of `lin` and events start before they
      end, there is an illegal next step to draw: the left-out event that
      ends first. */
  lemma SomeNextStep(history: seq<Event>, lin: seq<Step>, j: nat)
    requires forall k :: 0 <= k < |history| ==> history[k].start < history[k].end
    requires j < |history| && !Included(lin, j)
    ensures exists i :: IsIllegalNext(history, lin, i)
  {
    var m := FirstEnding(history, lin, |history|, j);
    assert IsIllegalNext(history, lin, m);
  }

  /** A left-out event among the first `n` with the smallest end among them. */
  lemma {:induction false} FirstEnding(history: seq<Event>, lin: seq<Step>, n: nat, j: nat) returns (m: nat)
    requires n <= |history| && j < n && !Included(lin, j)
    ensures m < n && !Included(lin, m)
    ensures forall k :: 0 <= k < n && !Included(lin, k) ==> history[m].end <= history[k].end
    decreases n
  {
    if n == j + 1 {
      m := j;
      if exists k :: 0 <= k < j && !Included(lin, k) {
        var k :| 0 <= k < j && !Included(lin, k);
        var m' := FirstEnding(history, lin, j, k);
        m := if history[m'].end <= history[j].end then m' else j;
      }
    } else {
      m := FirstEnding(history, lin, n - 1, j);
      if !Included(lin, n - 1) && history[n - 1].end < history[m].end {
        m := n - 1;
      }
    }
  }

  /** Event `i` is an illegal next step of linearization `L`. */
  predicate IllegalIn(history: seq<Event>, lins: seq<seq<Step>>, i: nat, L: nat)
  {
    L < |lins| && IsIllegalNext(history, lins[L], i)
  }

  /** `L` is the first longest linearization with event `i` among its
      illegal next steps: none is longer, and every earlier one is shorter. */
  predicate FirstLongest(history: seq<Event>, lins: seq<seq<Step>>, i: nat, L: nat)
  {
    && IllegalIn(history, lins, i, L)
    && (forall M :: 0 <= M < |lins| && IllegalIn(history, lins, i, M) ==> |lins[M]| <= |lins[L]|)
    && (forall M :: 0 <= M < L && IllegalIn(history, lins, i, M) ==> |lins[M]| < |lins[L]|)
  }

  /** What `largestIllegal[p]` promises: an event has an entry exactly when
      it is an illegal next step of some linearization, and the entry is the
      first longest such linearization. */
  ghost predicate LargestIllegalOf(history: seq<Event>, lins: seq<seq<Step>>, largest: map<nat, nat>)
  {
    && (forall i :: i in largest <==> exists L :: IllegalIn(history, lins, i, L))
    && (forall i :: i in largest ==> FirstLongest(history, lins, i, largest[i]))
  }

  /** Event `k` is in the illegal set of some of the first linearizations. */
  predicate InSome(seen: seq<set<nat>>, k: nat)
  {
    exists M :: 0 <= M < |seen| && k in seen[M]
  }

  /** The entry of event `k` in `largestIllegal` and
      `largestIllegalLength` after the illegal sets `seen` of the first
      linearizations: there is one exactly when `k` is in one of them, it
      is the first longest of those linearizations, and the recorded length
      is its length. */
  ghost predicate EntryFor(seen: seq<set<nat>>, lins: seq<seq<Step>>, largest: map<nat, nat>, lengths: map<nat, nat>, k: nat)
  {
    && |seen| <= |lins|
    && (k in largest <==> k in lengths)
    && (k in largest <==> InSome(seen, k))
    && (k in largest ==>
          && largest[k] < |seen| && k in seen[largest[k]] && lengths[k] == |lins[largest[k]]|
          && (forall M :: 0 <= M < |seen| && k in seen[M] ==> |lins[M]| <= lengths[k])
          && (forall M :: 0 <= M < largest[k] && k in seen[M] ==> |lins[M]| < lengths[k]))
  }

  /** Every event's entry is as `EntryFor` says. */
  ghost predicate ChosenAmong(seen: seq<set<nat>>, lins: seq<seq<Step>>, largest: map<nat, nat>, lengths: map<nat, nat>)
  {
    |seen| <= |lins| && forall k: nat :: EntryFor(seen, lins, largest, lengths, k)
  }

  /** Adding event `i` to the illegal set of the current linearization:
      the linearization replaces the entry when there is none or the entry
      is strictly shorter. */
  lemma OfferKeeps(seen: seq<set<nat>>, last: set<nat>, lins: seq<seq<Step>>,
                   largest: map<nat, nat>, lengths: map<nat, nat>, i: nat)
    requires ChosenAmong(seen + [last], lins, largest, lengths) && i !in last
    ensures var L := |seen|; var replace := i !in lengths || lengths[i] < |lins[L]|;
      ChosenAmong(seen + [last + {i}], lins,
                  if replace then largest[i := L] else largest,
                  if replace then lengths[i := |lins[L]|] else lengths)
  {
    var L := |seen|;
    var before, after := seen + [last], seen + [last + {i}];
    var replace := i !in lengths || lengths[i] < |lins[L]|;
    var largest' := if replace then largest[i := L] else largest;
    var lengths' := if replace then lengths[i := |lins[L]|] else lengths;
    forall k: nat ensures EntryFor(after, lins, largest', lengths', k)
    {
      assert EntryFor(before, lins, largest, lengths, k);
      if k != i {
        assert forall M :: 0 <= M < |after| ==> (k in after[M] <==> k in before[M]);
        assert InSome(after, k) <==> InSome(before, k);
      } else {
        assert forall M :: 0 <= M < L ==> after[M] == before[M];
        assert after[L] == last + {i} && i in after[L];
      }
    }
  }

  /** Starting a linearization with an empty illegal set changes nothing. */
  lemma StartLinearization(seen: seq<set<nat>>, lins: seq<seq<Step>>, largest: map<nat, nat>, lengths: map<nat, nat>)
    requires ChosenAmong(seen, lins, largest, lengths) && |seen| < |lins|
    ensures ChosenAmong(seen + [{}], lins, largest, lengths)
  {
    var after := seen + [{}];
    forall k: nat ensures EntryFor(after, lins, largest, lengths, k)
    {
      assert EntryFor(seen, lins, largest, lengths, k);
      assert forall M :: 0 <= M < |seen| ==> after[M] == seen[M];
      assert InSome(after, k) <==> InSome(seen, k);
    }
  }

  /** Once every illegal set is seen, `ChosenAmong` is `LargestIllegalOf`. */
  lemma AllSeen(history: seq<Event>, lins: seq<seq<Step>>, seen: seq<set<nat>>,
                largest: map<nat, nat>, lengths: map<nat, nat>)
    requires |seen| == |lins| && ChosenAmong(seen, lins, largest, lengths)
    requires forall L, i :: 0 <= L < |lins| ==> (i in seen[L] <==> IsIllegalNext(history, lins[L], i))
    ensures LargestIllegalOf(history, lins, largest)
  {
    forall i: nat ensures (i in largest <==> exists L :: IllegalIn(history, lins, i, L))
      && (i in largest ==> FirstLongest(history, lins, i, largest[i]))
    {
      assert EntryFor(seen, lins, largest, lengths, i);
      assert forall L: nat :: IllegalIn(history, lins, i, L) <==> L < |seen| && i in seen[L];
    }
  }

  /** The drawing loop's bookkeeping for one partition: `illegalLast[L]` is
      the set of illegal next steps of linearization `L`, and
      `largestIllegal` keeps, per event, the first longest linearization in
      whose illegal set the event appears (a later one replaces it only when
      strictly longer). */
  method ChooseIllegal(history: seq<Event>, lins: seq<seq<Step>>)
    returns (illegalLast: seq<set<nat>>, largest: map<nat, nat>)
    ensures |illegalLast| == |lins|
    ensures forall L, i :: 0 <= L < |lins| ==> (i in illegalLast[L] <==> IsIllegalNext(history, lins[L], i))
    ensures LargestIllegalOf(history, lins, largest)
  {
    var lengths: map<nat, nat> := map[];
    illegalLast := [];
    largest := map[];
    for L := 0 to |lins|
      invariant |illegalLast| == L
      invariant forall M, i :: 0 <= M < L ==> (i in illegalLast[M] <==> IsIllegalNext(history, lins[M], i))
      invariant ChosenAmong(illegalLast, lins, largest, lengths)
    {
      var ill := IllegalNext(history, lins[L]);
      var last: set<nat> := {};
      StartLinearization(illegalLast, lins, largest, lengths);
      for k := 0 to |ill|
        invariant forall i :: i in last <==> i in ill[..k]
        invariant ChosenAmong(illegalLast + [last], lins, largest, lengths)
      {
        var i := ill[k];
        assert forall x :: x in ill[..k] ==> x < i;
        OfferKeeps(illegalLast, last, lins, largest, lengths, i);
        last := last + {i};
        if i !in lengths || lengths[i] < |lins[L]| {
          lengths := lengths[i := |lins[L]|];
          largest := largest[i := L];
        }
        assert ill[..k + 1] == ill[..k] + [i];
      }
      assert ill[..|ill|] == ill;
      illegalLast := illegalLast + [last];
    }
    AllSeen(history, lins, illegalLast, largest, lengths);
  }

  /** The drawing loop over all partitions of `coreHistory`: the
      `illegalLast` and `largestIllegal` tables, one entry per partition. */
  method ChooseAll(core: seq<Partition>) returns (illegalLast: seq<seq<set<nat>>>, largestIllegal: seq<map<nat, nat>>)
    ensures |illegalLast| == |largestIllegal| == |core|
    ensures forall p :: 0 <= p < |core| ==> |illegalLast[p]| == |core[p].lins|
    ensures forall p, L, i :: 0 <= p < |core| && 0 <= L < |core[p].lins| ==>
      (i in illegalLast[p][L] <==> IsIllegalNext(core[p].history, core[p].lins[L], i))
    ensures forall p :: 0 <= p < |core| ==> LargestIllegalOf(core[p].history, core[p].lins, largestIllegal[p])
  {
    illegalLast := [];
    largestIllegal := [];
    for p := 0 to |core|
      invariant |illegalLast| == |largestIllegal| == p
      invariant forall q :: 0 <= q < p ==> |illegalLast[q]| == |core[q].lins|
      invariant forall q, L, i :: 0 <= q < p && 0 <= L < |core[q].lins| ==>
        (i in illegalLast[q][L] <==> IsIllegalNext(core[q].history, core[q].lins[L], i))
      invariant forall q :: 0 <= q < p ==> LargestIllegalOf(core[q].history, core[q].lins, largestIllegal[q])
    {
      var last, largest := ChooseIllegal(core[p].history, core[p].lins);
      illegalLast := illegalLast + [last];
      largestIllegal := largestIllegal + [largest];
    }
  }

  /** Two tables that both keep the promise of `largestIllegal` agree on
      every event: the promise determines the table. */
  lemma LargestIllegalUnique(history: seq<Event>, lins: seq<seq<Step>>, m1: map<nat, nat>, m2: map<nat, nat>, i: nat)
    requires LargestIllegalOf(history, lins, m1) && LargestIllegalOf(history, lins, m2)
    ensures i in m1 <==> i in m2
    ensures i in m1 ==> m1[i] == m2[i]
  {
    if i in m1 {
      var a, b := m1[i], m2[i];
      assert FirstLongest(history, lins, i, a) && FirstLongest(history, lins, i, b);
    }
  }

  /** `linearizationIndex`: the linearization to show for event `index` of
      `partition`; none for the annotation partition, then the checker's
      `Largest` entry, then the `largestIllegal` entry. */
  function LinearizationIndex(core: seq<Partition>, largestIllegal: seq<map<nat, nat>>, partition: nat, index: nat): (r: Option<nat>)
    requires |largestIllegal| == |core|
    ensures r.Some? ==> partition < |core|
  {
    if partition >= |core| then None
    else if index in core[partition].largest then Some(core[partition].largest[index])
    else if index in largestIllegal[partition] then Some(largestIllegal[partition][index])
    else None
  }

  /** What the choice means once `largestIllegal` keeps its promise: the
      annotation partition has no linearization; an event the checker
      placed in a linearization shows the checker's longest one; any other
      event shows the first longest linearization it is an illegal next step
      of, and nothing when there is none. */
  lemma LinearizationChoice(core: seq<Partition>, largestIllegal: seq<map<nat, nat>>, partition: nat, index: nat)
    requires |largestIllegal| == |core|
    requires forall p :: 0 <= p < |core| ==> LargestIllegalOf(core[p].history, core[p].lins, largestIllegal[p])
    ensures var r := LinearizationIndex(core, largestIllegal, partition, index);
      && (partition >= |core| ==> r == None)
      && (partition < |core| && index in core[partition].largest ==> r == Some(core[partition].largest[index]))
      && (partition < |core| && index !in core[partition].largest ==>
            && (r.Some? <==> exists L :: IllegalIn(core[partition].history, core[partition].lins, index, L))
            && (r.Some? ==> FirstLongest(core[partition].history, core[partition].lins, index, r.value)))
  {
    if partition < |core| {
      assert LargestIllegalOf(core[partition].history, core[partition].lins, largestIllegal[partition]);
    }
  }
}
