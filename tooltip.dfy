/** The tooltip of `handleMouseMove` (visualization/index.js, lines
    643-715): which message to show for the hovered history element, given
    the current selection and the linearization choice of module `Illegal`.
    The HTML strings become the message kinds of `Message`. */
module Tooltips {
  import opened Timeline
  import opened Illegal

  /** The contents of the tooltip. `Blank` is the empty tooltip before the
      first message; `StepMsg` shows the previous state (if any), the new
      state and the call and return times; `IllegalStep` shows the state an
      illegal next step would start from. */
  datatype Message =
    | Blank
    | Details(text: string)
    | NoDetails
    | NotInSelectedPartition
    | NotInAnyLinearization
    | SelectedNotInAnyLinearization
    | StepMsg(previous: Option<string>, state: string, call: real, ret: Option<real>)
    | IllegalStep(last: string, call: real, ret: Option<real>)
    | NotInSelectedLinearization

  /** What the handlers read from `render`'s closure: `coreHistory` (the
      normalised partitions with their linearizations and `Largest` maps),
      the normalised `annotations`, and the `illegalLast` and
      `largestIllegal` tables of the drawing loop. */
  datatype View = View(
    core: seq<Partition>,
    annotations: seq<Event>,
    illegalLast: seq<seq<set<nat>>>,
    largestIllegal: seq<map<nat, nat>>)

  /** The history of partition `p` of `allData`: a core partition, or the
      annotations as the last one. */
  function History(v: View, p: nat): seq<Event>
    requires p <= |v.core|
  {
    if p < |v.core| then v.core[p].history else v.annotations
  }

  /** The tables have the shape `render` builds them in, every map entry
      names an existing linearization, linearizations are not empty (the
      drawing loop reads the last step of each) and annotations carry their
      details. */
  predicate ViewShape(v: View)
  {
    && |v.illegalLast| == |v.largestIllegal| == |v.core|
    && (forall p :: 0 <= p < |v.core| ==> |v.illegalLast[p]| == |v.core[p].lins|)
    && (forall p, i :: 0 <= p < |v.core| && i in v.core[p].largest ==> v.core[p].largest[i] < |v.core[p].lins|)
    && (forall p, i :: 0 <= p < |v.core| && i in v.largestIllegal[p] ==> v.largestIllegal[p][i] < |v.core[p].lins|)
    && (forall p, L :: 0 <= p < |v.core| && 0 <= L < |v.core[p].lins| ==> |v.core[p].lins[L]| > 0)
    && (forall k :: 0 <= k < |v.annotations| ==> v.annotations[k].kind.Annotation?)
  }

  /** The tables are the ones the drawing loop computes (`ChooseAll`). */
  ghost predicate ViewTables(v: View)
  {
    && |v.illegalLast| == |v.largestIllegal| == |v.core|
    && (forall p, L, i :: 0 <= p < |v.core| && 0 <= L < |v.core[p].lins| && 0 <= L < |v.illegalLast[p]| ==>
          (i in v.illegalLast[p][L] <==> IsIllegalNext(v.core[p].history, v.core[p].lins[L], i)))
    && (forall p :: 0 <= p < |v.core| ==> LargestIllegalOf(v.core[p].history, v.core[p].lins, v.largestIllegal[p]))
  }

  /** A drawn history element: index `i` of partition `p` of `allData`. */
  predicate Element(v: View, p: int, i: int)
  {
    0 <= p <= |v.core| && 0 <= i < |History(v, p)|
  }

  /** `thisTooltip`: the hovered element and the selection. */
  datatype Key = Key(partition: nat, index: nat, selected: bool, sPartition: int, sIndex: int)

  /** A key the handlers can produce: a drawn element is hovered, and a
      selection is a drawn element. */
  predicate KeyOk(v: View, k: Key)
  {
    Element(v, k.partition, k.index) && (k.selected ==> Element(v, k.sPartition, k.sIndex))
  }

  /** The `maxIndex` of `handleMouseMove`: the linearization of the hovered
      element, or of the selected one while there is a selection. */
  function MaxIndex(v: View, k: Key): (r: Option<nat>)
    requires ViewShape(v) && KeyOk(v, k)
    ensures r.Some? ==> var p := if k.selected then k.sPartition else k.partition;
      p < |v.core| && r.value < |v.core[p].lins|
  {
    if !k.selected then LinearizationIndex(v.core, v.largestIllegal, k.partition, k.index)
    else LinearizationIndex(v.core, v.largestIllegal, k.sPartition, k.sIndex)
  }

  /** The position of the first step of `lin` for event `index`, if any. */
  function Position(lin: seq<Step>, index: nat): (r: Option<nat>)
    ensures r.Some? ==> r.value < |lin| && lin[r.value].index == index
    ensures r.Some? ==> forall k :: 0 <= k < r.value ==> lin[k].index != index
    ensures r.None? <==> !Included(lin, index)
  {
    if |lin| == 0 then None
    else if lin[0].index == index then Some(0)
    else match Position(lin[1..], index)
      case None => None
      case Some(k) => Some(k + 1)
  }

  /** The first-match loop over `lin`: `curr` is the first step for
      `index` and `prev` the step before it. */
  method FindStep(lin: seq<Step>, index: nat) returns (found: bool, prev: Option<Step>, curr: Option<Step>)
    ensures found <==> Position(lin, index).Some?
    ensures found ==> var k := Position(lin, index).value;
      curr == Some(lin[k]) && prev == (if k == 0 then None else Some(lin[k - 1]))
  {
    prev, curr := None, None;
    found := false;
    var i := 0;
    while i < |lin|
      invariant 0 <= i <= |lin|
      invariant forall k :: 0 <= k < i ==> lin[k].index != index
      invariant curr == (if i == 0 then None else Some(lin[i - 1]))
      invariant prev == (if i <= 1 then None else Some(lin[i - 2]))
    {
      prev := curr;
      curr := Some(lin[i]);
      if lin[i].index == index {
        found := true;
        PositionFirst(lin, index, i);
        return;
      }
      i := i + 1;
    }
    PositionNone(lin, index);
  }

  /** The first step for `index` is at `k` when no earlier step is. */
  lemma PositionFirst(lin: seq<Step>, index: nat, k: nat)
    requires k < |lin| && lin[k].index == index
    requires forall j :: 0 <= j < k ==> lin[j].index != index
    ensures Position(lin, index) == Some(k)
  {
    var r := Position(lin, index);
    assert r.Some? by {
      assert Included(lin, index);
    }
  }

  /** No step for `index`: no position. */
  lemma PositionNone(lin: seq<Step>, index: nat)
    requires forall j :: 0 <= j < |lin| ==> lin[j].index != index
    ensures Position(lin, index) == None
  {
  }

  /** The message `handleMouseMove` writes into the tooltip, in the order of
      its branches: annotation details; a hovered element outside the
      selected partition; no linearization to show; the hovered element's
      step in the linearization; the illegal next step the linearization
      ends in; and otherwise an element outside the linearization. */
  function TooltipFor(v: View, k: Key): (m: Message)
    requires ViewShape(v) && KeyOk(v, k)
    ensures m != Blank
    ensures (m.StepMsg? || m.IllegalStep?) ==>
      && k.partition < |v.core| && MaxIndex(v, k).Some?
      && m.call == v.core[k.partition].history[k.index].start
      && m.ret == v.core[k.partition].history[k.index].originalEnd
  {
    var maxIndex := MaxIndex(v, k);
    if k.partition >= |v.core| then
      var details := v.annotations[k.index].kind.details;
      if |details| == 0 then NoDetails else Details(details)
    else if k.selected && k.sPartition != k.partition then NotInSelectedPartition
    else if maxIndex.None? then
      if !k.selected then NotInAnyLinearization else SelectedNotInAnyLinearization
    else
      var lin := v.core[k.partition].lins[maxIndex.value];
      var e := v.core[k.partition].history[k.index];
      match Position(lin, k.index)
      case Some(j) =>
        StepMsg(if j == 0 then None else Some(lin[j - 1].stateDescription), lin[j].stateDescription, e.start, e.originalEnd)
      case None =>
        if k.index in v.illegalLast[k.partition][maxIndex.value] then
          IllegalStep(lin[|lin| - 1].stateDescription, e.start, e.originalEnd)
        else NotInSelectedLinearization
  }

  /** The message computation of `handleMouseMove` with its first-match
      loop; it renders `TooltipFor` imperatively. */
  method ComputeTooltip(v: View, k: Key) returns (m: Message)
    requires ViewShape(v) && KeyOk(v, k)
    ensures m == TooltipFor(v, k)
  {
    var maxIndex := MaxIndex(v, k);
    if k.partition >= |v.core| {
      var details := v.annotations[k.index].kind.details;
      m := if |details| == 0 then NoDetails else Details(details);
    } else if k.selected && k.sPartition != k.partition {
      m := NotInSelectedPartition;
    } else if maxIndex.None? {
      m := if !k.selected then NotInAnyLinearization else SelectedNotInAnyLinearization;
    } else {
      var lin := v.core[k.partition].lins[maxIndex.value];
      var found, prev, curr := FindStep(lin, k.index);
      var e := v.core[k.partition].history[k.index];
      if found {
        m := StepMsg(if prev.None? then None else Some(prev.value.stateDescription),
                     curr.value.stateDescription, e.start, e.originalEnd);
      } else if k.index in v.illegalLast[k.partition][maxIndex.value] {
        m := IllegalStep(lin[|lin| - 1].stateDescription, e.start, e.originalEnd);
      } else {
        m := NotInSelectedLinearization;
      }
    }
  }

  /** Hovering, with nothing selected, an operation the checker put in a
      linearization shows its step in the longest such linearization: the
      state after it, the state before it unless it is the first step, and
      its call and (original) return time. */
  lemma HoverLinearized(v: View, k: Key)
    requires ViewShape(v) && KeyOk(v, k) && !k.selected && k.partition < |v.core|
    requires k.index in v.core[k.partition].largest
    requires Included(v.core[k.partition].lins[v.core[k.partition].largest[k.index]], k.index)
    ensures var lin := v.core[k.partition].lins[v.core[k.partition].largest[k.index]];
      var j := Position(lin, k.index).value;
      var e := v.core[k.partition].history[k.index];
      && Position(lin, k.index).Some?
      && TooltipFor(v, k) == StepMsg(if j == 0 then None else Some(lin[j - 1].stateDescription),
                                     lin[j].stateDescription, e.start, e.originalEnd)
  {
    assert MaxIndex(v, k) == Some(v.core[k.partition].largest[k.index]);
  }

  /** Hovering, with nothing selected, an operation outside every
      linearization of the checker shows an illegal next step when there is
      one: the last state of the first longest linearization `L` it could
      illegally follow. */
  lemma HoverIllegal(v: View, k: Key, L: nat)
    requires ViewShape(v) && ViewTables(v) && KeyOk(v, k) && !k.selected && k.partition < |v.core|
    requires k.index !in v.core[k.partition].largest
    requires FirstLongest(v.core[k.partition].history, v.core[k.partition].lins, k.index, L)
    ensures var part := v.core[k.partition]; var e := part.history[k.index];
      TooltipFor(v, k) == IllegalStep(part.lins[L][|part.lins[L]| - 1].stateDescription, e.start, e.originalEnd)
  {
    var part := v.core[k.partition];
    var li := v.largestIllegal[k.partition];
    assert LargestIllegalOf(part.history, part.lins, li);
    assert IllegalIn(part.history, part.lins, k.index, L);
    FirstLongestUnique(part.history, part.lins, k.index, L, li[k.index]);
    assert MaxIndex(v, k) == Some(L);
    assert k.index in v.illegalLast[k.partition][L];
  }

  /** Hovering, with nothing selected, an operation outside every
      linearization of the checker and no illegal next step of any says
      that it is in no linearization. */
  lemma HoverNowhere(v: View, k: Key)
    requires ViewShape(v) && ViewTables(v) && KeyOk(v, k) && !k.selected && k.partition < |v.core|
    requires k.index !in v.core[k.partition].largest
    requires forall L :: !IllegalIn(v.core[k.partition].history, v.core[k.partition].lins, k.index, L)
    ensures TooltipFor(v, k) == NotInAnyLinearization
  {
    var part := v.core[k.partition];
    assert LargestIllegalOf(part.history, part.lins, v.largestIllegal[k.partition]);
  }

  /** While an element is selected, hovering an element of its partition
      when the selected element is in no linearization of the checker and
      no illegal next step of any says that the selection has no
      linearization. `s` is the selected index. */
  lemma HoverSelectedNowhere(v: View, k: Key, s: nat)
    requires ViewShape(v) && ViewTables(v) && KeyOk(v, k) && k.selected
    requires k.partition < |v.core| && k.sPartition == k.partition && k.sIndex == s
    requires s !in v.core[k.partition].largest
    requires forall L :: !IllegalIn(v.core[k.partition].history, v.core[k.partition].lins, s, L)
    ensures TooltipFor(v, k) == SelectedNotInAnyLinearization
  {
    var part := v.core[k.partition];
    assert LargestIllegalOf(part.history, part.lins, v.largestIllegal[k.partition]);
  }

  /** When the linearization to show is `L` and the hovered element is
      neither a step of `L` nor an illegal next step of it, the tooltip says
      that it is not part of that linearization. */
  lemma HoverOutsideLinearization(v: View, k: Key, L: nat)
    requires ViewShape(v) && ViewTables(v) && KeyOk(v, k) && k.partition < |v.core|
    requires !k.selected || k.sPartition == k.partition
    requires MaxIndex(v, k) == Some(L)
    requires !Included(v.core[k.partition].lins[L], k.index)
    requires !IsIllegalNext(v.core[k.partition].history, v.core[k.partition].lins[L], k.index)
    ensures TooltipFor(v, k) == NotInSelectedLinearization
  {
    assert k.index !in v.illegalLast[k.partition][L];
  }

  /** The first longest linearization is unique. */
  lemma FirstLongestUnique(history: seq<Event>, lins: seq<seq<Step>>, i: nat, a: nat, b: nat)
    requires FirstLongest(history, lins, i, a) && FirstLongest(history, lins, i, b)
    ensures a == b
  {
  }

  /** While an element is selected, hovering an element of another
      partition says so, whatever the linearizations are. */
  lemma HoverOtherPartition(v: View, k: Key)
    requires ViewShape(v) && KeyOk(v, k) && k.selected && k.partition < |v.core| && k.sPartition != k.partition
    ensures TooltipFor(v, k) == NotInSelectedPartition
  {
  }

  /** While an element is selected, hovering an element of the selected
      element's linearization shows the hovered element's step in it, and
      hovering the selected element itself shows its own step when the
      checker placed it. */
  lemma HoverInSelection(v: View, k: Key)
    requires ViewShape(v) && KeyOk(v, k) && k.selected && k.partition < |v.core| && k.sPartition == k.partition
    requires MaxIndex(v, k).Some? && Included(v.core[k.partition].lins[MaxIndex(v, k).value], k.index)
    ensures TooltipFor(v, k).StepMsg?
    ensures TooltipFor(v, k).state ==
      v.core[k.partition].lins[MaxIndex(v, k).value][Position(v.core[k.partition].lins[MaxIndex(v, k).value], k.index).value].stateDescription
  {
  }
}
