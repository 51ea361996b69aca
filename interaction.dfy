/** The interaction state of `render` (visualization/index.js, lines
    382-383, 597-806): the selection, the tooltip and its cache,
    and which layers are hidden. Layers and the `selected` class of the
    history rectangles are modelled as boolean grids; the DOM itself is not
    part of the model. */
module Interaction {
  import opened Timeline
  import opened Illegal
  import opened Helpers
  import opened Tooltips

  /** An entry of `lastTooltip`/`thisTooltip`: `null`, a number or a
      boolean. */
  datatype Cell = Null | Num(n: int) | Flag(b: bool)

  /** `[null, null, null, null, null]`, the key that matches no hover. */
  const NoKey: seq<Cell> := [Null, Null, Null, Null, Null]

  /** Reading a key back from its cells. */
  function KeyOf(cells: seq<Cell>): Option<Key>
  {
    if |cells| == 5 && cells[0].Num? && cells[0].n >= 0 && cells[1].Num? && cells[1].n >= 0
       && cells[2].Flag? && cells[3].Num? && cells[4].Num?
    then Some(Key(cells[0].n, cells[1].n, cells[2].b, cells[3].n, cells[4].n))
    else None
  }

  /** `thisTooltip = [partition, index, selected, sPartition, sIndex]`: the
      cells read back as the same key, and never as the empty key. */
  function Cells(k: Key): (r: seq<Cell>)
    ensures KeyOf(r) == Some(k) && r != NoKey && |r| == 5
  {
    [Num(k.partition), Num(k.index), Flag(k.selected), Num(k.sPartition), Num(k.sIndex)]
  }

  /** The cached key is one the handlers produced and the tooltip shows its
      message. */
  predicate CacheHolds(v: View, cells: seq<Cell>, msg: Message)
    requires ViewShape(v)
  {
    && KeyOf(cells).Some? && cells == Cells(KeyOf(cells).value)
    && KeyOk(v, KeyOf(cells).value)
    && msg == TooltipFor(v, KeyOf(cells).value)
  }

  /** One flag per partial-linearization layer. */
  predicate LinShape(v: View, grid: seq<seq<bool>>)
  {
    |grid| == |v.core| && forall p :: 0 <= p < |grid| ==> |grid[p]| == |v.core[p].lins|
  }

  /** One flag per history rectangle. */
  predicate RectShape(v: View, grid: seq<seq<bool>>)
  {
    |grid| == |v.core| + 1 && forall p :: 0 <= p < |grid| ==> |grid[p]| == |History(v, p)|
  }

  /** History layers after `highlight(partition, _)`: all but the
      partition's hidden. */
  predicate HistoryHighlighted(hidden: seq<bool>, partition: int)
  {
    forall i :: 0 <= i < |hidden| ==> (hidden[i] <==> i != partition)
  }

  /** Linearization layers after `highlight(partition, index)`: only the
      one `linearizationIndex` chooses is visible, if any. */
  predicate LinsHighlighted(v: View, hidden: seq<seq<bool>>, partition: nat, index: nat)
    requires ViewShape(v)
  {
    var m := LinearizationIndex(v.core, v.largestIllegal, partition, index);
    forall p, L :: 0 <= p < |hidden| && 0 <= L < |hidden[p]| ==> (hidden[p][L] <==> !(p == partition && m == Some(L)))
  }

  /** Linearization layers after `resetHighlight`: only the first, longest
      linearization of each partition is visible. */
  predicate LinsReset(hidden: seq<seq<bool>>)
  {
    forall p, L :: 0 <= p < |hidden| && 0 <= L < |hidden[p]| ==> (hidden[p][L] <==> L != 0)
  }

  /** The `forEach` over the history layers in `highlight`. */
  method HideOtherPartitions(n: nat, partition: int) returns (hidden: seq<bool>)
    ensures |hidden| == n && HistoryHighlighted(hidden, partition)
  {
    hidden := [];
    for i := 0 to n
      invariant |hidden| == i && HistoryHighlighted(hidden, partition)
    {
      hidden := hidden + [i != partition];
    }
  }

  /** The `forEach` over the history layers in `resetHighlight`. */
  method ShowAllPartitions(n: nat) returns (hidden: seq<bool>)
    ensures |hidden| == n && forall i :: 0 <= i < n ==> !hidden[i]
  {
    hidden := [];
    for i := 0 to n
      invariant |hidden| == i && forall j :: 0 <= j < i ==> !hidden[j]
    {
      hidden := hidden + [false];
    }
  }

  /** The nested `forEach` over the linearization layers: every layer is
      hidden, except the first of each partition when `showFirst`. */
  method SetLinLayers(v: View, showFirst: bool) returns (hidden: seq<seq<bool>>)
    ensures LinShape(v, hidden)
    ensures forall p, L :: 0 <= p < |hidden| && 0 <= L < |hidden[p]| ==> (hidden[p][L] <==> !(showFirst && L == 0))
  {
    hidden := [];
    for p := 0 to |v.core|
      invariant |hidden| == p
      invariant forall q :: 0 <= q < p ==> |hidden[q]| == |v.core[q].lins|
      invariant forall q, L :: 0 <= q < p && 0 <= L < |hidden[q]| ==> (hidden[q][L] <==> !(showFirst && L == 0))
    {
      var row: seq<bool> := [];
      for L := 0 to |v.core[p].lins|
        invariant |row| == L && forall M :: 0 <= M < L ==> (row[M] <==> !(showFirst && M == 0))
      {
        row := row + [!(showFirst && L == 0)];
      }
      hidden := hidden + [row];
    }
  }

  /** The selection, the tooltip with its cache and the visibility of the
      layers: the mutable state shared by the handlers of `render`. */
  class Controller {
    const view: View
    var selected: bool
    var sPartition: int
    var sIndex: int
    var lastTooltip: seq<Cell>
    var tooltip: Message
    var tooltipShown: bool
    var historyHidden: seq<bool>
    var linHidden: seq<seq<bool>>
    var marked: seq<seq<bool>>

    /** The grids have the shape of the drawing and the cached key, if any,
        matches the tooltip. */
    ghost predicate Drawn()
      reads this
    {
      && ViewShape(view)
      && |historyHidden| == |view.core| + 1
      && LinShape(view, linHidden)
      && RectShape(view, marked)
      && (lastTooltip == NoKey || CacheHolds(view, lastTooltip, tooltip))
    }

    /** No history rectangle carries the `selected` class. */
    ghost predicate Unmarked()
      reads this
    {
      forall p, i :: 0 <= p < |marked| && 0 <= i < |marked[p]| ==> !marked[p][i]
    }

    /** The invariant of the handlers: a selection is a drawn element, the
        layers show its partition and linearization, and exactly its
        rectangle is marked; without a selection nothing is marked. */
    ghost predicate Valid()
      reads this
    {
      && Drawn()
      && (selected ==>
            && Element(view, sPartition, sIndex)
            && HistoryHighlighted(historyHidden, sPartition)
            && LinsHighlighted(view, linHidden, sPartition, sIndex))
      && (forall p, i :: 0 <= p < |marked| && 0 <= i < |marked[p]| ==>
            (marked[p][i] <==> selected && p == sPartition && i == sIndex))
    }

    /** The state once `render` has drawn everything and called
        `handleMouseOut()`: nothing selected (`selectedIndex` is
        `[-1, -1]`), the tooltip hidden with no cached key, all history
        layers and only the longest linearizations visible. */
    constructor(v: View)
      requires ViewShape(v)
      ensures Valid() && view == v
      ensures !selected && sPartition == -1 && sIndex == -1
      ensures !tooltipShown && lastTooltip == NoKey && tooltip == Blank
      ensures forall i :: 0 <= i < |historyHidden| ==> !historyHidden[i]
      ensures LinsReset(linHidden)
    {
      view := v;
      selected := false;
      sPartition, sIndex := -1, -1;
      lastTooltip := NoKey;
      tooltip := Blank;
      tooltipShown := true;
      historyHidden := seq(|v.core| + 1, _ => false);
      linHidden := seq(|v.core|, p requires 0 <= p < |v.core| => seq(|v.core[p].lins|, _ => false));
      marked := seq(|v.core| + 1, p requires 0 <= p <= |v.core| => seq(|History(v, p)|, _ => false));
      new;
      MouseOut();
    }

    /** `highlight(partition, index)`: only the partition's history layer
        and the linearization `linearizationIndex` chooses are visible. */
    method Highlight(partition: nat, index: nat)
      requires Drawn()
      modifies this
      ensures Drawn()
      ensures HistoryHighlighted(historyHidden, partition) && LinsHighlighted(view, linHidden, partition, index)
      ensures selected == old(selected) && sPartition == old(sPartition) && sIndex == old(sIndex)
      ensures marked == old(marked) && tooltipShown == old(tooltipShown)
      ensures lastTooltip == old(lastTooltip) && tooltip == old(tooltip)
    {
      historyHidden := HideOtherPartitions(|historyHidden|, partition);
      var hidden := SetLinLayers(view, false);
      var maxIndex := LinearizationIndex(view.core, view.largestIllegal, partition, index);
      if maxIndex.Some? {
        hidden := hidden[partition := hidden[partition][maxIndex.value := false]];
      }
      linHidden := hidden;
    }

    /** `resetHighlight()`: every history layer and the first linearization
        of each partition visible. */
    method ResetHighlight()
      requires Drawn()
      modifies this
      ensures Drawn()
      ensures (forall i :: 0 <= i < |historyHidden| ==> !historyHidden[i]) && LinsReset(linHidden)
      ensures selected == old(selected) && sPartition == old(sPartition) && sIndex == old(sIndex)
      ensures marked == old(marked) && tooltipShown == old(tooltipShown)
      ensures lastTooltip == old(lastTooltip) && tooltip == old(tooltip)
    {
      historyHidden := ShowAllPartitions(|historyHidden|);
      linHidden := SetLinLayers(view, true);
    }

    /** `handleMouseOver`: without a selection the hovered element is
        highlighted; the tooltip is shown. */
    method MouseOver(partition: nat, index: nat)
      requires Valid() && Element(view, partition, index)
      modifies this
      ensures Valid() && tooltipShown
      ensures selected == old(selected) && sPartition == old(sPartition) && sIndex == old(sIndex)
      ensures marked == old(marked) && lastTooltip == old(lastTooltip) && tooltip == old(tooltip)
      ensures !selected ==> HistoryHighlighted(historyHidden, partition) && LinsHighlighted(view, linHidden, partition, index)
      ensures selected ==> historyHidden == old(historyHidden) && linHidden == old(linHidden)
    {
      if !selected {
        Highlight(partition, index);
      }
      tooltipShown := true;
    }

    /** `handleMouseMove`: the message is recomputed unless the hovered
        element and the selection are those of the cached key; either way
        the tooltip then shows the message for them. */
    method MouseMove(partition: nat, index: nat)
      requires Valid() && Element(view, partition, index)
      modifies this
      ensures Valid()
      ensures tooltip == TooltipFor(view, Key(partition, index, selected, sPartition, sIndex))
      ensures lastTooltip == Cells(Key(partition, index, selected, sPartition, sIndex))
      ensures selected == old(selected) && sPartition == old(sPartition) && sIndex == old(sIndex)
      ensures marked == old(marked) && tooltipShown == old(tooltipShown)
      ensures historyHidden == old(historyHidden) && linHidden == old(linHidden)
    {
      var key := Key(partition, index, selected, sPartition, sIndex);
      var same := ArrayEq(Some(lastTooltip), Some(Cells(key)));
      if !same {
        var m := ComputeTooltip(view, key);
        tooltip := m;
        lastTooltip := Cells(key);
      }
    }

    /** `handleMouseOut`: without a selection the highlight is reset; the
        tooltip is hidden and its cache cleared. */
    method MouseOut()
      requires Drawn()
      requires selected ==> Valid()
      modifies this
      ensures Drawn() && !tooltipShown && lastTooltip == NoKey
      ensures selected == old(selected) && sPartition == old(sPartition) && sIndex == old(sIndex)
      ensures marked == old(marked) && tooltip == old(tooltip)
      ensures !selected ==> (forall i :: 0 <= i < |historyHidden| ==> !historyHidden[i]) && LinsReset(linHidden)
      ensures selected ==> historyHidden == old(historyHidden) && linHidden == old(linHidden)
    {
      if !selected {
        ResetHighlight();
      }
      tooltipShown := false;
      lastTooltip := NoKey;
    }

    /** `select(partition, index)`: the element becomes the selection, is
        highlighted and marked. */
    method Select(partition: nat, index: nat)
      requires Drawn() && Unmarked() && Element(view, partition, index)
      modifies this
      ensures Valid()
      ensures selected && sPartition == partition && sIndex == index
      ensures HistoryHighlighted(historyHidden, partition) && LinsHighlighted(view, linHidden, partition, index)
      ensures tooltipShown == old(tooltipShown) && lastTooltip == old(lastTooltip) && tooltip == old(tooltip)
    {
      selected := true;
      sPartition, sIndex := partition, index;
      Highlight(partition, index);
      marked := marked[partition := marked[partition][index := true]];
    }

    /** `deselect()`: nothing happens without a selection; otherwise the
        selection is dropped, the highlight reset and the mark removed. */
    method Deselect()
      requires Valid()
      modifies this
      ensures Valid() && !selected && Unmarked()
      ensures sPartition == old(sPartition) && sIndex == old(sIndex)
      ensures tooltipShown == old(tooltipShown) && lastTooltip == old(lastTooltip) && tooltip == old(tooltip)
      ensures !old(selected) ==> historyHidden == old(historyHidden) && linHidden == old(linHidden) && marked == old(marked)
      ensures old(selected) ==> (forall i :: 0 <= i < |historyHidden| ==> !historyHidden[i]) && LinsReset(linHidden)
    {
      if !selected {
        return;
      }
      selected := false;
      ResetHighlight();
      marked := marked[sPartition := marked[sPartition][sIndex := false]];
    }

    /** `handleClick`: clicking the selected element deselects it; clicking
        any other element moves the selection (and its mark) there. */
    method Click(partition: nat, index: nat)
      requires Valid() && Element(view, partition, index)
      modifies this
      ensures Valid()
      ensures old(selected) && partition == old(sPartition) && index == old(sIndex) ==>
        !selected && Unmarked() && (forall i :: 0 <= i < |historyHidden| ==> !historyHidden[i]) && LinsReset(linHidden) &&
        sPartition == old(sPartition) && sIndex == old(sIndex)
      ensures !(old(selected) && partition == old(sPartition) && index == old(sIndex)) ==>
        selected && sPartition == partition && sIndex == index &&
        HistoryHighlighted(historyHidden, partition) && LinsHighlighted(view, linHidden, partition, index)
      ensures tooltipShown == old(tooltipShown) && lastTooltip == old(lastTooltip) && tooltip == old(tooltip)
    {
      if selected {
        if partition == sPartition && index == sIndex {
          Deselect();
          return;
        } else {
          marked := marked[sPartition := marked[sPartition][sIndex := false]];
        }
      }
      Select(partition, index);
    }

    /** `handleBgClick`: a click on the background drops any selection. */
    method BgClick()
      requires Valid()
      modifies this
      ensures Valid() && !selected && Unmarked()
      ensures sPartition == old(sPartition) && sIndex == old(sIndex)
      ensures !old(selected) ==> historyHidden == old(historyHidden) && linHidden == old(linHidden)
      ensures old(selected) ==> (forall i :: 0 <= i < |historyHidden| ==> !historyHidden[i]) && LinsReset(linHidden)
      ensures tooltipShown == old(tooltipShown) && lastTooltip == old(lastTooltip) && tooltip == old(tooltip)
    {
      Deselect();
    }
  }
}
