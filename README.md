# Porcupine history visualization: a Dafny model of `render`

Porcupine is a linearizability checker. Its visualization draws each
partition's history as a timeline: one row per client, one box per
operation, and the checker's partial linearizations drawn as lines through
the boxes. The "illegal next" steps, where a partial linearization got stuck,
are drawn as dead-end markers. This project models the core of `render`
(`visualization/index.js`) and proves what it computes:

- **Input normalisation** (module `Normalize`). It finds the largest client
  id and gives every distinct annotation tag a synthetic client id, in sorted
  tag order. It assigns dense global ids (gids) and collects the timestamps.
  `epsilon` is a third of the smallest gap between two timestamps. An
  operation whose end equals some start is nudged right by `epsilon`; point
  annotations and touching annotations are nudged by `epsilon / 4` and
  `epsilon / 2`. The timestamps are then re-sorted. The model proves that the
  nudges keep every strict order between original timestamps, never land on
  an original timestamp, and make every event start before it ends.
- **Layout solver** (modules `Tables`, `Layout`, `LayoutScan`,
  `LayoutProperties`). `byEnd` is sorted by end time. The preprocessing
  builds `eventToLinearizations`, `eventIllegalLast` and `allLinearizations`.
  The greedy left-to-right scan gives each timestamp an x-position.
  `Layout.LayoutSpec` is a recursive specification of that layout, and the
  scan (`LayoutScan.Scan`) is proved to compute it, together with every
  linearization point. `LayoutProperties` then proves the promises of the
  design comment at lines 202-233:
  - timestamps keep a gap of `BOX_GAP`;
  - every box fits its text;
  - every linearization point lies inside its box;
  - every illegal-next marker fits;
  - the layout is minimal among all layouts that meet these constraints.
- **Illegal next steps and the linearization choice** (module `Illegal`).
  `IllegalNext` is the one definition of the illegal-next rule. Both the
  layout preprocessing and the drawing loop use it. The module also builds
  `illegalLast` and `largestIllegal` and models `linearizationIndex`.
- **Interaction** (modules `Tooltips`, `Interaction`). The tooltip message of
  `handleMouseMove` is a function of the hovered element and the selection,
  and its cache key is compared with `arrayEq`. The selection state machine
  (`select`, `deselect`, `handleClick`, `handleBgClick`, `handleMouseOver`,
  `handleMouseOut`, `highlight`, `resetHighlight`) is a class whose invariant
  ties the selection, the visible layers and the marked rectangle together.
- **Helpers** (module `Helpers`): `newArray` and `arrayEq`.
- **The pipeline** (module `Render`). It normalises, builds the scene, runs
  the scan, computes the drawing tables and creates the controller. It
  proves that the preconditions each stage needs follow from the input.

Timestamps are `real`. Text widths measured in the browser are an input
(`widths`, one per event in gid order). HTML strings become constructors of
`Tooltips.Message`.

## Model

| member | source | states |
|---|---|---|
| Helpers.NewArray | visualization/index.js:29-35 | The array has length `n` and element `i` is `fn(i)`. |
| Helpers.ArrayEq | visualization/index.js:37-53 | Returns true exactly when both arrays are null, or both have the same length and equal elements. |
| Ordering.SortReals | visualization/index.js:124 | The result is strictly increasing and holds exactly the input's values (the numeric sort of a set of timestamps). |
| Ordering.SortStrings | visualization/index.js:88 | The result is strictly sorted in string order and holds exactly the input's strings. |
| Ordering.StrSortedIndexOrder | visualization/index.js:88-92 | In a sorted tag list, the index order is the string order, and equal indices mean equal tags. |
| Normalize.MaxClient | visualization/index.js:70-75 | The result is -1 or the largest client id, and every event's client id is at most it. |
| Normalize.CollectTags | visualization/index.js:79-85 | A string is collected exactly when some annotation has it as a non-empty tag. |
| Normalize.NumberTags | visualization/index.js:86-92 | The k-th sorted tag gets id `base + k + 1`, and the final maximum is `base` plus the number of tags. |
| Normalize.RelabelAnnotations | visualization/index.js:93-98 | A tagged annotation gets its tag's id, an untagged one keeps its client id, and nothing else changes. |
| Normalize.TagClients | visualization/index.js:76-100 | Tags are sorted, collected exactly, numbered after the real clients, and applied to every annotation. `nClient` counts real clients plus tags. |
| Normalize.TagIdsRanked | visualization/index.js:87-92 | Tag ids lie above the real clients, follow string order in both directions, and are distinct for distinct tags. |
| Normalize.Clients | visualization/index.js:70-100 | `realClients` is one more than the largest client id, and the tags are numbered from there. |
| Normalize.AssignGids | visualization/index.js:107-123 | Gids number the events densely in partition order, `byGid` lists them, and the start, end and all-timestamp sets are exactly the events' times. |
| Normalize.NumberHistory | visualization/index.js:112-122 | One partition's events get consecutive gids following those already given, and are appended to `byGid`. |
| Normalize.MinGap | visualization/index.js:137-143 | There is no gap with fewer than two timestamps. Otherwise the result is one of the gaps and no gap is smaller. |
| Normalize.GapBound | visualization/index.js:137-146 | In increasing timestamps the smallest gap is positive, and any two timestamps are at least that far apart. |
| Normalize.Epsilon | visualization/index.js:137-144 | `epsilon` is a third of a gap between two timestamps, and every two distinct timestamps are at least `3 * epsilon` apart. |
| Normalize.AdjustHistory | visualization/index.js:151-158 | Every operation is adjusted by the end-equals-a-start rule, and each new end is added to the timestamps. |
| Normalize.AdjustOperations | visualization/index.js:147-159 | Every partition except the last (the annotations) is adjusted, the last is untouched, and the new ends are added to the timestamps. |
| Normalize.AdjustAnnotations | visualization/index.js:179-197 | Each annotation is stretched if it is a point in time, and otherwise pulled off touching timestamps. Every new time is added. |
| Normalize.Adjust | visualization/index.js:147-200 | Gids are kept, operations and annotations are adjusted as above, and the re-sorted timestamps are exactly the old and new times. |
| Normalize.Prepare | visualization/index.js:65-146 | Client numbering, gid numbering, the timestamp sets and an `epsilon` separating all timestamps by `3 * epsilon`. |
| Normalize.Normalize | visualization/index.js:65-200 | The result satisfies `NormalizedFrom`: ids, gids, adjusted events and sorted timestamps are all as the steps above state. |
| Normalize.FinalStamps | visualization/index.js:185-200 | The timestamps after both adjustment passes are the original ones plus every time of the adjusted data. |
| Normalize.FinalCovered | visualization/index.js:199-200 | Every start and end of the normalised data is among the sorted timestamps. |
| Normalize.EventNudged | visualization/index.js:147-197 | Each normalised time lies between `epsilon / 2` below and `epsilon` above the original one, and a start never moves left. Point events get their exact nudged ends. |
| Normalize.NudgesKeepOrder | visualization/index.js:145-146 | Nudges of less than half the separation keep two distinct timestamps in order. |
| Normalize.NudgeAvoidsStamps | visualization/index.js:145-146 | A time that was nudged is never an original timestamp. |
| Normalize.NormalizedOrder | visualization/index.js:145-197 | A strict order between any two original start or end times is kept after normalisation. |
| Normalize.MovedAvoidsStamps | visualization/index.js:147-197 | A start or end that moved does not coincide with any original timestamp. |
| Normalize.StartBeforeEnd | visualization/index.js:147-197 | An event with start <= end has start < end after normalisation, so point annotations and touching events get a positive width. |
| Normalize.OperationsOverlap | visualization/index.js:126-159 | An operation that starts at or before another's end strictly overlaps it after normalisation. |
| Normalize.GidLookup | visualization/index.js:118-121 | Event `k` of partition `p` has gid `offset(p) + k`, and `byGid` maps it back to the event. |
| Normalize.AnnotationClient | visualization/index.js:93-98 | An untagged annotation keeps its client. A tagged one gets a client after the real clients whose sorted tag is its tag. |
| Tables.InsertBox | visualization/index.js:261 | Inserting keeps `byEnd` order (by end, then by gid as a stable sort would) and adds exactly one box. |
| Tables.SortByEnd | visualization/index.js:261 | The result is in stable end order, has the same length and holds exactly the input boxes. |
| Tables.ByEnd | visualization/index.js:238-261 | `byEnd` has one box per event, with width = measured + `2 * BOX_TEXT_PADDING`, sorted stably by end. |
| Tables.GlobalizeLin | visualization/index.js:271-279 | `globalized` maps each step to its event's gid. `eventToLinearizations` gains exactly the positions of this linearization. |
| Tables.RecordIllegal | visualization/index.js:280-290 | `eventIllegalLast[g]` gains this linearization exactly when `g` is an illegal next step of it (the shared rule). |
| Tables.AddLinearization | visualization/index.js:269-292 | Adding one linearization's entries keeps the tables exact for all linearizations numbered so far. |
| Tables.Preprocess | visualization/index.js:262-293 | `allLinearizations` lists every partition's linearizations in order, with gids. `eventToLinearizations[g]` holds exactly the positions of `g`. `eventIllegalLast[g]` holds exactly the linearizations `g` is an illegal next step of. |
| Layout.Points | visualization/index.js:327-340 | The point list of a linearization has one point per step. |
| Layout.NextPoint | visualization/index.js:335-339 | A point is at or right of its event's start, at least `EPSILON` right of the previous point, and equal to one of the two. |
| Layout.LastPositions | visualization/index.js:316-324 | Each illegal-next entry becomes the position of its linearization's last step. |
| Layout.PointsSpaced | visualization/index.js:327-340 | The first point is at its event's start. Every point is at or right of its start and at least `EPSILON` after the previous one. |
| Layout.PointsPrefix | visualization/index.js:327-341 | The points of a prefix are the prefix of the points, so extending a row incrementally computes the same points. |
| Layout.LayoutKeys | visualization/index.js:296-358 | After `n` rounds exactly the first `n` timestamps have positions. |
| Layout.ReadyBelow | visualization/index.js:305-308 | When the earlier timestamps are placed, every box ending at `ts[i]` has its start and its linearization points' starts placed. |
| LayoutScan.ExtendPoints | visualization/index.js:327-341 | Extends a linearization's points up to `position` with the spec points, leaving the others alone. |
| LayoutScan.PushSteps | visualization/index.js:316-347 | The new position is the maximum of the old one and the points of every step of the event. |
| LayoutScan.PushIllegal | visualization/index.js:348-353 | The new position is the maximum of the old one and each illegal linearization's last point plus `EPSILON`. |
| LayoutScan.PlaceEvent | visualization/index.js:305-356 | One event's lower bound on the position: its text end, its linearization points and its illegal markers. |
| LayoutScan.ConsumeBox | visualization/index.js:305-356 | One round of the inner loop folds box `e` into the bound and marks it consumed. |
| LayoutScan.ConsumeBoxes | visualization/index.js:305-356 | The inner loop consumes exactly the boxes ending by `ts[i]` and computes their combined bound. |
| LayoutScan.PlaceTimestamp | visualization/index.js:299-358 | The position of `ts[i]` is the greatest of the previous position plus `BOX_GAP` and the bounds of every box ending at `ts[i]`. |
| LayoutScan.ScanStep | visualization/index.js:299-358 | One round of the outer loop extends the computed positions to `LayoutSpec(i + 1)`. |
| LayoutScan.Scan | visualization/index.js:294-358 | `xPos` equals the specification layout, and every linearization's row of points is fully computed and equal to its specified points. The `byEnd` cursor ends at the length of `byEnd`, so every box is consumed exactly once. |
| LayoutProperties.LayoutGap | visualization/index.js:298-303 | The first timestamp is at 0, and each later one is at least `BOX_GAP` right of the previous one. |
| LayoutProperties.LayoutMonotone | visualization/index.js:299-303 | Earlier timestamps lie at least `BOX_GAP` left of later ones. |
| LayoutProperties.LayoutTextFits | visualization/index.js:307-309 | Every box is at least as wide as its text needs. |
| LayoutProperties.LayoutPointsFit | visualization/index.js:310-347 | Every linearization point lies between its event's start and end positions. |
| LayoutProperties.PointBeforeEnd | visualization/index.js:342-346 | A linearization point is at or left of its event's end. |
| LayoutProperties.LayoutIllegalFits | visualization/index.js:348-353 | A linearization that ends just before an illegal next step leaves `EPSILON` of room before that step's end. |
| LayoutProperties.LayoutFeasible | visualization/index.js:296-358 | The computed layout meets every constraint of the layout comment at lines 202-233. It starts at 0 or later and is gapped. The end of every box leaves room for its text, its linearization points and its illegal markers. |
| LayoutProperties.PointsLeast | visualization/index.js:327-340 | Any placement with each point at or right of its event's start and `EPSILON` after the previous one lies at or right of `Points`, so the greedy points are the leftmost possible. |
| LayoutProperties.LayoutMinimal | visualization/index.js:296-358 | Every timestamp's position is at most its position in any other layout meeting the constraints, so the greedy scan is optimal. |
| LayoutProperties.MinimalStep | visualization/index.js:299-358 | If the first `i` positions are below a feasible layout's, so is position `i`. |
| LayoutProperties.TimestampBoundGe | visualization/index.js:305-356 | The timestamp bound is at least the start value and dominates every box ending at that timestamp. |
| LayoutProperties.TimestampBoundLe | visualization/index.js:305-356 | Any value above the start value that dominates those boxes is above the bound, so the bound is the least such value. |
| Illegal.IncludedSet | visualization/index.js:272-278 | The set holds exactly the event indices the linearization names. |
| Illegal.MinEnd | visualization/index.js:280-285 | There is no minimum exactly when every event is included. Otherwise it is the least end among the events not included. |
| Illegal.IllegalNext | visualization/index.js:280-290 | The result is ascending, and holds exactly the events outside the linearization that start before every such event ends. |
| Illegal.SomeNextStep | visualization/index.js:539-550 | When events start before they end and some event is not included, there is an illegal next step. |
| Illegal.ChooseIllegal | visualization/index.js:504-585 | `illegalLast[L]` holds exactly the illegal next steps of linearization `L`. `largestIllegal` maps each such event to its first longest linearization. |
| Illegal.ChooseAll | visualization/index.js:490-587 | The same, for every partition. |
| Illegal.OfferKeeps | visualization/index.js:576-583 | An event's entry is replaced only by a strictly longer linearization, so the first longest one is kept. |
| Illegal.LargestIllegalUnique | visualization/index.js:577-583 | The `largestIllegal` table is determined by the histories and linearizations. |
| Illegal.LinearizationIndex | visualization/index.js:606-618 | An annotation gets no linearization. |
| Illegal.LinearizationChoice | visualization/index.js:606-618 | The checker's `Largest` entry wins. Otherwise the first longest linearization the event is an illegal next step of, and none when there is none. |
| Tooltips.MaxIndex | visualization/index.js:651-657 | The chosen linearization, for the hovered element or else for the selected one, exists in its partition. |
| Tooltips.Position | visualization/index.js:672-682 | The first step naming the event, and none exactly when the event is not in the linearization. |
| Tooltips.FindStep | visualization/index.js:672-682 | The search loop finds the first step naming the event and the step before it. |
| Tooltips.TooltipFor | visualization/index.js:651-713 | Never blank. A step or illegal-step message carries the hovered event's call time and original return time. |
| Tooltips.ComputeTooltip | visualization/index.js:651-713 | The message computed by the branches and loop of `handleMouseMove` is `TooltipFor`. |
| Tooltips.HoverLinearized | visualization/index.js:686-697 | Without a selection, an event in its `Largest` linearization shows its previous state, new state, call and return. |
| Tooltips.HoverIllegal | visualization/index.js:698-707 | Without a selection, an event only illegal next shows the last state of its first longest linearization. |
| Tooltips.HoverNowhere | visualization/index.js:664-667 | Without a selection, an event in no linearization and no illegal set shows "not part of any partial linearization". |
| Tooltips.HoverOtherPartition | visualization/index.js:662-663 | With a selection in another partition, the tooltip says so. |
| Tooltips.HoverInSelection | visualization/index.js:655-697 | With a selection, an element of the same partition in the selected linearization shows its own step of it. |
| Tooltips.HoverSelectedNowhere | visualization/index.js:664-669 | With a selection in the hovered partition that is in no linearization and no illegal set, the tooltip says the selected element is not part of any partial linearization. |
| Tooltips.HoverOutsideLinearization | visualization/index.js:698-711 | When the linearization to show is `L` and the hovered element is neither a step of `L` nor an illegal next step of it, the tooltip says it is not part of that linearization. |
| Tooltips.FirstLongestUnique | visualization/index.js:577-583 | At most one linearization is the first longest for an event. |
| Interaction.Cells | visualization/index.js:643-648 | The five-cell key reads back as the key it was made from, and never equals the null key. |
| Interaction.HideOtherPartitions | visualization/index.js:622-628 | Exactly the hovered partition's history layer is shown. |
| Interaction.ShowAllPartitions | visualization/index.js:736-738 | Every history layer is shown. |
| Interaction.SetLinLayers | visualization/index.js:630-634 | Every linearization layer is hidden, except the first of each partition when asked to show it. |
| Interaction.Controller.constructor | visualization/index.js:382-383 | Initial state after the closing `handleMouseOut()` (line 806): nothing selected, selection `[-1, -1]`, no cached key, all history layers and the first linearizations shown. |
| Interaction.Controller.Highlight | visualization/index.js:620-641 | Shows only the partition's history layer and only its chosen linearization. The selection and the tooltip are unchanged. |
| Interaction.Controller.ResetHighlight | visualization/index.js:734-750 | Shows every history layer and the first linearization of each partition. Nothing else changes. |
| Interaction.Controller.MouseOver | visualization/index.js:597-604 | Shows the tooltip, and highlights the hovered element only when nothing is selected. |
| Interaction.Controller.MouseMove | visualization/index.js:643-715 | The tooltip is `TooltipFor` the hovered element and selection, whether recomputed or kept because the key matches the cache. The cache then holds that key. The layers and the selection are unchanged. |
| Interaction.Controller.MouseOut | visualization/index.js:726-732 | Hides the tooltip and clears the cache. Resets the highlight only when nothing is selected. |
| Interaction.Controller.Select | visualization/index.js:789-794 | The element becomes the selection, its partition and linearization are highlighted, and only its rectangle is marked. |
| Interaction.Controller.Deselect | visualization/index.js:796-804 | A selection is cleared, the highlight reset and the mark removed. Without a selection nothing changes. |
| Interaction.Controller.Click | visualization/index.js:770-783 | Clicking the selected element deselects it: all history layers visible, only the first linearizations shown, and `selectedIndex` kept. Any other click moves the selection and the mark to the clicked element. |
| Interaction.Controller.BgClick | visualization/index.js:785-787 | Clicking the background leaves nothing selected or marked, and `selectedIndex` is kept. When a selection is dropped, every history layer becomes visible and only the first linearizations are shown. Without one the layers stay as they were. |
| Render.NormalizedLins | visualization/index.js:126-159 | Linearizations consistent with real time before normalisation stay so afterwards, strictly. |
| Render.RenderFacts | visualization/index.js:65-293 | From the input: gids, timestamps and linearization order are what the layout needs. |
| Render.SceneWellFormed | visualization/index.js:238-293 | The scene built from the normalised data satisfies everything the scan relies on. |
| Render.BuildScene | visualization/index.js:238-293 | Builds `byEnd` and the preprocessing tables from the normalised data. The result is well formed. |
| Render.BuildView | visualization/index.js:490-587 | The handlers' tables are the drawing loop's `illegalLast` and `largestIllegal`. |
| Render.Render | visualization/index.js:55-806 | Normalised data, a well-formed scene, the specified layout and points, and a valid, unselected controller over the drawing tables. The controller starts in the state line 806 leaves: tooltip hidden, no cached key, every history layer visible and only the first linearizations shown. |

## Left out

- Drawing: the SVG elements, the DOM, CSS classes (except as boolean grids), box heights and rows, the x-offset `t0x` and `maxTagWidth` (lines 360-378, 385-488) are not modelled.
- Text widths: `getBBox` is a browser measurement, so the measured widths are an input to `Render.Render` and `Tables.ByEnd`.
- `updateJump` and the jump link (lines 752-768), the sorting of `errorPoints`, scrolling, and tooltip placement (lines 716-723) are not modelled. They depend only on DOM state.
- Normalize.Normalize: requires at least two distinct timestamps. With one timestamp the source divides `Infinity` by 3 and adjusts times by an infinite `epsilon`, which the reals cannot express.
- Normalize.Normalize: the input is modelled as values. The source writes `Gid`, `ClientId`, `End` and `OriginalEnd` into the input records in place, and the model returns new records, so aliasing of those records is not captured.
- Ordering.SortStrings: compares strings by character value, as the source's default sort compares UTF-16 code units. Surrogate pairs are not modelled separately.
- Render.Render: requires non-empty partial linearizations that respect real time (every step's call precedes the returns of later steps and of all events not included), as the checker produces them. It also requires a `Largest` map whose entries name existing linearizations. The checker that computes these is not part of this model.
- Render.Render: requires `start <= end` for every event, and this applies to the user-supplied annotations as well as to the operations. The source checks nothing of the kind: it takes `Start` and `End` as given (lines 107-123, 179-197). For an annotation that ends before it starts, the scan reads `xPos` of a start that is not placed yet (line 308), which yields NaN positions. The model does not cover that input.
- Illegal.ChooseIllegal: `largestIllegal` keeps the first longest linearization when two have equal length, because the source replaces an entry only when the stored length is strictly smaller (line 579).
- Illegal.IsIllegalNext: the code takes the minimum end over all events not included, including the candidate itself (lines 280-285, 543-548). The comment at lines 541-542 speaks of the candidate against the "others". The two agree because every normalised event starts strictly before it ends (`Normalize.StartBeforeEnd`).
- Floating point: timestamps and positions are exact reals. Rounding in `minDelta / 3` and in the nudged times is not modelled.
