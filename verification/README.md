# Verified model of the drawing and answer pages

A Dafny model of what the rongo web page computes before it draws: the diagram
layouts, the reading of a streamed answer into the thread it belongs to, and the
small stateful pieces around them. `dafny verify dfyconfig.toml` checks all of it.

Code that changes things step by step is modelled by methods with loops and by
classes whose methods update their fields. Each is proved equal to a function of its
inputs or of its old state, and what the code promises is proved about that function.

- **Sequence diagrams** (`SequenceIR`, `SequenceColumns`, `SequenceLayout`,
  `SequenceRows`, `SequenceFrames`, `SequenceProof`, `SequenceEnclosure`,
  `SequenceCanvas`, `SequenceTheorem`, `SequenceDividers`, `SequenceCheck`,
  `SequenceDraw`, `SequenceReading`, `SequenceReads`, `SequenceStack`,
  `SequenceSpans`). The reader takes exactly the diagrams it can draw and its rows say what
  the records say, in order; for every one of them the layout's own checker finds nothing, everything written is drawn in order between the lifelines it names,
  each in a box of its own text's measure, and a frame holds exactly the rows written
  inside it, parted by its dividers as written, and reaches no further than they ask. The
  joint invariant over rows is `SequenceProof.Good`.
- **Flow diagrams, a trigger-to-target mapping** (`Flow`, `FlowLabels`, `FlowMapping`,
  `MappingRows`, `MappingColumns`, `MappingArrows`, `MappingTriggers`,
  `MappingExits`, `MappingLanes`, `MappingLayout`, `MappingDrawing`, `MappingTheorem`,
  `MappingReads`, `MappingOrder`, `MappingTurns`, `MappingPlain`, `MappingCrowded`,
  `MappingTangled`, `MappingTall`). Rows, entries and exits in the order of the arrows that
  first reach them; boxes and labels of their texts' own measure. The
  running floor keeps triggers apart and within their rows; a pigeonhole argument on the
  2 px grid shows the search for an exit always finds one where the box has room; no way
  of sharing lanes needs fewer. Every connector rule of the checker is proved of every
  mapping, but for arrows that share a stretch or an attach point, which have exact
  conditions.
- **Flow diagrams, a main path with branches** (`SpinePath`, `SpineShape`,
  `SpineSizes`, `SpineLanes`, `SpineRows`, `SpineLabels`, `SpineDrawn`, `SpineCaptions`,
  `SpineLayout`, `SpineLooks`, `SpinePlacing`, `SpineTheorem`, `SpineFound`, `SpineReads`,
  `SpineSmall`, `SpineLong`, `SpineDots`, `SpineCrossing`). Exactly the flows that are a main
  path and branches are taken; the path is the longest simple one from the first node no
  edge enters, ties to the edge written first; rows and columns stand as close as they fit; every node and edge in exactly one place; two routes
  cross exactly when both are lanes whose spans properly overlap; what touches, runs on
  top of or passes behind what, and which label lies over what, each with the exact
  condition.
- **Routes and labels** (`Tidy`, `Routes`, `DiagramTheme`, `WordsKept`, `FlowSizes`,
  `Geometry`). Dropping redundant points keeps exactly the points a route passes through;
  greedy wrapping takes the fewest lines and keeps every word of every paragraph.
- **The ask page** (`AskPage`, `AskRuns`, `AskScreen`, `Turns`, `TurnWriting`, `Drain`). A
  transition system over the page's refs in which one turn keeps being written while the
  reader opens other threads and loads come back late; what every field of the turn reads
  after any run of events; the event reader, independent of how the stream is cut; the
  clock of a turn's steps.
- **Smaller pieces** (`HighlightLines`, `FinishedCache`, `Feedback`, `Segments`,
  `Pastes`).

Lengths are `real` or `int`, so rounding is only where the source rounds. The width of
a text is an abstract measure: every character has a non-negative advance, and a text
is as wide as its characters together times the size. A distance is compared squared.
Characters are Dafny's, not UTF-16 units. The mermaid database, the server's replies,
the network and the clock are parameters or environment steps.

Where the code does not keep what its checker or its comments promise, the input and the
exact condition are both stated:

- A branch's node but its last that is wider than its column and the gap after it is
  drawn over the next node, and its arrows can run on top of each other.
  `SpineTheorem.NodesApartIffKeep` says exactly when the nodes are apart,
  `RoutesJoin` when an arrow meets its boxes, `RoutesPass` when it passes behind one, and
  `RoutesApart` when two routes share a stretch or an end. `SpineLong` is a flow of seven nodes, one a
  decision asking a question of 149 letters and spaces at the page's own 0.56 em a letter:
  in its every drawing two nodes overlap (`SpineLong.LongDrawnOver`), the two arrows past the
  decision run on top of each other (`LongRunsOn`) and one passes behind a node
  (`LongPassesBehind`).
- Two lanes whose spans properly overlap do cross, and only those (`SpineTheorem.RoutesApart`).
  `SpineCrossing.LanesDrawnCrossing` is a flow of four nodes with two such lanes.
- A step's label wide enough to reach the branch column can lie over a branch's box, or
  over the label of an arrow into it; a label out of a node wider than its column can lie
  over the boxes and labels of its row. `SpineTheorem.LabelsOver` and `LabelsApart` say exactly
  which label lies over which node and which label. `SpineDots.StepDrawnOver` is a flow of
  four nodes in whose every drawing a step's label lies over a branch's node and over the
  branch's label.
- Out of a trigger over several rows the search for an exit can find no height free and
  fall back on the middle of the box, and a stretch out of one trigger can lie on the
  stretch into a target. `MappingTheorem.ExitsEqualIff` says that two exits fall on one
  height exactly when the later search falls back on a middle already taken;
  `MappingTheorem.EndsSharedIff` and `MappingTheorem.RoutesTogetherIff` say exactly when two
  arrows share an attach point or a stretch, `MappingTheorem.RoomyRoutesApart` and
  `MappingTheorem.EntryBeyond` where they cannot. `MappingCrowded.CrowdedShare` is a mapping
  of two triggers and five targets, and `MappingTangled.TangledOverlaps` one of four and
  three, in which they do, whatever the fonts.
- A mapping's box has room for its label unless it is a trigger over several rows whose own
  targets need less together (`MappingReads.LabelHasRoomIff`, `SeveralRowsTall`).
  `MappingTall.TallOverflows` is a mapping of three nodes, one labelled with ten lines, in
  which it has not, whatever the fonts.
- The name of a grammar holding a NUL would share a cache key with another block:
  `FinishedCache.NulCollides` and `FinishedCache.KeyTells`.
- A new thread's record still awaited on screen when the thread's event arrives lands
  over the turn being written: `AskRuns.AwaitedOverwrites`, and `AskRuns.AwaitedRun` for a
  run that comes to it. `AskPage.May` shuts that case out and nothing more.
- When a write is refused, its reply is lost or its figures cannot be read, the choice
  waiting behind it is dropped (`Feedback.LostReplyKeepsOlder`, in the run of
  `Feedback.LostReplyRun`), and one made while the
  truth is read back waits with nothing to send it (`Feedback.RefusalStrands`).
  `Feedback.NothingWaits` and `Feedback.RereadStrands` say exactly when nothing is left
  waiting, and `Feedback.RecoveredChoiceWins` that from any rest on, whatever failed before,
  the last choice wins again.
- The page says a reply's figures are shown unless the reader has moved on, but decides
  that before it reads them: a choice made in between is overwritten on screen
  (`Feedback.FiguresShow` says exactly when, `Feedback.StaleVerdict` and
  `Feedback.StaleRun` that a verdict taken back then stays there). The model follows the
  code.

## Model

| member | source | states |
|---|---|---|
| DiagramTheme.MeasureText | ui/src/diagramTheme.ts:90-101 | the accumulating loop is the additive measure the other results use |
| DiagramTheme.TextWidthConcat | ui/src/diagramTheme.ts:90-101 | a text split in two is as wide as its parts together |
| DiagramTheme.Wrap | ui/src/diagramTheme.ts:121-142 | the nested loops give the greedy wrapping, paragraph by paragraph |
| DiagramTheme.WrapIsOptimal | ui/src/diagramTheme.ts:121-142 | a single-spaced paragraph is broken at spaces into lines within the width or of one word, and no such break has fewer lines |
| DiagramTheme.RejoinRestores | ui/src/diagramTheme.ts:121-142 | joining the lines with spaces gives the paragraph back |
| DiagramTheme.WiderNeverMoreLines | ui/src/diagramTheme.ts:121-142 | a larger width never gives more lines |
| WordsKept.WrapKeepsWords | ui/src/diagramTheme.ts:121-142 | whatever a text's spacing its lines fall into as many runs as it has paragraphs, each holding that paragraph's words in order and nothing else |
| SequenceIR.ReadSequence | ui/src/diagramIR.ts:312-373 | the loop with its depth counter reads a database exactly as the specification does, every early refusal included |
| SequenceIR.ReadIsWellFormed | ui/src/diagramIR.ts:312-373 | whatever is read has distinct participants, messages and notes between known ones, balanced frames no deeper than allowed and dividers only inside a frame |
| SequenceReading.ReadExactly | ui/src/diagramIR.ts:312-373 | a diagram is read exactly when it has no title, groups or passing participants, someone in it, only records that may be drawn, frames closed, at most three deep, and dividers and ends inside one; participants are those with an id, labelled by name; each message and note between known ones and each part of a frame has its row, in order, with its record's ends, text, side, line, head and keyword |
| SequenceColumns.MeetInPlace | ui/src/diagramSequence.ts:478-484 | one constraint raises the gaps it spans, in place in the array |
| SequenceColumns.Columns | ui/src/diagramSequence.ts:475-489 | the solver's loops over the sorted constraints give the specified columns |
| SequenceColumns.ColumnsMeet | ui/src/diagramSequence.ts:471-489 | every constraint is met by the columns, those met early still met at the end |
| SequenceColumns.ColumnsAscend | ui/src/diagramSequence.ts:471-489 | columns start at 0 and never go back, each at a whole pixel |
| SequenceColumns.ColumnsTight | ui/src/diagramSequence.ts:471-488 | neighbours stand their gap apart and less than a pixel more, the gaps being none before the first constraint |
| SequenceColumns.WideSharesAlike | ui/src/diagramSequence.ts:471-489 | a constraint over several gaps, written anywhere among constraints between neighbours, raises each gap it spans by the same share, and by no more than it lacks |
| SequenceColumns.EachSharesAlike | ui/src/diagramSequence.ts:471-489 | of any constraints each is met after all the narrower ones, widening every gap it spans by the same share of what it lacks and no other gap |
| SequenceDraw.LifelineColumns | ui/src/diagramSequence.ts:188-231 | the constraints pushed row by row give the specified lifelines |
| SequenceDraw.StackRows | ui/src/diagramSequence.ts:233-407 | the single pass with its running height and stack of open frames is the fold over rows |
| SequenceDraw.LayoutSequence | ui/src/diagramSequence.ts:165-469 | the whole layout is the specified one |
| SequenceCheck.CheckSequence | ui/src/diagramCheck.ts:172-270 | the checker lists nothing exactly when every text fits and is clear of its line, of lifelines and of other texts, dividers are clear, frames nest by the inset or lie apart, and all is on the canvas |
| SequenceProof.LifelinesRoomy | ui/src/diagramSequence.ts:188-231 | lifelines stand left to right with room for every row and every pair of participants |
| SequenceReads.LifelinesAsked | ui/src/diagramSequence.ts:188-231 | and every constraint they meet is two neighbours' boxes' or a row's: a text and 16 either side, a loop and its text, a note on its own side |
| SequenceRows.TextsKept | ui/src/diagramSequence.ts:245-407 | each row keeps its text in a band of heights of its own, so no two texts meet |
| SequenceFrames.FramesKept | ui/src/diagramSequence.ts:245-407 | each row keeps open frames on the stack in order, closed ones apart or inside one another by the inset, and dividers clear of texts and of frames |
| SequenceEnclosure.AllItemsOk | ui/src/diagramSequence.ts:245-407 | all through the rows a frame holds what was written inside it and stands clear of the rest |
| SequenceProof.RowsGood | ui/src/diagramSequence.ts:245-407 | the joint invariant holds after any rows |
| SequenceCanvas.CanvasHolds | ui/src/diagramSequence.ts:427-469 | once shifted, every box, text, frame and note is inside the width and height given |
| SequenceTheorem.LayoutClean | ui/src/diagramCheck.ts:172-270 | for every well-formed diagram the layout passes every rule of the checker |
| SequenceTheorem.ParticipantsApart | ui/src/diagramSequence.ts:197-203 | participants keep their order, their boxes at least the column gap apart |
| SequenceReads.ParticipantsRead | ui/src/diagramSequence.ts:172-187 | each participant's box reads its label, wrapped at 160, a name from the code in the mono and else in the bold sans, is centred on its lifeline, holds its lines and 16 either side and no more past 96, and is as tall as the tallest of all needs, 18 a line and 22; the lifeline hangs from it |
| SequenceReads.LifelinesSpan | ui/src/diagramSequence.ts:408-469 | a lifeline runs from 24 above the first message or note to 16 under the last, the canvas ending 24 under it |
| SequenceStack.RowsStack | ui/src/diagramSequence.ts:233-408 | rows stand one right under another, the first 24 under the heads, each next one the gap of its kind on: 18 past a message, note or closed frame, 8 past a title, 12 past a condition; a divider is 9 above its row or as high as the condition before lets it, and the lifelines end 16 under the last row |
| SequenceTheorem.LayoutDraws | ui/src/diagramSequence.ts:165-469 | every message, note and frame written is drawn, in order, between the lifelines it names, messages one under another |
| SequenceReads.MessagesRead | ui/src/diagramSequence.ts:245-299 | each message's text is set by what it is, in a box of its own measure, 8 above an arrow's middle or beside a loop of its height, and it counts as framed exactly inside a frame |
| SequenceReads.NotesRead | ui/src/diagramSequence.ts:300-323 | each note's box is as wide and tall as its text asks, over two participants half way between them and 24 past each |
| SequenceReads.FramesRead | ui/src/diagramSequence.ts:324-400 | each frame's title and conditions are in boxes of their own measure, 12 in from its left |
| SequenceTheorem.FramesHoldTheirRows | ui/src/diagramSequence.ts:371-407 | a frame is a box around exactly the messages and notes written inside it, inset on every side; every other row is above or below it |
| SequenceSpans.FramesSpan | ui/src/diagramSequence.ts:371-407 | a frame reaches 16 past the lifelines its rows name, with no rows those of the frame around it so far or all, and on neither side further than these, something drawn 12 in, its title or a condition ask |
| SequenceDividers.DividersPart | ui/src/diagramSequence.ts:357-371 | every divider is drawn as its frame's next one, inside the frame, saying its condition; every message and note written before it is above it and every one written after it below |
| SequenceDividers.DividersAllDrawn | ui/src/diagramSequence.ts:357-371 | a frame has exactly as many dividers as were written directly inside it |
| SequenceDraw.DrawSequence | ui/src/diagramCheck.ts:172-270 | reading, laying out and checking any database ends with no finding |
| FlowLabels.LabelFits | ui/src/diagramCheck.ts:46-52 | whatever widths are asked for, every line of a cleaned label fits its box less the padding |
| FlowSizes.SharedWidth | ui/src/diagramLayout.ts:117-142 | the width some boxes share is within its bounds but for a word that takes more, holds every written line below the upper bound, and is no wider than a bound or some text takes |
| FlowSizes.PlainBox | ui/src/diagramLayout.ts:144-159 | a plain box has its own label's lines, set by its shape and text, and is as tall as they take to a multiple of 4 |
| FlowSizes.LabelWhole | ui/src/diagramLayout.ts:117-159 | a label with room for each of its written lines is not broken further |
| FlowSizes.LabelMeasured | ui/src/diagramLayout.ts:224-232 | a label's box is 15 a line and as wide as its widest line in whole pixels |
| FlowLabels.WordsAreRuns | ui/src/diagramLayout.ts:120-142 | the words a label is wrapped between are the runs its box is made wide enough for |
| FlowLabels.WrapWithin | ui/src/diagramTheme.ts:118-142 | with room for every word, wrapping gives no line wider than the room |
| MappingRows.LayRows | ui/src/diagramLayout.ts:628-647 | rows and spans as the loops open them, trigger by trigger, then the targets none reached |
| MappingRows.AllRowsOk | ui/src/diagramLayout.ts:628-647 | every target has exactly one row and a row at most one target |
| MappingRows.SpansInOrder | ui/src/diagramLayout.ts:628-647 | triggers span rows one after another, none shared and none skipped |
| MappingRows.SpanHolds | ui/src/diagramLayout.ts:633-643 | whatever a trigger reaches stands in its own span or above it |
| MappingOrder.RowsInOrder | ui/src/diagramLayout.ts:628-643 | rows stand in the order of the arrows that first reach their targets, by trigger and then as written, each in that trigger's span |
| MappingOrder.UnreachedLast | ui/src/diagramLayout.ts:644-648 | targets none reaches stand below all others, as written |
| MappingColumns.RaiseRows | ui/src/diagramLayout.ts:668-673 | the loop that raises rows under one trigger gives the specified heights |
| MappingColumns.RaisedExactly | ui/src/diagramLayout.ts:668-673 | a row under one trigger alone is as high as the higher of the two, and no other row changes |
| MappingColumns.StackRows | ui/src/diagramLayout.ts:674-678 | rows stand one under another with the gap between |
| MappingColumns.StackTriggers | ui/src/diagramLayout.ts:725-746 | the triggers' boxes as the running floor places them |
| MappingColumns.SlotWithin | ui/src/diagramLayout.ts:703-710 | an entry lies within its target, the first slot no lower than its middle |
| MappingColumns.SlotsApart | ui/src/diagramLayout.ts:703-710 | two slots of one target are its spacing apart |
| MappingColumns.SlabsFollow | ui/src/diagramLayout.ts:731-746 | each trigger starts below the one above and ends within the foot of its own rows, by the floor's invariant |
| MappingOrder.TriggerStands | ui/src/diagramLayout.ts:725-746 | a one-row trigger stands right under the one above, or centred on its straight arrow where that is lower |
| MappingExits.Nearest | ui/src/diagramLayout.ts:748-762 | the search loop over every second pixel gives the specified height |
| MappingExits.BestIsNearest | ui/src/diagramLayout.ts:748-762 | the height found is free and no free one tried is nearer to the one wanted |
| MappingExits.RoomLeavesOneFree | ui/src/diagramLayout.ts:654-657 | with the room set aside for its exits a box always has a free height left, so the fallback to its middle is never taken |
| MappingTurns.BentLeavesNearest | ui/src/diagramLayout.ts:747-776 | a bent arrow leaves at the free height its trigger offers nearest its entry, the upper of two, or with none free at the middle |
| MappingExits.CrowdedExit | ui/src/diagramLayout.ts:747-762 | without that room it does fall back: on a box over two plain rows the second and third arrow to targets above leave at one height |
| MappingLanes.AssignLanes | ui/src/diagramLayout.ts:780-805 | first-fit lanes as the loop assigns them |
| MappingLanes.LaneMatesClear | ui/src/diagramLayout.ts:780-805 | two arrows in one lane never meet vertically |
| MappingTurns.LaneMatesApart | ui/src/diagramLayout.ts:780-805 | in the drawing two arrows that turn in one lane are 12 apart along it |
| MappingTurns.TurnStands | ui/src/diagramLayout.ts:806-828 | an arrow that turns does so in its lane, the first 24 past the triggers' frame, each next 12 on |
| MappingTurns.LaneIsFirst | ui/src/diagramLayout.ts:780-805 | in every lane nearer the triggers than its own an arrow that turns higher up is in its way |
| MappingLanes.FewestLanes | ui/src/diagramLayout.ts:780-805 | no assignment without two meeting takes fewer lanes |
| MappingArrows.FindPlacers | ui/src/diagramLayout.ts:684-690 | the loop finds, for each target, the arrow that placed it |
| MappingArrows.ReachedIsPlaced | ui/src/diagramLayout.ts:684-690 | every target some arrow reaches has an arrow that places it |
| MappingArrows.StraightIsOne | ui/src/diagramLayout.ts:684-690 | and only one |
| MappingOrder.StraightIff | ui/src/diagramLayout.ts:684-690 | an arrow runs straight exactly when no other reaches its target earlier |
| MappingArrows.StraightTakesFirst | ui/src/diagramLayout.ts:691-702 | the placing arrow takes its target's first slot |
| MappingArrows.EntryWithin | ui/src/diagramLayout.ts:703-710 | every arrow enters its target within its height |
| MappingArrows.EntriesApart | ui/src/diagramLayout.ts:703-710 | two arrows into one target enter its spacing apart |
| MappingOrder.EntriesInOrder | ui/src/diagramLayout.ts:691-710 | arrows into one target enter from the top by trigger and then as written |
| MappingTriggers.OneRowOneStraight | ui/src/diagramLayout.ts:716-724 | a trigger of one row has at most one straight arrow |
| MappingTriggers.TriggersApart | ui/src/diagramLayout.ts:725-746 | trigger boxes never overlap |
| MappingTriggers.TriggerWithinRows | ui/src/diagramLayout.ts:725-746 | each stays within the bottom of its own rows |
| MappingTriggers.PlacedStraight | ui/src/diagramLayout.ts:716-724 | a reached target has an arrow that places it, and only one |
| MappingTriggers.EntriesAway | ui/src/diagramLayout.ts:703-710 | any two arrows of a mapping enter at least 16 apart, into one target or two |
| MappingTriggers.StraightMeetsTrigger | ui/src/diagramLayout.ts:731-746 | a straight arrow's trigger spans the height it runs at |
| MappingLayout.TakeExits | ui/src/diagramLayout.ts:711-776 | exits taken straight arrows first, then the bent ones in order |
| MappingTurns.ExitsInOrder | ui/src/diagramLayout.ts:711-766 | of two arrows the one that takes its exit first is the straight one, of straight ones the one written first, of bent ones the one of the earlier trigger |
| MappingLayout.BentExitFree | ui/src/diagramLayout.ts:763-776 | an arrow that must bend out of a trigger with room for its exits always finds a free one |
| MappingLayout.OneRowRoomy | ui/src/diagramLayout.ts:654-674 | every trigger spanning one row has that room |
| MappingLayout.RoomyExitsApart | ui/src/diagramLayout.ts:747-776 | all exits taken on a trigger with room are pairwise at least 16 apart |
| MappingLayout.ExitsApart | ui/src/diagramLayout.ts:747-776 | so any two of its arrows leave at least 16 apart in the finished drawing |
| MappingLayout.RouteShape | ui/src/diagramLayout.ts:817-833 | an arrow runs straight across or turns once, in a lane between the two columns, without doubling back |
| MappingLayout.LanesShared | ui/src/diagramLayout.ts:780-805 | arrows of a drawing that share a lane never meet |
| MappingLayout.MappingNeedsLanes | ui/src/diagramLayout.ts:780-805 | and no way of sharing lanes takes fewer |
| MappingDrawing.LayoutMapping | ui/src/diagramLayout.ts:605-857 | rows raised and stacked, targets, triggers, exits, lanes, routes, labels and the two frames, from the loops above in turn, each where specified |
| MappingReads.BoxesWide | ui/src/diagramLayout.ts:605-657 | all boxes share one width, between 160 and 240 or what the longest word takes |
| MappingReads.TargetTall | ui/src/diagramLayout.ts:648-660 | a target is as tall as its label's lines or, entered more than once, as its entries need, and no taller |
| MappingReads.OneRowTall | ui/src/diagramLayout.ts:654-673 | a trigger of one row is as tall as its label's lines or, left more than once, as its exits need, and no taller |
| MappingReads.SeveralRowsTall | ui/src/diagramLayout.ts:731-739 | a trigger over several rows is as tall as its own targets' boxes and the gaps between |
| MappingReads.LabelHasRoomIff | ui/src/diagramLayout.ts:648-739 | a box has room for its label exactly when it is no trigger over several rows whose own targets need less together |
| MappingTall.TallOverflows | ui/src/diagramLayout.ts:731-739 | in the mapping of s, its label ten lines, to t and to u the box of s is 103 tall and its label takes 202 or more |
| MappingReads.LabelStands | ui/src/diagramLayout.ts:836-838 | an arrow has a label exactly when its text says something, of the text's own measure, ending 16 before the target and 8 above the entry |
| MappingReads.LabelsSpace | ui/src/diagramLayout.ts:614-626 | entries stand 16 apart, or by the tallest label and 24 where one is labelled; rows 20 or by the tallest label and 8 |
| MappingReads.ColumnsStand | ui/src/diagramLayout.ts:806-816 | triggers stand at 20; targets past the frame, its lanes and 16 either side of the widest label, or 40, and less than 8 more |
| MappingTheorem.NodesApart | ui/src/diagramLayout.ts:605-760 | no two nodes of a mapping overlap |
| MappingTheorem.FramesHold | ui/src/diagramLayout.ts:806-852 | the frames lie side by side, each around its own column by 20 and 44 below its top, with room for its title |
| MappingReads.FramesSnug | ui/src/diagramLayout.ts:806-852 | each frame is just wide enough for its boxes or its title, and both end 20 under the lowest box |
| MappingTheorem.RouteMeets | ui/src/diagramCheck.ts:60-87 | every arrow is level and upright, leaves its trigger and enters its target straight through their facing sides, and passes behind no node |
| MappingTheorem.ExitsEqualIff | ui/src/diagramLayout.ts:748-776 | two exits fall on one height exactly when the arrows leave one trigger and the search for the later finds nothing free, its box's middle being the earlier's exit |
| MappingTheorem.RoutesTogetherIff | ui/src/diagramCheck.ts:105-110 | two arrows run on top of each other exactly when the later search falls back on the earlier's exit so, or one's way out lies on the other's way in past its lane |
| MappingTheorem.EntryBeyond | ui/src/diagramLayout.ts:748-834 | one's way out never lies on another's way in whose entry is higher or lower than every exit its trigger's box offers |
| MappingTheorem.EndsSharedIff | ui/src/diagramCheck.ts:111-114 | two arrows share an attach point exactly when the search for the later falls back on the earlier's exit so |
| MappingTheorem.RoomyRoutesApart | ui/src/diagramCheck.ts:105-114 | out of a trigger with room no arrow shares an attach point, and only a way out on a way in runs on top |
| MappingTheorem.LabelClear | ui/src/diagramCheck.ts:91-95 | a label is 8 clear of its own arrow and of every other |
| MappingTheorem.LabelApart | ui/src/diagramCheck.ts:96-125 | a label lies over no node and over no other label |
| MappingCrowded.CrowdedShare | ui/src/diagramLayout.ts:747-776 | in the mapping of a to t, u, v and of s to w, x, t, u, v the last two arrows share an attach point and a stretch |
| MappingTangled.TangledOverlaps | ui/src/diagramLayout.ts:779-834 | in the mapping of d to x, of a and b to z and of c to z, x, y the arrow from c to z runs out on top of the arrow from d to x |
| SpinePath.Walk.Longest | ui/src/diagramLayout.ts:275-285 | the recursion over the mutated set returns the specified path and leaves the set as it was |
| SpinePath.LongestBeats | ui/src/diagramLayout.ts:268-287 | the result is a simple path from the start, no other exceeds it in length, and of equals it goes by the edge written first |
| SpinePath.SimplePathVisits | ui/src/diagramLayout.ts:268-287 | a simple path repeats no node and follows edges |
| SpineShape.FollowChain | ui/src/diagramLayout.ts:305-315 | a branch walked outward by the loop, or refused, as specified |
| SpineShape.WalkedChainOk | ui/src/diagramLayout.ts:305-315 | a branch walked is a chain of new nodes, each with one way in and at most one way on, none on the path |
| SpineShape.FindShape | ui/src/diagramLayout.ts:289-319 | the classification loops give the specified shape or refuse the flow |
| SpineFound.ShapeIff | ui/src/diagramLayout.ts:289-319 | a path has a shape exactly when every node off it has one way in and at most one on, none leading back to the path, each is reached from the path, and no node of the path has two edges off it |
| SpineShape.EveryNodeOnce | ui/src/diagramLayout.ts:289-319 | every node is on the path or in exactly one place of one branch, never both |
| SpineShape.EveryEdgeClassed | ui/src/diagramLayout.ts:297-317 | every edge is a step down the path, a lane or a link of a branch |
| SpineShape.EveryEdgeOnce | ui/src/diagramLayout.ts:297-317 | and only one of these, in one place |
| SpineShape.EveryStepDrawn | ui/src/diagramLayout.ts:297-303 | every node of the path but the last has its step to the next |
| SpineFound.StepIsFirst | ui/src/diagramLayout.ts:297-303 | of several edges to the next node the step is the one written first |
| SpineSizes.FitLabel | ui/src/diagramLayout.ts:187-200 | the search over the number of lines gives the specified one |
| SpineSizes.FitIsFewest | ui/src/diagramLayout.ts:187-200 | it is the fewest lines the label fits in, and none only if it fits in no number tried |
| SpineSizes.Diamond | ui/src/diagramLayout.ts:174-222 | the search over widths, then heights, gives the specified diamond |
| SpineSizes.DiamondHolds | ui/src/diagramLayout.ts:174-222 | the label lies inside the diamond; no narrower one tried holds it, nor a lower one as wide; else none tried does and it is the widest |
| SpineSizes.Shaped | ui/src/diagramLayout.ts:161-172 | a dot, a diamond or a plain box, as specified |
| SpineSizes.ShapedSizes | ui/src/diagramLayout.ts:161-222 | every box is 16 by 16 or more, tall enough for the lanes its left side may take; a plain one holds its lines |
| SpineSizes.WordDecision | ui/src/diagramLayout.ts:174-222 | a decision whose label is one word is wider than the word by 16 and a share of its own width, or is the widest there is |
| SpineSizes.TooLongWidest | ui/src/diagramLayout.ts:174-222 | a decision whose text is longer than the widest diamond's lines hold is that widest one |
| SpineLooks.SizeNodes | ui/src/diagramLayout.ts:334-348 | the boxes, sized node by node by the widths of the path and of the branches |
| SpineLooks.LooksFit | ui/src/diagramLayout.ts:321-356 | the sizes and labels every flow is given are ones it can be drawn with |
| SpineReads.WidthsShared | ui/src/diagramLayout.ts:334-345 | the path's boxes but its decisions share a width between 200 and 240, the branches' one up to 280, or what the longest word takes, and no wider than some text asks |
| SpineReads.NodesRead | ui/src/diagramLayout.ts:161-348 | in the drawing every node has the box its own label and shape ask for: a dot, a diamond around its wrapped label, or a plain box of its lines |
| SpineLooks.LongWordReaches | ui/src/diagramLayout.ts:174-222 | a decision part way out a branch, its label one word too long, does not keep to its column |
| SpineLanes.LayLanes | ui/src/diagramLayout.ts:458-524 | lanes sorted and laid from the innermost out, each left of the last and its label |
| SpineLanes.NestedFits | ui/src/diagramLayout.ts:458-466 | sorting keeps the lanes each box meets and puts no longer span inside a shorter one |
| SpineLanes.SharedPorts | ui/src/diagramLayout.ts:467-488 | of two lanes at a box the inner one takes the side its other end lies on, 16 from the outer |
| SpineLanes.LanesCross | ui/src/diagramLayout.ts:458-524 | two lanes cross if and only if their spans overlap with neither holding the other |
| SpineLanes.LanesApart | ui/src/diagramLayout.ts:458-524 | two lanes never run on top of each other or share an attach point |
| SpineLanes.LaneLabelsClear | ui/src/diagramLayout.ts:492-510 | a lane's label is 8 clear of its own line, left of every box and clear of every inner label |
| SpineReads.LanesStand | ui/src/diagramLayout.ts:458-524 | the first lane runs 32 left of the widest box, each next 12 left of the last and its label; a label ends 8 left of its lane, on end where the lane is long enough, else level with where it leaves |
| SpineReads.LanesNested | ui/src/diagramLayout.ts:458-466 | of two lanes the shorter is the inner one, of equally long ones that whose edge was written first |
| SpineRows.LayRows | ui/src/diagramLayout.ts:357-384 | rows placed down the path as the loop places them |
| SpineRows.RowsApart | ui/src/diagramLayout.ts:357-384 | rows lie one under another with the gap and the labels' room between |
| SpineReads.RowsHighest | ui/src/diagramLayout.ts:357-384 | each row's middle is the highest with 24, the step's label and the branch's labels between it and the row above |
| SpineRows.LayColumns | ui/src/diagramLayout.ts:390-405 | columns to the right as the loop opens them |
| SpineReads.ColumnsNearest | ui/src/diagramLayout.ts:390-405 | each column is 96 or 48 past the last or as far as the widest label into it takes |
| SpineRows.ApartIffKeep | ui/src/diagramLayout.ts:357-408 | the boxes are pairwise apart exactly when no branch's node but its last is wider than the way to the next column |
| SpineRows.WideOverlaps | ui/src/diagramLayout.ts:390-408 | one that is lies over the next node |
| SpineRows.ArrowRuns | ui/src/diagramLayout.ts:422-457 | an arrow down or out runs straight between the middles of facing sides, outward exactly when the box it leaves ends before the next begins |
| SpineRows.PassesIffKeeps | ui/src/diagramLayout.ts:422-457 | the arrows of a branch pass behind no box exactly when its nodes keep to their columns |
| SpineRows.ArrowsApart | ui/src/diagramLayout.ts:422-457 | no two arrows cross; they run on top of each other exactly when they are of one branch and the box the inner leaves reaches back over the outer, and share an end exactly when that box ends just at one of its ends |
| SpineLabels.OutLabelClear | ui/src/diagramLayout.ts:440-457 | a branch's label is 8 above its arrow and over no box of another row |
| SpineLabels.OutLabelBetween | ui/src/diagramLayout.ts:391-405 | along its row it is half way between its two boxes, 24 from each where they keep to their columns |
| SpineLabels.OutLabelOver | ui/src/diagramLayout.ts:391-457 | it lies over a box exactly when that is one of its own branch, over 16 tall, which the label reaches from half way between its own two |
| SpineLabels.OutLabelsApart | ui/src/diagramLayout.ts:391-457 | two branches' labels never meet; two of one do exactly when neither is over the first arrow and their middles are nearer than the two are wide, so never where the nodes keep to their columns |
| SpineLabels.DownLabelClear | ui/src/diagramLayout.ts:422-439 | a step's label is 8 beside its arrow and 6 from both its boxes |
| SpineLabels.StepLabelOver | ui/src/diagramLayout.ts:422-439 | it lies over a box exactly when that is one of a branch its width reaches and tall enough to meet its height |
| SpineLabels.StepLabelOverLabel | ui/src/diagramLayout.ts:422-457 | it lies over a branch's label exactly when the branch hangs from the next row, that label starts short of where the step's ends and the two rows are too close for both |
| SpineReads.ArrowLabelStands | ui/src/diagramLayout.ts:422-457 | a step's label is half way down its arrow, 8 right of it, a branch's half way along, 8 above |
| SpineReads.LabelsRead | ui/src/diagramLayout.ts:354-524 | in the drawing a route has a label exactly when its edge says something, of the text's own measure |
| SpineDrawn.LineMeets | ui/src/diagramCheck.ts:60-80 | every route is square; it leaves and enters its boxes straight out of a side exactly when it is no arrow out of a node as wide as the way to the next column |
| SpineDrawn.LinePassesNone | ui/src/diagramCheck.ts:82-87 | no route passes behind a box, but in a branch of its own that does not keep to its columns |
| SpineDrawn.LineBehindIff | ui/src/diagramCheck.ts:82-87 | a route passes behind a box drawn in by 1 or less exactly when it is a branch's arrow whose node left, or the box itself, reaches that far |
| SpineDrawn.LinesApart | ui/src/diagramCheck.ts:105-123 | two routes cross exactly when both are lanes whose spans properly overlap, and run on top of each other or share an end exactly when they are arrows of one branch, the box the inner leaves reaching back over the outer or ending just at an end of it |
| SpineLayout.SpineReady | ui/src/diagramLayout.ts:255-319 | what is found is the longest path of the flow and its shape |
| SpineFound.SpineIff | ui/src/diagramLayout.ts:255-319 | a spine is found exactly when the flow runs down, with no frames and no edge back to its own node, and off the longest path from the first node written that no edge enters, or the first of all, hang only branches; that is the path taken |
| SpineFound.StartFound | ui/src/diagramLayout.ts:268-287 | there is always such a node and such a path |
| SpineLayout.BranchShorter | ui/src/diagramLayout.ts:268-319 | a branch is shorter than the rest of the path, so none hangs from the path's last node |
| SpineLayout.MarkOnce | ui/src/diagramLayout.ts:289-319 | a node has one place in the drawing |
| SpineLayout.LineEnds | ui/src/diagramLayout.ts:409-524 | a route runs from the place of its edge's source to the place of its target |
| SpineLayout.LineOnce | ui/src/diagramLayout.ts:409-524 | no edge has two routes |
| SpinePlacing.LayoutSpine | ui/src/diagramLayout.ts:255-528 | nothing when the flow has no such shape or a box meets too many lanes, else every node sized and placed and every edge routed with its label, each where specified |
| SpineReads.LanesFitIff | ui/src/diagramLayout.ts:321-332 | such a flow is refused exactly when three lanes meet one box, or two a decision or a dot |
| SpineTheorem.NodesApartIffKeep | ui/src/diagramLayout.ts:357-408 | the nodes of a drawing are pairwise apart exactly when no branch's node but its last is wider than the way to the next column |
| SpineLong.LongDrawnOver | ui/src/diagramLayout.ts:255-528 | a flow of seven nodes, with a branch from a decision whose question is 149 letters and spaces of 0.56 em, is laid out and any drawing of it has two nodes overlapping |
| SpineLong.LongRunsOn | ui/src/diagramLayout.ts:440-457 | and the two arrows of that branch past the decision run on top of each other |
| SpineLong.LongPassesBehind | ui/src/diagramLayout.ts:440-457 | and the first of them passes behind the branch's last node, which it does not join |
| SpineCrossing.SkippingTaken | ui/src/diagramLayout.ts:255-319 | a path of four nodes with edges past its second and past its third is taken, the two edges as lanes |
| SpineCrossing.LanesDrawnCrossing | ui/src/diagramLayout.ts:458-524 | and in every drawing of it the two lanes cross |
| SpineDots.DotsTaken | ui/src/diagramLayout.ts:255-319 | a start dot, an empty decision with one branch and a stop dot are taken |
| SpineDots.StepDrawnOver | ui/src/diagramLayout.ts:422-457 | and in every drawing of them the label on the step out of the start dot lies over the branch's node and over the branch's label |
| SpineTheorem.RoutesSquare | ui/src/diagramCheck.ts:60-62 | every edge of every drawing has an axis-aligned route |
| SpineTheorem.RoutesJoin | ui/src/diagramCheck.ts:63-80 | it ends on its two nodes, straight out of their sides, exactly when it is no arrow out of a branch's node as wide as the way to the next column |
| SpineTheorem.RoutesPass | ui/src/diagramCheck.ts:82-87 | it passes behind a node drawn in by 1 or less exactly when it is an arrow of the node's branch, running back over it from the node it leaves or out of its end, so behind none where the branch keeps to its columns |
| SpineTheorem.LabelsClear | ui/src/diagramCheck.ts:91-95 | every label is 8 clear of its own route |
| SpineTheorem.LabelsOver | ui/src/diagramCheck.ts:96-99 | a label lies over a node exactly when it is a step's that reaches a branch's box above or below it, or a branch's that reaches a box of its own row; a lane's never does |
| SpineTheorem.LabelsApart | ui/src/diagramCheck.ts:124-125 | two labels lie over each other exactly when one is a step's and the other the next row's branch's that reach each other, or both are one branch's with middles nearer than they are wide |
| SpineTheorem.RoutesApart | ui/src/diagramCheck.ts:105-123 | in every drawing two edges cross exactly when they are lanes whose spans properly overlap; they share a stretch or an attach point exactly when one branch's box reaches back over its next arrows or ends at an end of one, so never in a branch that keeps to its columns |
| Tidy.TidyUp | ui/src/diagramLayout.ts:1256-1276 | the loop that replaces and skips points gives the specified route |
| Tidy.TidyKeepsEnds | ui/src/diagramLayout.ts:1253-1276 | a route keeps both its ends |
| Tidy.TidyCoversTheSame | ui/src/diagramLayout.ts:1253-1276 | it passes through exactly the points it did, where it doubles back too |
| Tidy.TidyIsTidy | ui/src/diagramLayout.ts:1253-1276 | no repeat and no redundant middle is left |
| Tidy.TidyTwice | ui/src/diagramLayout.ts:1253-1276 | tidying twice is tidying once |
| Drain.DrainBuffer | ui/src/Ask.tsx:107-123 | the loops over blocks and lines emit the specified events and keep the specified rest |
| Drain.ReadChunks | ui/src/Ask.tsx:622-629 | however the text is cut, the events and the rest are those of the whole text read at once |
| Drain.DrainedMore | ui/src/Ask.tsx:107-123 | draining a text, then its rest and the next chunk, is draining both together |
| Drain.DrainedSays | ui/src/Ask.tsx:107-123 | any text is its blocks with blank lines between; the events read are, in order, of those before the last that give a name, each saying what its block's last event and data lines do |
| Drain.FramedDrained | backend/internal/httpapi/stream_test.go:36-38 | events framed as the server frames them are read back exactly, with nothing left over |
| Turns.ClockStep | ui/src/turns.ts:186-200 | an event keeps every step on the clock, a status adds one step |
| TurnWriting.TurnReads | ui/src/turnEvents.ts:18-107 | after any run of patches and events the text is the first text and then the tokens in order of arrival; notice, citations, followups, memory, usage and card are the latest of their kind; error, done, record, language and message id follow the ending events; it ended at its latest failure or first end; nothing else changed |
| TurnWriting.StepsAreSaid | ui/src/turnEvents.ts:38-60 | a fresh turn has a step a status, in order, each with the latest detail said while it was the latest step of its name |
| TurnWriting.StepsAreTimed | ui/src/turns.ts:186-200 | its steps stand on the clock where the events alone put them |
| Turns.StepsOnClock | ui/src/turns.ts:186-200 | after any run each server-timed step is at its server time plus the least arrival delay seen, every other at its arrival |
| Turns.StepsKeepGaps | ui/src/turns.ts:179-200 | two server-timed steps keep the server's gap and none is later than its own arrival |
| Turns.OthersLeaveTheClock | ui/src/turnEvents.ts:38-47 | a detail, or any event but a status, moves no step |
| Turns.GroupByQuestion | ui/src/turns.ts:562-576 | every turn is in a group, two in one exactly when they are attempts at one question, in the order first asked |
| Turns.OneQuestion | ui/src/turns.ts:562-576 | two turns are in one group exactly when they are the same turn or one id is the head of each, or its own id where it has no head |
| AskPage.Page.OpenThread | ui/src/Ask.tsx:381-450 | going to an address, as a step on the page's state |
| AskPage.Page.LoadLands | ui/src/Ask.tsx:452-512 | a record coming back, as a step: refused, empty, unreadable or shown |
| AskPage.Page.Ask | ui/src/Ask.tsx:342-350 | a question asked or a card answered: the load retired, the turn appended and parked |
| AskPage.Page.PatchLastTurn | ui/src/Ask.tsx:352-371 | the parked turn patched, and the screen only when it shows that thread |
| AskPage.Page.EventArrives | ui/src/Ask.tsx:629-672 | an event's effect on the page, then on the turn |
| AskPage.Page.StreamStops | ui/src/Ask.tsx:673-692 | the end of the stream: a turn not ended fails, the parked copy goes, a failed card opens again |
| AskRuns.RunSound | ui/src/Ask.tsx:317-371 | every run keeps filing and screen on one thread, a turn parked exactly while it runs, the live thread on screen showing exactly the parked turns, and the current load for the thread on screen |
| AskRuns.ParkedIsFolded | ui/src/Ask.tsx:323-371 | in every run the parked turn is the turn asked with exactly the stream's patches and the events applied in order, after the turns it was asked behind |
| TurnWriting.ParkedReads | ui/src/Ask.tsx:352-371 | in every run of the page the turn being written reads, field by field, what arrived |
| AskScreen.ClosedIffSaid | ui/src/Ask.tsx:629-672 | and its stream counts as ended exactly when a failure or an end has arrived |
| AskRuns.ScreenIsFolded | ui/src/Ask.tsx:352-371 | with the turn being written on screen, that is what it shows, a first question whose thread is not known yet too, unless the screen was left and came back empty |
| AskRuns.SupersededNeverLands | ui/src/Ask.tsx:390-396 | a load that is not the latest changes nothing, and one that lands is for the thread on screen |
| AskScreen.ScreenFollows | ui/src/Ask.tsx:381-480 | after any run the screen shows the thread of the latest move, and says it is gone exactly when that was the server having no such thread for the reader |
| AskScreen.OpenedIsShown | ui/src/Ask.tsx:390-512 | a thread opened is shown as its record has it, whatever happens before that lands, so long as the reader neither leaves nor asks |
| AskRuns.LoadRetired | ui/src/Ask.tsx:311-321 | opening another thread or asking retires the load in the air |
| AskRuns.FiledUnderScreen | ui/src/Ask.tsx:749-781 | a question is filed under the thread on screen, and none is asked while a turn runs |
| AskRuns.ElsewhereUntouched | ui/src/Ask.tsx:364-370 | an event of a turn running elsewhere leaves the thread being read alone |
| AskRuns.ComingBack | ui/src/Ask.tsx:406-426 | coming back to the thread being written shows it as far as it got, without a load |
| AskRuns.StoppedTurnEnds | ui/src/Ask.tsx:596-692 | however the stream stops, the turn on screen is marked done, a first question whose thread never came in too; only one left and come back to before that, which ended with nothing more to say, stays off an empty screen |
| AskScreen.StoppedReads | ui/src/Ask.tsx:596-692 | a question's turn on screen is then what arrived and how it stopped, with the server's words or a lost connection as its error, the turns before it as they were |
| AskScreen.StoppedElsewhere | ui/src/Ask.tsx:673-692 | a stream that stops while the reader stands in another thread leaves it alone |
| AskRuns.FailedCardReopens | ui/src/Ask.tsx:799-851 | whatever arrived since a card was answered in a known thread and wherever the reader went, with that thread on screen as the turn stops: if it failed, every turn before it is as it was before the answer, if it went well, the card stays marked; the turn is the fold of what arrived |
| AskRuns.AwaitedOverwrites | ui/src/Ask.tsx:631-651 | a record still awaited on screen when its thread's event arrives replaces the turn being written |
| AskRuns.AwaitedRun | ui/src/Ask.tsx:381-651 | a first question asked and a thread opened make such a state, and the question's thread event and that load then do it |
| HighlightLines.Splitter.Walk | ui/src/highlight.tsx:160-178 | walking a node writes exactly its characters on, a newline starting the next line, and leaves the open elements as they were |
| HighlightLines.Splitter.Reopen | ui/src/highlight.tsx:188-201 | a new line opens copies of the open elements in the same order and changes no earlier line |
| HighlightLines.SplitTree | ui/src/highlight.tsx:145-205 | every character of the tree is on its line inside exactly its own elements, outermost first |
| HighlightLines.LinesJoinToText | ui/src/highlight.tsx:145-205 | the lines joined by newlines are the tree's text |
| HighlightLines.LinesAreSplit | ui/src/highlight.tsx:145-205 | they are what splitting the text at its newlines gives |
| HighlightLines.LinesKeepChains | ui/src/highlight.tsx:145-205 | read one after another they hold every character but the newlines, each in its own chain |
| FinishedCache.Cache.Finished | ui/src/highlight.tsx:116-143 | the answer is the grammar's own, found or coloured anew, and the key becomes the newest |
| FinishedCache.HoldsNewest | ui/src/highlight.tsx:108-143 | after any requests the keys held are the most recently asked for, at most 256, oldest first |
| FinishedCache.RecencyIsLastUse | ui/src/highlight.tsx:129-135 | that order is the order of last use |
| FinishedCache.KeyTells | ui/src/highlight.tsx:127-127 | with no NUL in the languages' names two blocks never share a key |
| FinishedCache.NulCollides | ui/src/highlight.tsx:127-127 | a name that holds one does share a key with another block |
| Feedback.Thumbs.Sync | ui/src/ThreadFeedback.tsx:139-156 | at most one write is out, and it says the choice that was waiting |
| Feedback.Thumbs.OnVote | ui/src/ThreadFeedback.tsx:171-185 | a vote shows at once; the same thumb again takes it back |
| Feedback.Thumbs.OnReply | ui/src/ThreadFeedback.tsx:156-160 | a reply starts the reading of its figures unless the reader has moved on, else the next choice is sent |
| Feedback.Thumbs.OnFigures | ui/src/ThreadFeedback.tsx:157-160 | the figures go on screen whatever was chosen since the reply, then the next choice is sent |
| Feedback.RunFaithful | ui/src/ThreadFeedback.tsx:120-169 | any run in which no write is refused, no reply lost and no figures unreadable keeps what was and will be said ending with the last choice and the server at the last write it stored |
| Feedback.LastChoiceWins | ui/src/ThreadFeedback.tsx:120-169 | in such a run the writes are a subsequence of the choices; with nothing out or waiting the server holds the last choice |
| Feedback.LastChoiceTold | ui/src/ThreadFeedback.tsx:120-124 | the last choice is always the last thing sent or waiting |
| Feedback.ScreenShowsLast | ui/src/ThreadFeedback.tsx:171-192 | the screen shows the last choice all through, when none is made while figures are read |
| Feedback.StepShows | ui/src/ThreadFeedback.tsx:97-192 | what each step leaves on screen: the choice made, a thumb again taking it back, the verdict loaded until one is made, the reply's figures, the truth read back |
| Feedback.StepTells | ui/src/ThreadFeedback.tsx:139-192 | each choice is kept as made and a write leaves only when none is out |
| Feedback.FiguresShow | ui/src/ThreadFeedback.tsx:157-159 | figures read after a newer choice put the older one back on screen, unless both show the same: exactly then the screen is wrong |
| Feedback.StaleVerdict | ui/src/ThreadFeedback.tsx:157-160 | a verdict taken back while figures are read stays on screen though the server ends up holding none |
| Feedback.StaleRun | ui/src/ThreadFeedback.tsx:139-185 | a run of two votes and no failure that comes to it |
| Feedback.Thumbs.OnFailure | ui/src/ThreadFeedback.tsx:161-168 | a refused write, a lost reply and unreadable figures all drop what was waiting and read the truth back |
| Feedback.RefusalStrands | ui/src/ThreadFeedback.tsx:161-168 | a run in which a choice made after a refused write is left waiting with nothing to send it |
| Feedback.LostReplyKeepsOlder | ui/src/ThreadFeedback.tsx:161-168 | a reply lost after its write was stored drops the newer choice waiting: the server keeps the older |
| Feedback.LostReplyRun | ui/src/ThreadFeedback.tsx:139-168 | a run of two votes that comes to it: nothing waits and the server holds the first |
| Feedback.NothingWaits | ui/src/ThreadFeedback.tsx:120-169 | in every run, whatever fails in it, nothing waits once nothing is out, if no choice is made while the truth is read back |
| Feedback.RereadStrands | ui/src/ThreadFeedback.tsx:161-168 | as a read-back ends a choice is left waiting exactly when one waited already or one was made during it |
| Feedback.RecoveredChoiceWins | ui/src/ThreadFeedback.tsx:120-169 | whatever failed before, from any rest with nothing waiting a run that does not fail ends with the server holding the last choice made in it, or what it held |
| Segments.SplitIntoSegments | ui/src/markdown.tsx:59-73 | the loop over tokens gives the specified segments |
| Segments.SegmentsConcat | ui/src/markdown.tsx:56-73 | the segments joined are the text |
| Segments.SettledStay | ui/src/markdown.tsx:56-73 | every segment but the last keeps its text and place whatever is appended |
| Segments.SettledWhy | ui/src/markdown.tsx:50-73 | a settled segment ended at a clause character or was long enough |
| Segments.CutExactly | ui/src/markdown.tsx:56-73 | a text is cut only between words, at every first place the piece so far ends a clause or is 28 long |
| Segments.Faded | ui/src/markdown.tsx:89-100 | spans keyed by the running offset |
| Segments.SettledSpansStay | ui/src/markdown.tsx:75-100 | a settled span keeps its key and its text as the answer grows, and no two share a key |
| Pastes.CountLines | ui/src/pastes.ts:29-34 | the count is the number of pieces splitting at newlines gives |
| Pastes.StagePaste | ui/src/pastes.ts:50-54 | a staged paste is trimmed and its lines are counted |
| Pastes.ShouldCollapse | ui/src/pastes.ts:36-42 | a chip exactly past 2000 characters or 25 lines, measured trimmed |
| Pastes.Strip | ui/src/pastes.ts:91-105 | peeling stops at the first miss: the matched pastes are the last ones |
| Pastes.StripFold | ui/src/pastes.ts:76-105 | peeling a folded question gives back the trimmed words with every paste matched |
| Pastes.StripIsSplit | ui/src/pastes.ts:83-105 | for any question and pastes, the question is what is left and then the matched pastes in order, each with a blank line before it or not: nothing twice and nothing lost |

## Left out

- The ELK engine, `layoutElk`, the entity model and everything resting on their output; `tidy` is modelled on its own.
- mermaid's parser and databases, lowlight's grammars, DOMPurify, the SVG writing, React, scrolling, focus and routing.
- HTTP, `fetch`, text decoding and timers: their results arrive as arguments or environment steps.
- Fonts and the Unicode tables behind `textWidth`, and which labels `looksLikeCode` takes for code: both are parameters.
- `plain`, which cleans labels before they reach a layout (`FlowLabels.Cleaned` is what it leaves of white space), and the byte limit on a question.
- Floating-point rounding: lengths are exact.
- What a drawing copies from an edge or a node as it is: an edge's head and dashes, a lane back up the path drawn dashed, a node's focus, a box's kind.
- In-place sharing of a sequence's open frames with the drawing: frames are found by their place in the list, the columns' gaps alone are an array.
- `frame`, which moves a flow's drawing onto its canvas; shapes and distances do not change.
- SpineSizes.Shaped: does not state where a dot's outline meets an arrow.
- MappingLayout.ExitsApart: for triggers with the height their exits need; the code gives a trigger over several rows no such height, and `MappingCrowded.CrowdedShare` shows what comes of it.
- MappingTheorem.RouteMeets: says nothing of arrows crossing, which a mapping is allowed.
- AskPage.Page.Ask: a re-explain is filed by the server under its message's thread and is not told apart; what is shown follows the refs at once, as after React's commit.
- Turns.GroupByQuestion: the retries and choices read back from the record (`storedRetries`, `linkChosenCandidates`) are not modelled.
- Feedback.LastChoiceWins: for runs in which nothing fails, see Feedback.RecoveredChoiceWins; a write the server stores only after its connection was lost is no step, and the thread on screen stays the same.
- HighlightLines.SplitTree: an element's properties are one value, copied whole.
- Pastes.Strip: characters are compared as Dafny's, the trimming by the same white space as the source's.
