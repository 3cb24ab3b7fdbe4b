# vectra-engine core, modelled in Dafny

This project models the computational core of the vectra-engine WebAssembly module
(`vectra-engine/src/lib.rs`) and proves properties of it. The core has four parts.

- **The undo/redo history** (`HistoryManager`, file `history.dfy`, module `History`).
  - It is a stack of opaque document snapshots with a cursor and a capacity of 50.
  - The class `HistoryManager` updates its fields `stack` and `currentIndex` in place, as the source does.
  - Each method is proved to move the manager's value `View()` exactly as a function over `State` says: `Initial`, `AfterPush`, `AfterUndo` or `AfterRedo`.
  - Those functions carry the invariant (never empty, cursor in range, at most 50 entries) and what each operation does.
  - Lemmas relate the operations to one another.
- **Alignment snapping** (`calculate_snapping`, file `snapping.dfy`, module `Snapping`).
  - The moved rectangle is tested against the siblings in list order.
  - For each sibling and axis, nine (target point, sibling point) pairs are tested in a fixed order.
  - The first pair closer than the threshold decides that axis, and that axis is not tested again.
  - The method `CalculateSnapping` is the source's loop. It is proved to compute `Snap`, a closed form: each axis's first hit (`AxisOutcome`), then the guides (`Assemble`).
  - Lemmas prove the following:
    - the first-match rule;
    - the exact closing of the gap;
    - that an axis that does not snap keeps `target + delta` and gets no guide;
    - what the guides are;
    - two concrete scenarios.
  - Coordinates are `real`.
- **Deleting a node** (`delete_node`, file `tree.dfy`, module `Tree`). The steps are:
  1. find a parent of the node (`FindParent`);
  2. remove the node from that parent's child list;
  3. collect the node's subtree with an explicit stack (`CollectSubtree`);
  4. remove every collected id (`RemoveIds`).
- **Instantiating a template** (`instantiate_template`, also in `tree.dfy`).
  1. It collects the subtree of the root.
  2. It assigns every collected id a new id (`AssignIds`).
  3. It copies every collected node under its new id, with its child list passed through the id map (`CopyNodes`).
- **Reference traversal for both tree operations.**
  - `Visits` is a recursive traversal, defined over a ranking that shows no cycle is reachable.
  - `Subtree` is the set of ids it lists.
  - `SubtreeClosed` and `SubtreeLeast` prove that this set is the least set that holds the root and is closed under children.

`wrappers.dfy` holds the `Option` type used for the source's `Option` results.

## Model

| member | source | states |
|---|---|---|
| History.Initial | vectra-engine/src/lib.rs:228-230 | A new history satisfies the invariant, holds only the initial snapshot under the cursor, and can neither undo nor redo. |
| History.AfterPush | vectra-engine/src/lib.rs:232-242 | A push keeps the invariant (1 to 50 entries, cursor in range). It leaves the new snapshot current with the cursor on the last entry, so there is no redo. Without eviction, the entries up to the old cursor keep their places and the stack is two longer than the old cursor. With eviction, the stack has exactly 50 entries, the cursor stays put, and every kept entry has moved down by one. |
| History.AfterUndo | vectra-engine/src/lib.rs:244-249 | Undo keeps the stack and the invariant. It yields a snapshot exactly when the cursor is above 0. It then moves the cursor down by one and yields the new current entry. At the bottom it changes nothing and yields None. |
| History.AfterRedo | vectra-engine/src/lib.rs:251-256 | Redo keeps the stack and the invariant. It yields a snapshot exactly when the cursor is below the top. It then moves the cursor up by one and yields the new current entry. At the top it changes nothing and yields None. |
| History.UndoThenRedo | vectra-engine/src/lib.rs:244-256 | An undo followed by a redo restores the state and yields the snapshot it started on. |
| History.RedoThenUndo | vectra-engine/src/lib.rs:244-256 | A redo followed by an undo restores the state and yields the snapshot it started on. |
| History.PushThenUndo | vectra-engine/src/lib.rs:232-249 | Right after a push, undo is possible and yields the snapshot that was current before the push, eviction or not. |
| History.PushAllKeepsNewest | vectra-engine/src/lib.rs:232-242 | Start from a history with no redo branch and make any number of pushes. The stack is then exactly the newest 50 snapshots of everything seen, with the cursor on the last one. |
| History.CapacityEviction | vectra-engine/src/lib.rs:232-242 | 50 pushes onto a new history (51 snapshots in all) evict exactly the initial snapshot and leave the 50 pushed ones in order. One more push also evicts the first pushed snapshot. |
| History.BranchTruncation | vectra-engine/src/lib.rs:232-249 | The sequence is three pushes, two undos, then a push. Afterwards the stack is the first two snapshots plus the new one, with the cursor on top and no redo possible, so the two snapshots that could have been redone are gone. |
| History.HistoryManager.constructor | vectra-engine/src/lib.rs:228-230 | The new manager satisfies its invariant and its view is `Initial(initial)`. |
| History.HistoryManager.PushState | vectra-engine/src/lib.rs:232-242 | Truncating, appending, moving the cursor and evicting in place together move the view exactly as `AfterPush` says, and the invariant is kept. |
| History.HistoryManager.Undo | vectra-engine/src/lib.rs:244-249 | The new view and the result are exactly those of `AfterUndo` on the old view. |
| History.HistoryManager.Redo | vectra-engine/src/lib.rs:251-256 | The new view and the result are exactly those of `AfterRedo` on the old view. |
| History.HistoryManager.CanUndo | vectra-engine/src/lib.rs:258 | The answer is true exactly when an undo would yield a snapshot. |
| History.HistoryManager.CanRedo | vectra-engine/src/lib.rs:259 | The answer is true exactly when a redo would yield a snapshot. |
| Snapping.Pairs | vectra-engine/src/lib.rs:81-85 | Exactly nine (target point, sibling point) pairs are tested for a sibling on an axis. This is `x_points`; `y_points` at lines 97-101 is the same array over the Y coordinates. `PairsFromAnchors` states their order. |
| Snapping.PairsFromAnchors | vectra-engine/src/lib.rs:81-85 | Pair number k tests the target's anchor k / 3 against the sibling's anchor k % 3. The anchors are the low edge, the centre and the high edge. |
| Snapping.FirstCloseIsFirst | vectra-engine/src/lib.rs:86-93 | The chosen pair is closer than the threshold, strictly, and no earlier pair is. No pair is chosen only when none is close. |
| Snapping.FindClosePair | vectra-engine/src/lib.rs:86-93 | The inner scan returns exactly the first close pair, or none. |
| Snapping.SnapToSibling | vectra-engine/src/lib.rs:80-93 | Testing one sibling on one axis builds its nine pairs, finds the first close one, and shifts the coordinate by that pair's signed gap. |
| Snapping.SiblingSnap | vectra-engine/src/lib.rs:86-90 | A snap to a sibling records that sibling's position in the list and its rectangle. `SiblingMissIffNoClosePair` and `SiblingSnapCloses` state when it snaps and where to. |
| Snapping.SiblingMissIffNoClosePair | vectra-engine/src/lib.rs:80-93 | A sibling leaves the axis unsnapped if and only if none of its nine pairs is closer than the threshold. |
| Snapping.SiblingSnapCloses | vectra-engine/src/lib.rs:86-90 | A snap moves the coordinate by less than the threshold. Let k be the winning pair. The guide position is then the sibling's anchor k % 3 and also the moved span's anchor k / 3, so the gap of that pair is exactly zero. |
| Snapping.AxisFromIsFirst | vectra-engine/src/lib.rs:78-111 | An axis snaps to the first sibling, in list order, that has a close pair, with that sibling's own outcome. Every earlier sibling has none. If no sibling has a close pair, the axis does not snap. |
| Snapping.AxisOutcomeCloses | vectra-engine/src/lib.rs:78-110 | Over the whole list, a snapping axis moves by less than the threshold. It closes the gap of the winning pair exactly: the guide is that pair's anchor on the sibling and on the moved span. An axis stays unsnapped if and only if no pair of any sibling is close. |
| Snapping.VisitSibling | vectra-engine/src/lib.rs:79-110 | One turn of the loop over a sibling: an axis that has not snapped takes that sibling's outcome. X is tested before Y. Both coordinates, the snapped flags and the guides then agree with the outcomes so far. |
| Snapping.CalculateSnapping | vectra-engine/src/lib.rs:58-115 | The loop, including its early exit once both axes have snapped, returns exactly `Snap`: each axis's first hit and the guides made from them. |
| Snapping.Snap | vectra-engine/src/lib.rs:58-115 | The closed form of the whole pass. It has at most two guides, all of type "align". `CalculateSnapping` is proved equal to it, and the lemmas below state its coordinates and guides. |
| Snapping.SnapClosesGapX | vectra-engine/src/lib.rs:68-90 | If X snaps, the result is less than the threshold from `target.x + dx`. The vertical guide then sits on the winning pair's anchor of both the sibling and the moved target. Otherwise x is `target.x + dx`. |
| Snapping.SnapClosesGapY | vectra-engine/src/lib.rs:69-106 | The same as `SnapClosesGapX`, for y and the horizontal guide. |
| Snapping.AssembleGuides | vectra-engine/src/lib.rs:90-106 | There is one vertical guide exactly when X snapped and one horizontal guide exactly when Y snapped, all of type "align". Each guide sits at the winning sibling point. Each spans the min/max union of both rectangles on the other axis, taken at the moment of the snap. The guide of the axis that snapped at the earlier sibling comes first, X on a tie. |
| Snapping.SnapGuideKinds | vectra-engine/src/lib.rs:70-111 | There is a "vertical" guide exactly when x snapped and a "horizontal" guide exactly when y snapped. |
| Snapping.DragBesideSiblings | vectra-engine/src/lib.rs:58-115 | The drag scenario: a 100 x 100 square at (198, 0), siblings at x = 0, 200 and 400, threshold 5. The result is (200, 0) with a horizontal guide at 0 spanning [0, 298], then a vertical guide at 200 spanning [0, 100]. |
| Snapping.SnapNotIdempotent | vectra-engine/src/lib.rs:58-115 | A concrete case where a position that has already snapped snaps again to a different x when queried a second time. |
| Tree.VisitsAppend | vectra-engine/src/lib.rs:160-166 | The reference traversal of a concatenation is the concatenation of the traversals. |
| Tree.VisitsPop | vectra-engine/src/lib.rs:160-166 | Popping the last id and pushing its children removes exactly that id from the pending traversal, which becomes one shorter. |
| Tree.SubtreeClosed | vectra-engine/src/lib.rs:158-167 | The subtree holds its root and, with each of its nodes, all of that node's children. |
| Tree.SubtreeLeast | vectra-engine/src/lib.rs:158-167 | Any set that holds the root and is closed under children contains the subtree. |
| Tree.CollectSubtree | vectra-engine/src/lib.rs:158-167 | The stack loop records the root first, and records each id of the reference traversal exactly as often as the traversal lists it. The traversal's length bounds the loop. |
| Tree.FindParent | vectra-engine/src/lib.rs:140-148 | The search returns a node whose child list holds the id. It returns none only if no node's child list holds it. The order it tries keys in is left open. |
| Tree.RemoveAll | vectra-engine/src/lib.rs:152 | The `retain` on a child list. The result holds an id exactly when the list does and the id is not the one removed, and it is no longer than the list. |
| Tree.Unlinked | vectra-engine/src/lib.rs:150-154 | The parent node keeps its id and other properties, and keeps a child list exactly when it had one. That list holds exactly the old children other than the removed id. |
| Tree.Unlink | vectra-engine/src/lib.rs:149-155 | The project keeps its keys and every node other than the parent. The parent's children become exactly the old ones other than the removed id. |
| Tree.RemoveAllCounts | vectra-engine/src/lib.rs:152 | Dropping the id from a child list removes every occurrence of it and keeps every other entry, as often as it was there. |
| Tree.RemoveAllAppend | vectra-engine/src/lib.rs:152 | Removal works piecewise over concatenation, so the kept children keep their order. |
| Tree.RemoveAllAbsent | vectra-engine/src/lib.rs:152 | A list that does not hold the id is unchanged. |
| Tree.ParentOutside | vectra-engine/src/lib.rs:140-167 | A parent of the deleted node is not reachable from it, so it is never collected. |
| Tree.UnlinkKeepsVisits | vectra-engine/src/lib.rs:149-167 | Unlinking the node from its parent keeps the ranking and does not change what is reached from the node. |
| Tree.RemoveIds | vectra-engine/src/lib.rs:170 | Exactly the listed ids are removed, and every other node is kept as it was. |
| Tree.DeleteNode | vectra-engine/src/lib.rs:136-173 | The surviving keys are exactly the old keys minus the subtree of the node. A parent is found exactly when some node lists the node as a child. That parent survives, with every occurrence of the node removed from its child list. Every other surviving node is unchanged. |
| Tree.AssignIds | vectra-engine/src/lib.rs:192-195 | Every collected id, and no other, gets the new id that the renaming assigns it. |
| Tree.FilterMap | vectra-engine/src/lib.rs:202 | The `filter_map` rewrite of a child list. The result holds an id exactly when some child has an entry in the id map that is that id. It is no longer than the list. |
| Tree.FilterMapKeepsAll | vectra-engine/src/lib.rs:201-203 | The id map may cover every child of a list. The filtering rewrite then drops nothing and renames every child in place. |
| Tree.CopyNodes | vectra-engine/src/lib.rs:197-206 | The new keys are exactly the renamed collected ids that are template nodes. Each such key holds its original node, with the id renamed and the child list renamed in order. |
| Tree.InstantiateTemplate | vectra-engine/src/lib.rs:176-212 | The returned root id is the renamed root. The new nodes are exactly the renamed subtree ids that exist in the template. Each is a copy of its original: renamed id, the rest of its properties unchanged, and its children mapped through the renaming in order with nothing dropped. |

## Left out

- The WASM and serialisation glue is not modelled: `main_js` and every `serde_wasm_bindgen`/`JsValue` conversion. The functions work on already-decoded values, so the deserialisation failure paths do not arise.
- `compile_component` is not modelled: it calls through to the SWC parser, transforms and emitter, a foreign library.
- The code export is not modelled: `generate_react_code`, `collect_icons` and `generate_node_recursive`. It produces presentation text from lookups into the schema-free property bag.
- CalculateSnapping: coordinates are `real`, so IEEE-754 rounding, NaN and infinities are not modelled. "The gap closes exactly" holds over exact arithmetic.
- The `id` field of the snapping `Rect` is not modelled; snapping never reads it.
- Node properties other than `id` and `children` are an opaque `map<string, string>` that is copied unchanged.
- InstantiateTemplate: the time- and random-based id generator becomes the parameter `rename`, which must be injective. The generated ids (`el-<millisecond>-<0..9999>`) are not guaranteed unique, and a collision would make one copy overwrite another; that case is not modelled.
- DeleteNode, InstantiateTemplate: both traversals loop forever when a cycle is reachable, so both require a ranking that covers what is reachable (`AcyclicFrom`). The divergence is not modelled.
- DeleteNode: the ranking is required of the project before unlinking. The source also ends on some cyclic projects in which the cycle runs through the parent that gets unlinked; those inputs are not covered.
- FindParent: hash-map iteration order is modelled as an unspecified choice among the remaining keys. If several nodes list the node, the model does not say which one is found; the others keep their now dangling child entry, as in the source.
- DeleteNode: the source re-checks that the parent it found exists and has a child list. Both checks always succeed, so the model applies the unlinking directly.
- Two properties one might expect of snapping do not hold for the code; the model follows the code.
  - Concrete snap scenario. One might expect dragging a 100 x 100 rectangle to (198, 0), with siblings at x = 0, 200, 400, to emit a single vertical guide. The code also snaps y at the first sibling, whose top edge is at 0. It therefore emits a horizontal guide first, then the vertical one (`DragBesideSiblings`).
  - Idempotence. One might expect re-querying a snapped position to give an identical result. Under the code's first-match rule it need not (`SnapNotIdempotent`). A 10 x 10 rectangle dragged to x = 13, with siblings at x = 20 and 14 and threshold 1.5, snaps to 14. Queried again from 14, its centre lies within 1.5 of the first sibling's edge at 20, so it moves on to 15.
