# Code canvas document session, in Dafny

A model of the document session engine of the code canvas (`canvas.js`):
a page of text boxes, each a record with a version, an id, an element id,
an anchor (`x`, `y`), a drag offset (`dx`, `dy`), a zoom (`sx`, `sy`), a
size and the text of its editor. The session keeps three pieces of state:

- the live boxes, a map from box id to record;
- the history, an append-only log of `modified` and `deleted` blocks of records;
- the next-id counter.

Around that state the model covers:

- the backward lookup `getLatest`;
- `save`, which records a version-bumped snapshot of every changed box as one `modified` block and writes the document to the browser's key-value store;
- `loadBoxes`, which reads a document back and raises the id counter past every id it has seen;
- box creation and alt-click deletion;
- the enlarge behaviour (one box zoomed at a time, with a shared listener reference count);
- the drag behaviour (offsets accumulated from mouse movements, reset by `set`, which is remove then add).

Modules:

- `Records`: the values. Box records, history blocks, editor readings and store values; the store keys `name.history` and `name.lang`; element ids `"tb" + id`.
- `Ordering`: the ascending integer-key order in which `for (k in boxes)` visits the live boxes.
- `History`: `getLatest` as functions over the log. Tombstone precedence, the id bound of `loadBoxes`, and version order.
- `Reconcile`: what `save` computes, as functions, with the lemmas about it.
- `Store`: the three keys of a document and how they read back.
- `DocumentSession`: the class `Session` with the closure state as fields. Its methods are written as loops and proved against the functions above.
- `Focus`: the enlarge state machine, as functions and as the class `Enlarger`.
- `Drag`: the drag state machine, as the class `DragBehaviour`.

The editor text and the element size that `save` reads from the page are an
input map from element id to `Widget`. The language written under
`name.lang` is a parameter. The store holds the values the JSON text
encodes; a value of the wrong shape stands for text that does not parse.

In four places the code does not do what the editor is meant to do, and the
model follows the code:

- Saving twice with no edit in between is meant to append nothing the second time. In the code a snapshot copies the anchor and offset of the previous record, so a box dragged since its last record is recorded again on every save. `Reconcile.SaveSettles` proves the no-op for boxes that sit where their record places them; `Reconcile.MovedBoxRecordedAgain` proves the repeat for every moved box, and `Reconcile.SaveRepeatsForMovedBox` exhibits it on one.
- A box without a prior record is meant to count as changed, so that its first save records it. In the code `getLatest` falls back to the live box, so such a box is compared with itself. A `null` (tombstoned) latest record would throw, so `save` requires that no live box is tombstoned; `Session.Valid` keeps that true.
- A background click is meant to save the document as well as reset the zoom. The background handler in the code only resets the zoom.
- Clicking or dragging a box that is no longer live is meant to change nothing. In the code the handlers throw part-way. The model keeps the state exactly as it stands when the exception is thrown (see `Focus.Click`, `Drag.DragBehaviour.Move`).

## Model

| member | source | states |
|---|---|---|
| `Records.DocumentKeysDistinct` | canvas.js:52-53 | the keys `name`, `name.history` and `name.lang` are pairwise distinct for every name |
| `Records.ElementIdsDistinct` | canvas.js:276-280 | distinct box ids give distinct element ids `'tb' + id` |
| `Records.DecimalInjective` | canvas.js:280 | the decimal rendering of ids is injective |
| `Ordering.SortedKeys` | canvas.js:116 | the visiting order of `for (k in boxes)` lists only live keys, in strictly ascending order |
| `Ordering.SortedKeysComplete` | canvas.js:116 | every live key is visited |
| `Ordering.SortedKeysStep` | canvas.js:116 | proof helper: the least key is visited first, then the rest in order |
| `History.Find` | canvas.js:86-97 | the inner loop finds an item carrying the id iff one exists, and a found item carries the id |
| `History.FindFirst` | canvas.js:86-97 | the item found is the first one carrying the id |
| `History.Scan` | canvas.js:82-99 | a record found by the backward scan carries the id looked up |
| `History.Latest` | canvas.js:82-101 | the lookup is null exactly for a tombstoned id, or an unmentioned id with no live box; an unmentioned id falls back to its live box (line 100); a record returned carries the id whenever the live map does at that key |
| `History.ScanUnmentioned` | canvas.js:82-100 | the lookup falls through to the live box exactly when no block mentions the id |
| `History.ScanAtMostRecent` | canvas.js:82-99 | the most recent block mentioning the id decides: its item if `modified`, a tombstone if `deleted` |
| `History.MostRecentExists` | canvas.js:82-99 | proof helper: an id mentioned anywhere has a most recent mentioning block |
| `History.ScanSkipsUnrelated` | canvas.js:82-99 | blocks that do not mention an id leave its lookup unchanged |
| `History.TombstoneShadows` | canvas.js:91-96 | after a `deleted` block holding the record, `getLatest` returns null |
| `History.TombstoneSkipsOthers` | canvas.js:300 | a tombstone for one record leaves every other id's lookup unchanged |
| `History.FreshIdUnmentioned` | canvas.js:276 | an id at or above the bound of all history ids is mentioned by no block, so its lookup falls through to the live box |
| `History.BumpItemsBounds` | canvas.js:179-182 | the `Math.max` loop over one block ends above every item id, not below its start, and at the start or one past an item id |
| `History.BumpBounds` | canvas.js:175-183 | after the history loop the counter is above every item id of every block, `deleted` ones included, not below its start, and no larger than needed |
| `History.LatestRecordIsNewest` | canvas.js:82-99 | in a chronological history, the record found has the highest version among the `modified` records of the id |
| `Reconcile.LatestCarriesId` | canvas.js:116-123 | in a well-keyed map the latest record of a key carries that key as id |
| `Reconcile.ItemsSound` | canvas.js:116-136 | every collected snapshot is the snapshot of a changed box among the visited keys |
| `Reconcile.ItemsComplete` | canvas.js:116-136 | every changed box among the visited keys has its snapshot collected |
| `Reconcile.ItemsAscending` | canvas.js:116-136 | visiting keys in ascending order collects snapshots in ascending id order |
| `Reconcile.ItemsNone` | canvas.js:116-136 | when no visited box changed, nothing is collected |
| `Reconcile.SavedItemsExact` | canvas.js:114-148 | the appended block holds exactly the changed boxes' snapshots, once each, in ascending id order, and is empty when nothing changed |
| `Reconcile.SnapshotFields` | canvas.js:131-135 | a snapshot raises the latest record's version by one, takes the editor's text and the element's size, and keeps every other field of the latest record |
| `Reconcile.RefreshedFields` | canvas.js:137-140 | a changed live box takes the snapshot's version, text and size; no other field changes and no box is added or removed |
| `Reconcile.UnmentionedComparedWithItself` | canvas.js:100-129 | a box no block mentions is recorded exactly when its editor text differs from its stored content |
| `Reconcile.SavedLookup` | canvas.js:114-148 | after a save the latest record of a box is its snapshot if it changed, and what it was otherwise |
| `Reconcile.SaveKeepsLive` | canvas.js:146-148 | a save never tombstones a live box |
| `Reconcile.SaveKeepsIdsBelow` | canvas.js:131-148 | a save keeps every history id below the counter |
| `Reconcile.SaveKeepsChronological` | canvas.js:131-148 | a save keeps the history chronological: each snapshot's version exceeds every earlier `modified` record of its box |
| `Reconcile.SaveSettles` | canvas.js:114-148 | a second save with the same editor readings appends nothing when every box sits where its latest record places it |
| `Reconcile.MovedBoxRecordedAgain` | canvas.js:114-141 | a shown box that sits elsewhere than its latest record is recorded by the save, and afterwards it still sits elsewhere than its new latest record and is still changed, so every following save records it again |
| `Reconcile.SaveRepeatsForMovedBox` | canvas.js:124-135 | one box dragged after its record is recorded by a save and again by the next save |
| `Store.ReadBoxes` | canvas.js:160-163 | the box map of a document is absent exactly when its key is missing, and parsed exactly when the key holds a box map |
| `Store.ReadHistory` | canvas.js:169-173 | the history of a document is absent exactly when its key is missing, and parsed exactly when the key holds a log |
| `Store.SavedStoreReadsBack` | canvas.js:155-157 | after the three writes the document reads back as the saved boxes and history, and every other key is unchanged |
| `DocumentSession.NewBox` | canvas.js:277-290 | a new record has version 1, the given id and its element id, sits at the click with a zero offset and scale 1.0, and holds empty text |
| `DocumentSession.Session.constructor` | canvas.js:74-76 | the state starts with no boxes, an empty history and the counter at 1, satisfying the session invariant |
| `DocumentSession.Session.GetLatest` | canvas.js:82-101 | the nested backward loops return exactly the lookup `History.Latest` |
| `DocumentSession.Session.Visit` | canvas.js:117-141 | one step of the save loop returns the box's snapshot when it changed, else nothing, and refreshes the live box |
| `DocumentSession.Session.RecordChanges` | canvas.js:115-145 | the save loop collects exactly `SavedItems` and leaves the live boxes `Refreshed` |
| `DocumentSession.Session.Save` | canvas.js:114-158 | a save appends at most one `modified` block and never changes existing ones; it refreshes the changed boxes, keeps the invariant and keeps a chronological history chronological; the store is written iff the name is non-empty |
| `DocumentSession.Session.LoadBoxes` | canvas.js:160-184 | the load restores the stored boxes (exactly, when keyed by id) and history (empty when absent); it stops on a parse failure; the counter ends above every live and every history id |
| `DocumentSession.Session.CreateBox` | canvas.js:272-293 | a meta-click adds a version-1 record at the click under the current counter and increments it; the new id has never been used, and its latest record is the new box |
| `DocumentSession.Session.DeleteBox` | canvas.js:297-301 | a deletion appends one `deleted` block with the record, removes only that box, makes its lookup null, leaves every other lookup unchanged, and keeps a chronological history chronological |
| `DocumentSession.SaveAndReopen` | canvas.js:155-184 | saving under a name and loading it into a fresh session restores exactly the saved boxes and history |
| `Focus.Click` | canvas.js:190-204 | as written, a click on a missing box changes nothing, a click on a live box zooms it to 1.5 and keeps every key, and with a stale enlarged box the click throws after the zoom, leaving `lastBigDiv` stale and every other box as it was |
| `Focus.Background` | canvas.js:206-213 | as written, a background click with a stale enlarged box throws and changes nothing; otherwise it does what `BackgroundGuarded` does |
| `Focus.StaleFocusEnlargesTwo` | canvas.js:190-213 | as written, deleting the enlarged box and then clicking two others leaves both enlarged, and a later background click clears neither |
| `Focus.ClickGuarded` | canvas.js:190-204 | a click on a live box makes it the enlarged box at 1.5, resets the previously enlarged box to 1.0, leaves every other box unchanged and adds or removes no box; a click on a missing box changes nothing |
| `Focus.BackgroundGuarded` | canvas.js:206-213 | a background click resets the enlarged box to 1.0, leaves every other box unchanged, and leaves no box named as enlarged |
| `Focus.ClickKeepsFocus` | canvas.js:190-204 | a box click keeps every enlarged box the one named as enlarged |
| `Focus.BackgroundClears` | canvas.js:206-213 | after a background click no box is enlarged |
| `Focus.AtMostOneEnlarged` | canvas.js:190-213 | under the focus invariant at most one box is enlarged |
| `Focus.ReclickKeeps` | canvas.js:190-204 | clicking the enlarged box again keeps it at 1.5 and keeps it the enlarged one |
| `Focus.AsWrittenWhileLive` | canvas.js:190-213 | while the enlarged box is live, the handlers as written equal the intended ones |
| `Focus.FocusSurvivesSession` | canvas.js:190-213 | deleting, creating (at scale 1.0) and saving boxes keep the focus invariant |
| `Focus.Attach` | canvas.js:215-221 | `add` increments the count and never unregisters a handler; only the first behaviour added at count 0 registers its own background handler |
| `Focus.Detach` | canvas.js:222-228 | `remove` as written decrements the count and can unregister only its own background handler, and only when the count reaches 0 |
| `Focus.DetachIntended` | canvas.js:222-228 | `remove` as intended decrements the count, and at count 0 no background handler is left |
| `Focus.ListenersTracked` | canvas.js:215-229 | with the intended removal, one background handler is registered exactly while the reference count is positive |
| `Focus.DetachLeavesHandler` | canvas.js:215-229 | as written, adding boxes 1 and 2 and removing them in order leaves box 1's handler registered at count 0 |
| `Focus.Enlarger.constructor` | canvas.js:186-188 | nothing is enlarged and no handler is registered |
| `Focus.Enlarger.Add` | canvas.js:215-221 | `add` registers the box's click handler and, at count 0, its background handler, and increments the count |
| `Focus.Enlarger.Remove` | canvas.js:222-228 | `remove` unregisters the click handler and decrements the count; at 0 no background handler is left |
| `Focus.Enlarger.ClickBox` | canvas.js:190-204 | a registered box click performs `ClickGuarded` and keeps the focus and session invariants |
| `Focus.Enlarger.ClickCanvas` | canvas.js:206-213 | with a background handler registered, a background click performs `BackgroundGuarded` and keeps both invariants |
| `Drag.SumAppend` | canvas.js:245-246 | one more movement adds itself to the accumulated sum |
| `Drag.DragBehaviour.constructor` | canvas.js:233-234 | the offset starts at zero with no handler registered |
| `Drag.DragBehaviour.Add` | canvas.js:259-261 | `add` registers the press handler |
| `Drag.DragBehaviour.Remove` | canvas.js:262-267 | `remove` unregisters all three handlers |
| `Drag.DragBehaviour.Set` | canvas.js:5 | `set` (remove, then add) leaves exactly the press handler |
| `Drag.DragBehaviour.Press` | canvas.js:235-243 | a meta press on a live box takes its offset as the origin, registers move and release, and stops propagation; any other press changes nothing |
| `Drag.DragBehaviour.Move` | canvas.js:244-254 | while dragging, the box's offset is the origin plus the sum of all movements since the press |
| `Drag.DragBehaviour.Release` | canvas.js:255-258 | a release while dragging resets the behaviour to the press handler alone |

Some definitions carry source lines but no row of their own. Their
properties are stated by the lemmas that use them.

- `Reconcile.Differs` is the comparison at canvas.js:123-129.
- `Reconcile.Snapshot` is the copy at 131-135.
- `Reconcile.Refresh` is the live-box update at 137-140.
- `Reconcile.Appended` is the push of a non-empty block at 146-148.
- `History.BumpItems` and `History.Bump` are the `Math.max` loops at 175-183.
- `Store.SavedStore` is the three writes at 155-157.
- `Records.HistoryKey` and `Records.LanguageKey` are the keys at 52-53.

## Left out

- DOM construction and styling in `createBox`, the z-index raising of a plain click, `setTransform` and the next-frame deferral: these are rendering, not state.
- The deferred `div.click()` that `createBox` schedules for every box it builds (canvas.js:439-442) is not modelled. It would run the enlarge click on each new or loaded box.
- The Ace editor is reduced to its text value, which `save` takes as input.
- JSON text is replaced by the values it encodes. A value of the wrong shape stands for text that does not parse. Property-name collisions among store keys and number formatting are not modelled.
- `download`, `message`, file import, export, the source listing and its sort, and the URL helpers (`urlfilename`, `filename`, `language`, `redirect`, `filepath`) are browser I/O. The name and the language are parameters.
- The redirect that `save` performs for an empty name is navigation. The model only records that nothing is written.
- The `redo` variable is unused. General `EventResponder` registration is DOM plumbing.
- Coordinates and movements are integers, and zoom factors take only the values 1.0 and 1.5.
- All live records are modelled as values. The code never aliases a live record with a history item (every hand-over goes through a copy), so in-place field updates become map updates.
- JavaScript's `for...in` visits integer keys in ascending order only when they are array indices (0 to 2^32 - 2). Larger ids would come after them, in insertion order. The model assumes every live id is such an index. Ids start at 1 and grow by one per box, so only the order of the items inside the appended block would differ.
- The enlarge and drag behaviour classes are driven one step at a time. They are not connected to `Session.CreateBox` or `Session.LoadBoxes`, though `createBox` attaches a click, a drag and an enlarge behaviour to every box it builds (canvas.js:413-415) and never removes an enlarge behaviour.
- Firing every registered background handler is modelled as one background step. All such handlers share one state, and after the first the others find nothing enlarged.
- DocumentSession.Session.LoadBoxes: restores the stored box map exactly only when it is keyed by record ids; for another map it states only that every record id ends below the counter.
- DocumentSession.Session.LoadBoxes: visits the stored keys in an arbitrary order rather than ascending; the result does not depend on the order for a map keyed by record ids.
- DocumentSession.Session.DeleteBox: requires the box to be live. Its handler is attached only to the element of a live box, and that element is removed together with the box.
- DocumentSession.Session.Save: requires the session invariant, which includes that no live box is tombstoned. With a tombstoned live box the code throws at `latest.content`.
- Focus.Enlarger.ClickBox: follows the intended handler of the first finding, not the code as written. `Focus.Click` models the code.
- Focus.Enlarger.ClickCanvas: follows the intended handler of the first finding, not the code as written. With a stale enlarged box it clears `lastBig`, where the code throws and keeps it. `Focus.Background` models the code.
- Focus.Enlarger.Remove: follows the intended removal of the second finding, not the code as written. `Focus.Detach` models the code.

## Findings

| source | as written | input that shows it | evidently intended | confidence | as-written member | corrected member |
|---|---|---|---|---|---|---|
| canvas.js:190-213 | a click while `lastBigDiv` names a deleted box throws after zooming the clicked box, so `lastBigDiv` is never replaced; a background click throws before resetting anything, so the stale state never clears | boxes 1, 2, 3 at 1.0; click 1; alt-click 1; click 2; click 3; click the background: boxes 2 and 3 are both still at 1.5 | a stale enlarged box counts as none, so only one box is ever enlarged | not executed | `Focus.StaleFocusEnlargesTwo` | `Focus.ClickKeepsFocus` |
| canvas.js:222-228 | at count 0 `remove` unregisters its own behaviour's background handler, which is not the one registered when another behaviour was added first | add 1, add 2, remove 1, remove 2: box 1's handler stays registered at count 0 | at count 0 the registered background handler is removed; no code in canvas.js removes an enlarge behaviour, so the stray handler is latent | not executed | `Focus.DetachLeavesHandler` | `Focus.DetachIntended` |
