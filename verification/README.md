# nCoda score view and Python backend, modelled in Dafny

nCoda is a desktop music-notation editor. This project models three parts of it:

- **Vida** (`vida.js`): the score viewer.
  - A `VidaController` owns one Web Worker per view. It also owns a single ticket counter and a table of pending callbacks keyed by ticket.
  - A `VidaView` owns the Verovio settings, the index of rendered systems, the toolbar icons, a highlight cache that drives inline styles on two SVG surfaces, and the drag gesture that moves notes.
  - `Events` is a small publish/subscribe table.
- **The Verovio worker** (`verovioWorker.js`): the message handler that runs inside each worker. It refuses every message until `setVerovio` has built the toolkit. After that, it answers each message under the message's own ticket.
- **Fujian** (`backend/nCoda.py`): the Python backend. It captures stdout and stderr, runs code from WebSocket messages (and, as intended, from HTTP request bodies; see Findings) in one shared namespace, reports `fujian_return`, and checks the origin of WebSocket connections.

## Modules

| file | module | models |
|---|---|---|
| protocol.dfy | Protocol | messages `[type, ticket, params]`, replies, settings, continuation tokens |
| broker.dfy | Broker | `VidaController` as class `Controller`; the worker `onmessage` handler as the function `Resolve` |
| pubsub.dfy | PubSub | `Events` as class `Events` over a topic-to-callbacks map |
| layout.dfy | Layout | the system index, the scroll scan, icon visibility, zoom steps, page size |
| highlights.dfy | Highlights | the highlight cache and the styles it drives on both surfaces |
| drag.dfy | Dragging | the drag record, the committed coordinate, the commit loop's walk over a cache it splices |
| view.dfy | Vida | `VidaView` as class `View`, with its imperative methods |
| worker.dfy | VerovioWorker | the worker's handler as the function `Dispatch` and as class `Worker` |
| fujian.dfy | Fujian | `StdoutHandler`, `check_origin`, and the result and reply rules of `execute_some_python`, `post` and `on_message` |
| scenarios.dfy | Scenarios | whole interactions: click, drag of one note, worker load traffic |

**Environment inputs.** The model has no DOM and no real worker, so the browser's side arrives as inputs:

- DOM measurements are parameters: the wrapper's top, the scanned systems, `clientHeight`/`clientWidth`, `pageY`, the note's attributes, and `viewBox` and `height`.
- Each `postMessage` is appended to the controller's log `outbox`.
- A callback is a token (`RenderPageCallback` or `DataLoadedCallback`). The caller of `Controller.Receive` invokes it.
- The Verovio library is an `Engine`: functions from the calls made on the toolkit to what it answers.

**Python code.** A piece of Python code is a function from the namespace to an `Outcome`. The outcome holds the new namespace, the text written to each stream, and the traceback, if the code raised.

**Where the specification and the code disagree, the model follows the code:**

- `zoomIn` tests `scale <= 100`, so a scale of 100 still steps to 110 (`Layout.ZoomedIn`). The zoom-in icon is hidden at exactly 100, so the overshoot needs a click on a hidden icon (`Layout.VisibleZoomInStaysInRange`).
- `renderPage` overwrites `systemData` only up to the number of systems it scans. Entries beyond that are kept, and `totalSystems` counts them (`Layout.Rescanned`).

**Shape of the commit loop.** `commitChanges` walks `highlightedCache` by index while `removeHighlight` splices that cache, so each removal makes the walk skip the next id.

- The model commits the ids at even positions and leaves the ids at odd positions highlighted (`Vida.View.CommitHighlighted`).
- After a press, the cache holds only the pressed note, so in practice exactly one note is committed (`Scenarios.DragOfOneNote`).

## Model

| member | source | states |
|---|---|---|
| Broker.Resolve | nCoda-win32-x64/resources/app/js/lib/vida.js:38-55 | an `error` reply is only logged and deletes its ticket unless the ticket is 0; any other reply invokes the pending callback iff its ticket holds one, then deletes the ticket; a non-error reply without a pending callback is unexpected and leaves the table unchanged; the error is logged exactly for `error` replies; the table never gains tickets |
| Broker.ResolveAll | nCoda-win32-x64/resources/app/js/lib/vida.js:38-55 | handling replies in order gives one outcome per reply and never adds a ticket to the table |
| Broker.AbsentNeverInvoked | nCoda-win32-x64/resources/app/js/lib/vida.js:49-53 | a reply whose ticket is not pending never invokes a callback, however many replies come first |
| Broker.SettledTicketStaysSilent | nCoda-win32-x64/resources/app/js/lib/vida.js:43-53 | once a ticket has invoked its callback, or an error reply has named it (ticket not 0), no later reply with that ticket invokes anything: each callback fires at most once |
| Broker.Batch | nCoda-win32-x64/resources/app/js/lib/vida.js:60-66 | requests posted in order to one worker form log entries under consecutive tickets |
| Broker.BatchSnoc | nCoda-win32-x64/resources/app/js/lib/vida.js:60-66 | posting one more request extends the batch by one entry under the next ticket |
| Broker.Awaiting | nCoda-win32-x64/resources/app/js/lib/vida.js:60-66 | after n posts with the same callback, the table holds that callback under exactly the n new tickets and is otherwise unchanged |
| Broker.Controller.FirstMessageIsSetVerovio | nCoda-win32-x64/resources/app/js/lib/vida.js:32-58 | each worker's first message in the log is `setVerovio` with the controller's Verovio location |
| Broker.Controller.constructor | nCoda-win32-x64/resources/app/js/lib/vida.js:15-30 | a controller given both locations starts at ticket 0, with an empty table, no workers and nothing posted |
| Broker.Controller.Register | nCoda-win32-x64/resources/app/js/lib/vida.js:32-58 | registering hands out the next worker index and posts `setVerovio` to that worker under the current ticket, with no callback |
| Broker.Controller.ContactWorker | nCoda-win32-x64/resources/app/js/lib/vida.js:60-66 | stores the callback under the current ticket, posts `[type, ticket, params]` to the view's worker and increments the counter; tickets are never reused |
| Broker.Controller.Receive | nCoda-win32-x64/resources/app/js/lib/vida.js:38-55 | the `onmessage` handler updates the table and returns the outcome exactly as `Resolve` does, and posts nothing |
| PubSub.Reversed | nCoda-win32-x64/resources/app/js/lib/vida.js:663-667 | element i of the result is element n-1-i of the input |
| PubSub.LastIndexOf | nCoda-win32-x64/resources/app/js/lib/vida.js:707-717 | the backwards scan stops at the last occurrence of the callback, or finds none iff it is absent |
| PubSub.Unsubscribed | nCoda-win32-x64/resources/app/js/lib/vida.js:701-720 | `unsubscribe` returns true iff the topic exists and holds the callback; otherwise the table is unchanged; on success exactly one occurrence is removed and other topics are untouched, or with `completely` the whole topic is deleted |
| PubSub.Subscribed | nCoda-win32-x64/resources/app/js/lib/vida.js:681-688 | `subscribe` appends the callback to its topic, creating the topic when missing, and leaves every other topic as it was |
| PubSub.SubscribeThenUnsubscribe | nCoda-win32-x64/resources/app/js/lib/vida.js:681-720 | unsubscribing the handle `subscribe` returned gives the table back, removing only the occurrence just appended; a topic the subscription created stays behind, empty |
| PubSub.UnsubscribedAt | nCoda-win32-x64/resources/app/js/lib/vida.js:708-715 | when the last occurrence is at i, `unsubscribe` splices out position i and returns true |
| PubSub.SpliceLast | nCoda-win32-x64/resources/app/js/lib/vida.js:686-712 | splicing out the element `push` just appended gives the list back |
| PubSub.RestoreTopic | nCoda-win32-x64/resources/app/js/lib/vida.js:681-688 | restoring a topic's old callback list after `subscribe` restores the table, except that a topic the subscription created stays behind with an empty list |
| PubSub.UnsubscribeCompletelyDropsTopic | nCoda-win32-x64/resources/app/js/lib/vida.js:712-715 | a successful `unsubscribe(handle, true)` deletes the topic, so publishing it afterwards invokes nothing |
| PubSub.Publishes | nCoda-win32-x64/resources/app/js/lib/vida.js:659-669 | `publish` invokes every callback of the topic, newest first; an unknown topic invokes none |
| PubSub.Events.constructor | nCoda-win32-x64/resources/app/js/lib/vida.js:644-647 | a new table is empty |
| PubSub.Events.Publish | nCoda-win32-x64/resources/app/js/lib/vida.js:659-669 | the `while (i--)` loop invokes exactly `Publishes(cache, topic)`, in that order |
| PubSub.Events.Subscribe | nCoda-win32-x64/resources/app/js/lib/vida.js:681-688 | appends the callback to the topic's list, creating the topic if needed, and returns `[topic, callback]` |
| PubSub.Events.Unsubscribe | nCoda-win32-x64/resources/app/js/lib/vida.js:701-720 | the backwards scan leaves the table and result that `Unsubscribed` describes |
| PubSub.Events.UnsubscribeAll | nCoda-win32-x64/resources/app/js/lib/vida.js:729-732 | every topic is gone |
| Layout.Rescanned | nCoda-win32-x64/resources/app/js/lib/vida.js:278-283 | the scan overwrites the first entries with `top - vidaOffset - border` and the system's id, keeps entries past the scan, and never shrinks the index |
| Layout.Rescan | nCoda-win32-x64/resources/app/js/lib/vida.js:277-283 | the indexed loop over the scanned systems leaves exactly `Rescanned` |
| Layout.LaterScanSupersedes | nCoda-win32-x64/resources/app/js/lib/vida.js:278-283 | a scan at least as long as an earlier one erases every trace of the earlier one |
| Layout.FullScanIsSorted | nCoda-win32-x64/resources/app/js/lib/vida.js:278-286 | a top-to-bottom scan that covers the old index yields an index sorted by offset and of the scan's length |
| Layout.FirstWithin | nCoda-win32-x64/resources/app/js/lib/vida.js:433-442 | the `syncScroll` scan stops at the first system with `newTop <= topOffset + 25`, and finds none iff no system qualifies |
| Layout.ScrollLandsOnPage | nCoda-win32-x64/resources/app/js/lib/vida.js:427-446 | scrolling to the offset of system p makes `syncScroll` choose p or an earlier system; when systems are more than 25 px apart it chooses exactly p, for a `scrollTop` the browser does not clamp |
| Layout.SpacedBelow | nCoda-win32-x64/resources/app/js/lib/vida.js:436-440 | with systems more than 25 px apart, no system above p passes the scan's test at p's offset |
| Layout.IndexOfSystem | nCoda-win32-x64/resources/app/js/lib/vida.js:513-518 | the clicked page is the first system whose id matches; none iff no system has the id |
| Layout.NavIconsMatchGuards | nCoda-win32-x64/resources/app/js/lib/vida.js:371-378 | in vertical mode the next- and previous-page icons are visible exactly when `gotoNextPage` or `gotoPrevPage` would move |
| Layout.NextPageVisible | nCoda-win32-x64/resources/app/js/lib/vida.js:373-374 | the next-page icon is visible unless the view is horizontal or on the last system |
| Layout.PrevPageVisible | nCoda-win32-x64/resources/app/js/lib/vida.js:376-377 | the previous-page icon is visible unless the view is horizontal or on the first system |
| Layout.ZoomInVisible | nCoda-win32-x64/resources/app/js/lib/vida.js:382-383 | the zoom-in icon is hidden exactly at scale 100 |
| Layout.ZoomOutVisible | nCoda-win32-x64/resources/app/js/lib/vida.js:385-386 | the zoom-out icon is hidden exactly at scale 10 |
| Layout.ZoomedIn | nCoda-win32-x64/resources/app/js/lib/vida.js:477-485 | adds exactly 10 when the scale is at most 100; otherwise leaves it unchanged |
| Layout.ZoomedOut | nCoda-win32-x64/resources/app/js/lib/vida.js:487-495 | subtracts exactly 10 when the scale is above 10; otherwise leaves it unchanged |
| Layout.ZoomStepsUndo | nCoda-win32-x64/resources/app/js/lib/vida.js:477-495 | zooming out undoes a zoom in that acted, and conversely |
| Layout.ZoomStaysReachable | nCoda-win32-x64/resources/app/js/lib/vida.js:477-495 | from 40, any sequence of zoom clicks keeps the scale a multiple of 10 between 10 and 110; it never drops below 10 |
| Layout.ZoomAfter | nCoda-win32-x64/resources/app/js/lib/vida.js:477-495 | the scale after a sequence of zoom-in and zoom-out clicks, each applied as its method does |
| Layout.VisibleZoomInStaysInRange | nCoda-win32-x64/resources/app/js/lib/vida.js:380-387 | a click on the zoom-in icon while it is visible keeps the scale at most 100 |
| Layout.ToInt32 | nCoda-win32-x64/resources/app/js/lib/vida.js:530-531 | `x >> 0` wraps to a signed 32-bit value congruent to x modulo 2^32, and is the identity within that range |
| Layout.PageExtentAtLeast100 | nCoda-win32-x64/resources/app/js/lib/vida.js:319-320 | the page size sent to Verovio is at least 100 whenever the computed size fits in 32 bits |
| Layout.PageExtent | nCoda-win32-x64/resources/app/js/lib/vida.js:319-320 | the page extent sent to Verovio is a signed 32-bit integer, as `>> 0` leaves it |
| Highlights.IndexOf | nCoda-win32-x64/resources/app/js/lib/vida.js:598 | `indexOf` gives the first position of the id, or -1 iff it is absent |
| Highlights.Reapplied | nCoda-win32-x64/resources/app/js/lib/vida.js:607-614 | after `reapplyHighlights`, every cached id is active on the overlay and every other id keeps its style |
| Highlights.ReappliedSnoc | nCoda-win32-x64/resources/app/js/lib/vida.js:609-613 | painting one more cached id is one more overlay update |
| Highlights.Repaint | nCoda-win32-x64/resources/app/js/lib/vida.js:607-614 | the loop over the cache leaves exactly the overlay `Reapplied` describes |
| Highlights.ReappliedConsistent | nCoda-win32-x64/resources/app/js/lib/vida.js:607-614 | with consistent surfaces, re-applying the highlights changes nothing |
| Highlights.Activate | nCoda-win32-x64/resources/app/js/lib/vida.js:596-605 | the id ends up cached; an id already cached changes nothing; a new id is appended; consistency of cache and styles is preserved |
| Highlights.Spliced | nCoda-win32-x64/resources/app/js/lib/vida.js:620 | `splice(i, 1)` keeps the elements before i and shifts the ones after it down by one |
| Highlights.SplicedSlices | nCoda-win32-x64/resources/app/js/lib/vida.js:620 | the spliced sequence is the part before i followed by the part after i |
| Highlights.Remove | nCoda-win32-x64/resources/app/js/lib/vida.js:616-624 | an absent id changes nothing; a cached id shortens the cache by one and is restored on the content surface and cleared on the overlay |
| Highlights.RemoveCount | nCoda-win32-x64/resources/app/js/lib/vida.js:616-624 | `removeHighlight` drops exactly one occurrence of the id and nothing else, as a multiset |
| Highlights.RemoveKeepsOthers | nCoda-win32-x64/resources/app/js/lib/vida.js:616-624 | every other id is cached after removal exactly when it was before |
| Highlights.RemoveConsistent | nCoda-win32-x64/resources/app/js/lib/vida.js:616-624 | removal preserves consistency and takes the id out of the cache |
| Highlights.ResetRestoresAll | nCoda-win32-x64/resources/app/js/lib/vida.js:626-629 | `resetHighlights` empties the cache, restores every id it held on both surfaces, and leaves every other styled id as it was |
| Highlights.Reset | nCoda-win32-x64/resources/app/js/lib/vida.js:626-629 | `resetHighlights` always ends with an empty cache |
| Highlights.PressHighlightsOnly | nCoda-win32-x64/resources/app/js/lib/vida.js:520-521 | reset then activate leaves the pressed id as the only highlight, whatever was highlighted before |
| Highlights.ActivateTwice | nCoda-win32-x64/resources/app/js/lib/vida.js:596-605 | activating twice equals activating once; the id occurs exactly once |
| Highlights.ActivateThenRemove | nCoda-win32-x64/resources/app/js/lib/vida.js:596-624 | activating an absent id and removing it gives the cache back, puts both of its styles at baseline, and touches no other id |
| Highlights.ReappliedThenCleared | nCoda-win32-x64/resources/app/js/lib/vida.js:607-623 | painting the cache plus the id and then clearing the id changes no other overlay style |
| Dragging.PixPerPix | nCoda-win32-x64/resources/app/js/lib/vida.js:523-528 | the ratio times the rendered height gives the viewBox height |
| Dragging.Shift | nCoda-win32-x64/resources/app/js/lib/vida.js:545 | the translation is 0 at the press position and, with a positive ratio, positive exactly when the mouse moved down |
| Dragging.Trunc | nCoda-win32-x64/resources/app/js/lib/vida.js:580 | `parseInt` of a number's text drops the fraction toward zero |
| Dragging.CommittedY | nCoda-win32-x64/resources/app/js/lib/vida.js:570-580 | a release where the press happened commits the note's own y |
| Dragging.CommittedYFollowsMouse | nCoda-win32-x64/resources/app/js/lib/vida.js:570-580 | a downward drag never commits a smaller y, an upward one never a larger y, and a move of at least one SVG unit changes it |
| Dragging.Evens | nCoda-win32-x64/resources/app/js/lib/vida.js:566-584 | the ids the commit loop reaches: positions 0, 2, 4, ... |
| Dragging.Odds | nCoda-win32-x64/resources/app/js/lib/vida.js:566-584 | the ids the commit loop skips: positions 1, 3, 5, ... |
| Dragging.EvensOddsPartition | nCoda-win32-x64/resources/app/js/lib/vida.js:566-584 | every highlighted id is either committed or left highlighted, never both, as multisets |
| Dragging.ExtendEven | nCoda-win32-x64/resources/app/js/lib/vida.js:566-584 | walking an even position adds it to the committed ids |
| Dragging.ExtendOdd | nCoda-win32-x64/resources/app/js/lib/vida.js:566-584 | walking past an odd position adds it to the skipped ids |
| Dragging.Unvisited | nCoda-win32-x64/resources/app/js/lib/vida.js:566-584 | the cache during the walk: the skipped ids so far, then the ids not yet reached |
| Dragging.UnvisitedEnds | nCoda-win32-x64/resources/app/js/lib/vida.js:566-584 | before the walk the cache is the original one; after it, the skipped ids |
| Dragging.SpliceSeq | nCoda-win32-x64/resources/app/js/lib/vida.js:566-584 | the loop index m/2 points at original element m, and splicing it out advances the walk by two |
| Dragging.RemoveAt | nCoda-win32-x64/resources/app/js/lib/vida.js:616-620 | in a cache without duplicates, removing the id at position k splices out position k |
| Dragging.WalkOfOne | nCoda-win32-x64/resources/app/js/lib/vida.js:566-584 | a cache of at most one id is committed whole and leaves nothing highlighted |
| Dragging.RemoveAllConsistent | nCoda-win32-x64/resources/app/js/lib/vida.js:585 | removing ids one after another keeps the surfaces consistent and none of those ids cached |
| Dragging.RemoveAll | nCoda-win32-x64/resources/app/js/lib/vida.js:585 | removing ids one after another shortens the cache by at most one per id |
| Vida.Resized | nCoda-win32-x64/resources/app/js/lib/vida.js:319-320 | `refreshVerovio` changes only the page height and width, and sets each to `PageExtent` of the wrapper's size |
| Vida.RefreshRequests | nCoda-win32-x64/resources/app/js/lib/vida.js:323-324 | `refreshVerovio` asks for the options, then the document with a trailing newline |
| Vida.NavIcons | nCoda-win32-x64/resources/app/js/lib/vida.js:371-378 | `updateNavIcons` leaves the zoom icons alone and hides both direction icons in horizontal mode |
| Vida.ZoomIcons | nCoda-win32-x64/resources/app/js/lib/vida.js:380-387 | `updateZoomIcons` leaves the direction icons alone and never hides both zoom icons |
| Vida.PageRequests | nCoda-win32-x64/resources/app/js/lib/vida.js:324-331 | one `renderPage` per page, in page order |
| Vida.Edits | nCoda-win32-x64/resources/app/js/lib/vida.js:575-584 | one `edit` per reached id: a drag of that id to the note's x and the committed y, on the clicked page |
| Vida.CommitRequests | nCoda-win32-x64/resources/app/js/lib/vida.js:566-590 | a commit posts one `edit` per even position of the cache, naming that id, and ends with one `renderPage` of the clicked page |
| Vida.Turn | nCoda-win32-x64/resources/app/js/lib/vida.js:568-585 | one turn of the commit loop: the id at the index is un-highlighted and its `edit` is posted under the next ticket, awaiting `renderPage` |
| Vida.View.constructor | nCoda-win32-x64/resources/app/js/lib/vida.js:76-146 | registers (posting `setVerovio`), starts from the default settings with an empty index, cache and table, no drag under way; with a document it also posts the refresh requests |
| Vida.View.RefreshVerovio | nCoda-win32-x64/resources/app/js/lib/vida.js:314-331 | keeps a non-empty new document; without a document it posts nothing; otherwise it empties the overlay's translations, resizes the page and posts `setOptions` with no callback, then `loadData` of the document plus a newline |
| Vida.View.PostRefresh | nCoda-win32-x64/resources/app/js/lib/vida.js:323-324 | the two refresh requests are posted under the next two tickets; only `loadData` awaits a callback |
| Vida.View.OnDataLoaded | nCoda-win32-x64/resources/app/js/lib/vida.js:324-331 | the `dataLoaded` callback posts exactly one `renderPage` per page, in order, under consecutive tickets, each awaiting `renderPage` |
| Vida.View.RequestPage | nCoda-win32-x64/resources/app/js/lib/vida.js:326-330 | one turn of that loop extends the log by page p under the next ticket |
| Vida.View.RenderPage | nCoda-win32-x64/resources/app/js/lib/vida.js:271-297 | rebuilds the index as `Rescanned` describes, counts it, drops every overlay translation exactly when the reply asks for a new overlay, re-applies the highlights, updates the nav icons and publishes `PageRendered`; the scroll position, the press and the listeners are untouched |
| Vida.View.RebuildOverlay | nCoda-win32-x64/resources/app/js/lib/vida.js:288-292 | a new overlay drops every translation exactly when asked for; re-painting the highlights leaves consistent surfaces as they were |
| Vida.View.ReapplyHighlights | nCoda-win32-x64/resources/app/js/lib/vida.js:607-614 | only the overlay changes, to `Reapplied` of the cache |
| Vida.View.UpdateNavIcons | nCoda-win32-x64/resources/app/js/lib/vida.js:371-378 | sets both nav icons' visibility from orientation, current system and total |
| Vida.View.UpdateZoomIcons | nCoda-win32-x64/resources/app/js/lib/vida.js:380-387 | hides zoom-in at exactly 100 and zoom-out at exactly 10 |
| Vida.View.SyncScroll | nCoda-win32-x64/resources/app/js/lib/vida.js:427-446 | in vertical mode the current system becomes the first within 25 px of the new top, if any; otherwise, and in horizontal mode, it is unchanged; the icons are updated |
| Vida.View.ScrollToPage | nCoda-win32-x64/resources/app/js/lib/vida.js:395-400 | scrolls to the system's offset and updates the icons |
| Vida.View.GotoNextPage | nCoda-win32-x64/resources/app/js/lib/vida.js:448-451 | scrolls to the next system exactly when the current one is not the last |
| Vida.View.GotoPrevPage | nCoda-win32-x64/resources/app/js/lib/vida.js:453-456 | scrolls to the previous system exactly when the current one is not the first |
| Vida.View.ToggleOrientation | nCoda-win32-x64/resources/app/js/lib/vida.js:458-475 | flips `noLayout` between 0 and 1, shows the direction icons exactly in vertical mode, and refreshes, which with a document drops the overlay's translations |
| Vida.View.ZoomIn | nCoda-win32-x64/resources/app/js/lib/vida.js:477-485 | the scale becomes `ZoomedIn`; a refresh is posted, and the overlay's translations dropped, only when the scale changed and there is a document; the zoom icons are updated |
| Vida.View.ZoomOut | nCoda-win32-x64/resources/app/js/lib/vida.js:487-495 | the scale becomes `ZoomedOut`; a refresh is posted, and the overlay's translations dropped, only when the scale changed and there is a document; the zoom icons are updated |
| Vida.View.ObjectClick | nCoda-win32-x64/resources/app/js/lib/vida.js:500-505 | publishes `ObjectClicked` exactly when the target lies in a measure |
| Vida.View.ActivateHighlight | nCoda-win32-x64/resources/app/js/lib/vida.js:596-605 | the surfaces become `Activate` of the old ones |
| Vida.View.RemoveHighlight | nCoda-win32-x64/resources/app/js/lib/vida.js:616-624 | the surfaces become `Remove` of the old ones |
| Vida.View.ResetHighlights | nCoda-win32-x64/resources/app/js/lib/vida.js:626-629 | the surfaces become `Reset` of the old ones |
| Vida.View.HighlightOnly | nCoda-win32-x64/resources/app/js/lib/vida.js:520-521 | the surfaces become reset-then-activate of the old ones, and stay consistent |
| Vida.View.FindSystem | nCoda-win32-x64/resources/app/js/lib/vida.js:513-518 | the loop finds the first system with the id, as `IndexOfSystem` |
| Vida.View.MouseDown | nCoda-win32-x64/resources/app/js/lib/vida.js:507-541 | records the clicked page (kept when the system is unknown), makes the id the only highlight, records x and svgY wrapped to 32 bits, pageY and the ratio, attaches the listeners, and no drag is active |
| Vida.View.StartDrag | nCoda-win32-x64/resources/app/js/lib/vida.js:530-540 | stores the drag record, attaches the listeners and clears `draggingActive` |
| Vida.View.MouseMove | nCoda-win32-x64/resources/app/js/lib/vida.js:543-551 | every highlighted id gets the mouse's translation, the drag becomes active, and nothing else changes |
| Vida.Translate | nCoda-win32-x64/resources/app/js/lib/vida.js:546-547 | the loop gives every id of the cache the translation |
| Vida.ShiftedBy | nCoda-win32-x64/resources/app/js/lib/vida.js:546-547 | the listed ids get the translation; other ids keep theirs |
| Vida.ShiftedBySnoc | nCoda-win32-x64/resources/app/js/lib/vida.js:546-547 | translating one more id is one more map update |
| Vida.View.MouseUp | nCoda-win32-x64/resources/app/js/lib/vida.js:553-562 | detaches the listeners; without a move it posts nothing and changes nothing else; after a move it commits as `Committed` states |
| Vida.View.CommitStep | nCoda-win32-x64/resources/app/js/lib/vida.js:566-585 | one turn: post the id's `edit` awaiting `renderPage` and un-highlight it; the overlay's translations are untouched, since `removeHighlight` replaces the inline style the turn wrote |
| Vida.View.CommitHighlighted | nCoda-win32-x64/resources/app/js/lib/vida.js:566-586 | the ids at even positions are edited in order under consecutive tickets and un-highlighted; the ids at odd positions stay highlighted; the surfaces stay consistent; each note keeps the translation of the last mouse move |
| Vida.View.CommitChanges | nCoda-win32-x64/resources/app/js/lib/vida.js:564-594 | after the edits, one `renderPage` of the clicked page; the drag is over and its record is dropped |
| Vida.View.EndDrag | nCoda-win32-x64/resources/app/js/lib/vida.js:588-593 | clears `draggingActive` and the drag record |
| Vida.WalkStart | nCoda-win32-x64/resources/app/js/lib/vida.js:566 | before the first turn nothing is walked |
| Vida.WalkStep | nCoda-win32-x64/resources/app/js/lib/vida.js:566-585 | turn n reaches original element 2n, and the walk invariant holds after it |
| Vida.LogWalkStep | nCoda-win32-x64/resources/app/js/lib/vida.js:566-585 | turn n extends the log by original element 2n |
| Vida.SurfacesStep | nCoda-win32-x64/resources/app/js/lib/vida.js:566-585 | turn n removes original element 2n and advances the walk on the cache by two |
| Vida.RemovedStep | nCoda-win32-x64/resources/app/js/lib/vida.js:585 | removing original element 2n extends the removed ids by it |
| Vida.WalkedDistinct | nCoda-win32-x64/resources/app/js/lib/vida.js:566-585 | the cache has no duplicates while it is walked |
| Vida.CacheStep | nCoda-win32-x64/resources/app/js/lib/vida.js:566-585 | removing the id at index n advances the walk on the cache by two |
| Vida.LogTurn | nCoda-win32-x64/resources/app/js/lib/vida.js:568-585 | the id at the loop index joins the committed ids in the log |
| Vida.WalkEnd | nCoda-win32-x64/resources/app/js/lib/vida.js:566-590 | at the end of the loop, even positions are committed and odd ones still highlighted, and the final `renderPage` completes the commit's log |
| Vida.LogRender | nCoda-win32-x64/resources/app/js/lib/vida.js:588-590 | the final `renderPage` extends the log of the edits |
| Vida.LogStep | nCoda-win32-x64/resources/app/js/lib/vida.js:60-66 | posting one more request with the render callback extends the log and the table by the next ticket |
| Vida.RenderAwaitingSnoc | nCoda-win32-x64/resources/app/js/lib/vida.js:60-66 | one more render callback registers the next ticket |
| Vida.EvensStep | nCoda-win32-x64/resources/app/js/lib/vida.js:566-584 | the walk's committed ids grow by original element m at each turn |
| Vida.EditsSnoc | nCoda-win32-x64/resources/app/js/lib/vida.js:575-584 | one more reached id adds one `edit` |
| Vida.RemoveAllSnoc | nCoda-win32-x64/resources/app/js/lib/vida.js:585 | removing one more id is one more `removeHighlight` |
| VerovioWorker.OneBased | nCoda-win32-x64/resources/app/lib/vida/verovioWorker.js:55 | the toolkit is asked for page `pageIndex + 1` |
| VerovioWorker.Rendered | nCoda-win32-x64/resources/app/lib/vida/verovioWorker.js:53-61 | a failed render sends an error first; `returnPage` with the original 0-based index, the overlay flag and the MEI is always sent, last |
| VerovioWorker.Dispatch | nCoda-win32-x64/resources/app/lib/vida/verovioWorker.js:23-82 | before `setVerovio`, exactly one `error` under the same ticket, with the state unchanged; `setVerovio` sets the flag and a fresh toolkit; `setVerovio` and `setOptions` are silent; once set, `loadData` loads the document and answers the new page count, `setOptions` passes the options, `renderPage` renders the unchanged toolkit with an overlay, `edit` applies the action and then renders without one, `getMEI` answers the toolkit's MEI, and an unknown kind gets one `error`; every reply carries the message's ticket |
| VerovioWorker.Run | nCoda-win32-x64/resources/app/lib/vida/verovioWorker.js:23-82 | a stream of messages keeps the state well formed, and once ready the worker stays ready |
| VerovioWorker.RepliesAnswerMessages | nCoda-win32-x64/resources/app/lib/vida/verovioWorker.js:18-21 | every reply carries the ticket of a message the worker was sent |
| VerovioWorker.ReadyNeverRefuses | nCoda-win32-x64/resources/app/lib/vida/verovioWorker.js:29-42 | once ready, or when the stream opens with `setVerovio`, no message is refused |
| VerovioWorker.UnsetRefusesAll | nCoda-win32-x64/resources/app/lib/vida/verovioWorker.js:29-33 | without `setVerovio`, message i gets exactly one refusal under its own ticket, and the worker stays as it was |
| VerovioWorker.MessagesTo | nCoda-win32-x64/resources/app/js/lib/vida.js:60-66 | the log entries that went to one worker, in order |
| VerovioWorker.FirstMessageTo | nCoda-win32-x64/resources/app/js/lib/vida.js:60-66 | the first log entry for a worker opens what that worker receives |
| VerovioWorker.ControllerTrafficNeverRefused | nCoda-win32-x64/resources/app/lib/vida/verovioWorker.js:29-33 | a worker fed the controller's traffic receives `setVerovio` first, so it never sends the refusal |
| VerovioWorker.FromWorker | nCoda-win32-x64/resources/app/js/lib/vida.js:38-41 | each reply reaches the controller tagged with its worker |
| VerovioWorker.RenderAnswerResolution | nCoda-win32-x64/resources/app/lib/vida/verovioWorker.js:53-72 | a page that rendered reaches the pending callback exactly once; a failed render settles the ticket with its error, so the `returnPage` after it reaches no callback |
| VerovioWorker.Worker.constructor | nCoda-win32-x64/resources/app/lib/vida/verovioWorker.js:15-16 | the worker starts not ready, with no toolkit and nothing sent |
| VerovioWorker.Worker.ContactCaller | nCoda-win32-x64/resources/app/lib/vida/verovioWorker.js:18-21 | posts one reply and changes nothing else |
| VerovioWorker.Worker.OnMessage | nCoda-win32-x64/resources/app/lib/vida/verovioWorker.js:23-82 | the listener's new globals and replies are those of `Dispatch` |
| VerovioWorker.Worker.RenderAndReturn | nCoda-win32-x64/resources/app/lib/vida/verovioWorker.js:54-60 | posts exactly `Rendered`, with the toolkit unchanged |
| Fujian.StdoutHandler.constructor | backend/nCoda.py:58-60 | a fresh buffer is empty |
| Fujian.StdoutHandler.Write | backend/nCoda.py:62-68 | the buffer becomes the old buffer followed by the text |
| Fujian.StdoutHandler.Get | backend/nCoda.py:70-77 | returns the buffer and changes nothing |
| Fujian.Executed | backend/nCoda.py:128-160 | `fujian_return` is set to `''` before the code runs and deleted afterwards; the result has the traceback iff the code raised an `Exception`, plus the captured streams and the returned value; it fails iff the code raised another `BaseException` or deleted `fujian_return` |
| Fujian.ReturnIsolated | backend/nCoda.py:144-146 | what a previous request left in `fujian_return` cannot change the next result |
| Fujian.UntouchedReturnIsEmpty | backend/nCoda.py:146-157 | code that leaves `fujian_return` alone and does not escape returns `''` |
| Fujian.Status | backend/nCoda.py:204-206 | 400 exactly when there is a traceback, 200 otherwise |
| Fujian.SilentIffEmptySuccess | backend/nCoda.py:294-299 | the WebSocket stays silent exactly on a result with no traceback and empty stdout, stderr and return |
| Fujian.Answers | backend/nCoda.py:295-298 | the WebSocket answers every result with a traceback, and stays silent only on a result with no traceback and three empty strings |
| Fujian.CheckOrigin | backend/nCoda.py:257-268 | true iff the origin starts with `http://localhost:`, `https://localhost:` or `file://` |
| Fujian.LookalikeHostRefused | backend/nCoda.py:263-266 | `http(s)://localhost.` followed by anything is refused |
| Fujian.LocalOriginsPermitted | backend/nCoda.py:263-266 | every origin that starts with one of the three prefixes is accepted |
| Fujian.Interpreter.constructor | backend/nCoda.py:40 | the namespace starts with `__name__` set to `__main__` |
| Fujian.Interpreter.MakeNewStdout | backend/nCoda.py:80-85 | two fresh, distinct, empty handlers; the namespace is kept |
| Fujian.Interpreter.ExecuteSomePython | backend/nCoda.py:128-160 | the new namespace and the result are those of `Executed`; when an exception leaves it, the namespace is what the code left |
| Fujian.Interpreter.Post | backend/nCoda.py:181-208 | with the request body decoded to its code: the response body is the result of `execute_some_python`, the status is given by `Status`, and the shared namespace is what that run leaves |
| Fujian.Interpreter.PostAsWritten | backend/nCoda.py:200-208 | under Python 3, whatever the body, the response is 200 with three empty strings, and only `fujian_return` leaves the namespace |
| Fujian.BytesRepr | backend/nCoda.py:200-202 | the text `str()` gives for a `bytes` body is a bytes literal, which writes nothing, raises nothing and keeps the namespace |
| Fujian.BodyNeverRuns | backend/nCoda.py:200-204 | `execute_some_python` of that literal succeeds with an empty result from every namespace |
| Fujian.Interpreter.OnMessage | backend/nCoda.py:270-299 | the result is written back exactly when `Answers` holds, and the shared namespace is what the run leaves |
| Scenarios.ClickScenario | nCoda-win32-x64/resources/app/js/lib/vida.js:507-562 | press and release without a move, on a fresh view: only `setVerovio` is posted, and the note stays highlighted |
| Scenarios.DragOfOneNote | nCoda-win32-x64/resources/app/js/lib/vida.js:507-594 | after a press, the commit posts exactly one `edit` of the pressed note to the committed y on the clicked page, then one `renderPage` of that page, and leaves nothing highlighted |
| Scenarios.FifteenPixelsDown | nCoda-win32-x64/resources/app/js/lib/vida.js:570-580 | pressed at svg y 40 and released 15 px lower at one unit per pixel, the note is committed at y 55 |
| Scenarios.LoadAnswered | nCoda-win32-x64/resources/app/lib/vida/verovioWorker.js:37-51 | `setVerovio`, `setOptions` and `loadData` from a fresh worker yield exactly one reply: `dataLoaded` with the page count of a toolkit given the options and then the document |

## Left out

- The DOM is not modelled: markup, `innerHTML`, `querySelector`, the copy and opacity reset of `createOverlay`, the loading popup, `initPopup`/`hidePopup`, `updateDims` and `initializeLayoutAndWorker`. Inline styles are kept in two maps. Replacing markup on refresh or render would drop them, and the model keeps them. The overlay's `transform` attributes, kept in `shift`, are dropped where the source drops them: on a refresh and when a render rebuilds the overlay.
- Style details are not modelled: the overlay's text and opacity reset. The translation, fill and stroke `commitChanges` writes into a committed note's inline style are not kept, because `removeHighlight` replaces that whole style in the same turn.
- `destroy`, `resizeComponents` (a 200 ms timer that calls `refreshVerovio`), `scrollToObject` (it calls an unbound `scrollToPage`), `getViewIndex` and `setMEIForViewIndex` are not modelled.
- A controller built without both locations is not modelled. The source logs an error and leaves the object uninitialised, so `Broker.Controller.constructor` requires both locations.
- `Vida.View.MouseDown` requires a non-zero rendered height. With a height of 0 the source computes `NaN` or infinity, and the model has no floating point.
- `>> 0` is applied to integral inputs. The model does not parse attribute strings.
- Dragging.CommittedY: computes the committed y in exact reals, not IEEE doubles, so near an integer it can differ by one from what the source sends. With svgY 0, press at 0, release at 100 and a ratio of 87/20, the double product is just below 435 and the source sends 434, while the model gives 435.
- Dragging.Trunc: models `parseInt` of a number's text as truncation toward zero. A value JavaScript prints in exponent form is not modelled: `parseInt` reads its leading digits, so 5e-7 becomes 5.
- Vida.View.RenderPage: always completes. In the source, `reapplyHighlights` throws when a cached id is missing from the rebuilt overlay. That happens, for example, after a zoom while a note on a later page is highlighted. The icon update and the `PageRendered` publish are then skipped. Which ids the overlay holds is not modelled.
- Broker.Resolve: always deletes the ticket of a reply that reaches its callback. In the source, a callback that throws (see `Vida.View.RenderPage`) keeps its ticket, because the deletion comes after the call.
- A page index the source passes as `undefined` is `None`. `OneBased(None)` stays `None` instead of becoming `NaN`.
- `mouseDownListener` reads the note id, the system id, the `viewBox` and the parent's height from the DOM. The model takes them as parameters, and the lookup of the page wrapper by `data-index` is left out.
- `commitChanges` guards its `removeHighlight` and its final `renderPage` with `draggingActive`. That flag is always true there, because `mouseUpListener` returns early otherwise, so `Vida.View.CommitChanges` requires it.
- Callbacks that subscribe or unsubscribe while a topic is being published are not modelled. Callbacks are tokens; their `args` and `scope` are not modelled.
- The worker treats the Verovio library as given: `importScripts` and every toolkit call except `renderPage` are assumed not to throw. The content of `'error'` texts is not modelled.
- Running Python is not modelled. `exec` is a function parameter, and each global is represented by the text `str()` gives for it. The result is `None` when the code raises a `BaseException` outside `Exception` or reading `fujian_return` back raises `KeyError`, because the source lets either exception escape.
- The namespace's `__builtins__` entry, `FUJIAN_WS`, `open`/`on_close`/`is_open`, the HTTP `get` ping, the response headers and Tornado itself are not modelled.
- `get_traceback` formatting, `myprint` and `get_from_stdout`/`get_from_stderr` are not modelled separately (the Python 3 `str` conversion of a request body is under Findings). The latter two are the handlers' `Get`.
- Layout.ScrollLandsOnPage: treats `scrollTop` as taking the offset it is given. The browser clamps it to the scrollable range and fires no scroll event when it does not change, so the last systems of a score may not reach the top of the view, and `syncScroll` may then choose an earlier system or not run.
- Vida.View.ScrollToPage: sets `scrollTop` to the system's offset without clamping it to the scrollable range.
- PubSub.Events.Subscribe: topics are plain strings in a map. The source's cache is a plain object, so a topic naming an inherited property such as `constructor` or `toString` already has a truthy entry, and `subscribe` throws at `push`.
- PubSub.Events.Publish: for the same inherited-property topics the source walks the inherited function as if it were the list of callbacks. For `constructor`, whose `length` is 1, it calls an undefined element and throws. The model publishes to nobody.
- Concurrency is not modelled. Worker messages and DOM events are handled one at a time, in the order given.

## Findings

| source | as written | input that shows it | evidently intended | confidence | as-written member | corrected member |
|---|---|---|---|---|---|---|
| backend/nCoda.py:200-204 | under Python 3 (the script's interpreter line) Tornado's request body is `bytes`, so the `isinstance` test fails and `str(body)` gives the repr `b'...'`, which `exec` evaluates as a bare bytes literal | an HTTP POST whose body is `print(1)`: the code run is `b'print(1)'`, and the answer is 200 with empty `stdout`, `stderr` and `return` | decode the body to text and run the submitted code, as the handler's docstring and the WebSocket handler do | not executed; read from the code | Fujian.Interpreter.PostAsWritten | Fujian.Interpreter.Post |
