/**
 * Shared vocabulary of the Vida controller, its views and the Verovio worker:
 * the messages `[messageType, ticket, params]` that travel between them, the
 * view's Verovio settings and the continuation tokens the controller keeps
 * per ticket.
 */
module Protocol {

  datatype Option<+T> = None | Some(value: T)

  /** A DOM element id as the highlight code reads it from the overlay. */
  type Id = s: string | s != "" witness "n"

  /** The `verovioSettings` record each view owns and sends with `setOptions`. */
  datatype Settings = Settings(
    pageHeight: int,
    pageWidth: int,
    inputFormat: string,
    scale: int,
    border: int,
    noLayout: int,
    ignoreLayout: int,
    adjustPageHeight: int)

  /** The settings a freshly constructed view starts with. */
  const DefaultSettings := Settings(100, 100, "mei", 40, 50, 0, 1, 1)

  /** The editor action of a committed drag: `{action: 'drag', param: {elementId, x, y}}`. */
  datatype DragAction = Drag(elementId: Id, x: int, y: int)

  /** The message types the worker recognises. */
  const KnownKinds: set<string> := {"setVerovio", "loadData", "setOptions", "renderPage", "edit", "mei"}

  /** Any other message type: the worker's `default` branch. */
  type UnknownKind = k: string | k !in KnownKinds witness "?"

  /**
   * A request and its parameters. A page index is `None` where the caller
   * passes `undefined` (a `clickedPage` that was never set).
   */
  datatype Request =
    | SetVerovio(location: string)
    | SetOptions(options: Settings)
    | LoadData(mei: string)
    | RenderPage(pageIndex: Option<nat>)
    | Edit(action: DragAction, pageIndex: Option<nat>)
    | GetMei
    | Unrecognised(kind: UnknownKind)

  /** `[messageType, ticket, params]` as posted to a worker. */
  datatype Message = Message(request: Request, ticket: int)

  /** Why the worker answered with `'error'`. */
  datatype Failure =
    | NotReady
    | RenderFailed(pageIndex: Option<nat>)
    | NotRecognised(kind: UnknownKind)

  /** `[messageType, ticket, params]` as posted back by a worker. */
  datatype Reply =
    | Error(ticket: int, failure: Failure)
    | DataLoaded(ticket: int, pageCount: nat)
    | ReturnPage(ticket: int, pageIndex: Option<nat>, svg: Option<string>, createOverlay: bool, mei: string)
    | Mei(ticket: int, mei: string)

  /**
   * The callbacks a view hands to the controller: its `renderPage` method and
   * the arrow function of `refreshVerovio` that reacts to `dataLoaded`.
   */
  datatype Continuation = RenderPageCallback | DataLoadedCallback
}
