/**
 * A Vida view: the Verovio settings it owns, its index of rendered systems,
 * the toolbar icons, the highlight cache with the styles it drives on both
 * surfaces, and the drag gesture. Requests go through the shared controller;
 * DOM measurements arrive as parameters.
 */
module Vida {
  import opened Protocol
  import opened Broker
  import opened PubSub
  import opened Layout
  import opened Highlights
  import opened Dragging

  /** Visibility of the four toolbar icons. */
  datatype Icons = Icons(nextPage: bool, prevPage: bool, zoomIn: bool, zoomOut: bool)

  /** The icons after `updateNavIcons`. */
  function NavIcons(icons: Icons, noLayout: int, currentSystem: int, totalSystems: int): (r: Icons)
    ensures r.zoomIn == icons.zoomIn && r.zoomOut == icons.zoomOut
    ensures noLayout != 0 ==> !r.nextPage && !r.prevPage
  {
    icons.(nextPage := NextPageVisible(noLayout, currentSystem, totalSystems),
           prevPage := PrevPageVisible(noLayout, currentSystem))
  }

  /** The icons after `updateZoomIcons`. */
  function ZoomIcons(icons: Icons, scale: int): (r: Icons)
    ensures r.nextPage == icons.nextPage && r.prevPage == icons.prevPage
    ensures r.zoomIn || r.zoomOut
  {
    icons.(zoomIn := ZoomInVisible(scale), zoomOut := ZoomOutVisible(scale))
  }

  /** The settings after `refreshVerovio` has sized the page to the wrapper. */
  function Resized(s: Settings, clientHeight: int, clientWidth: int): (r: Settings)
    requires s.scale != 0
    ensures r == s.(pageHeight := r.pageHeight, pageWidth := r.pageWidth)
    ensures r.pageHeight == PageExtent(clientHeight, s.scale, s.border) && r.pageWidth == PageExtent(clientWidth, s.scale, s.border)
  {
    s.(pageHeight := PageExtent(clientHeight, s.scale, s.border),
       pageWidth := PageExtent(clientWidth, s.scale, s.border))
  }

  /** The two requests of `refreshVerovio`: the options, then the document with a trailing newline. */
  function RefreshRequests(s: Settings, mei: string): seq<Request>
  {
    [SetOptions(s), LoadData(mei + "\n")]
  }

  /** The requests of the `dataLoaded` continuation: one `renderPage` per page, in page order. */
  function PageRequests(pageCount: nat): (r: seq<Request>)
    ensures |r| == pageCount
    ensures forall p | 0 <= p < pageCount :: r[p] == RenderPage(Some(p))
  {
    seq(pageCount, p requires 0 <= p < pageCount => RenderPage(Some(p)))
  }

  /** The `edit` requests of `commitChanges`, one per id the loop reaches. */
  function Edits(ids: seq<Id>, info: DragInfo, finalY: int, page: Option<nat>): (r: seq<Request>)
    ensures |r| == |ids|
    ensures forall i | 0 <= i < |ids| :: r[i] == Edit(Drag(ids[i], info.x, CommittedY(info, finalY)), page)
  {
    seq(|ids|, i requires 0 <= i < |ids| => Edit(Drag(ids[i], info.x, CommittedY(info, finalY)), page))
  }

  /** Everything `commitChanges` posts: an edit per id it reaches, then one re-render of the clicked page. */
  function CommitRequests(cache: seq<Id>, info: DragInfo, finalY: int, page: Option<nat>): (r: seq<Request>)
    ensures |r| == (|cache| + 1) / 2 + 1 && r[|r| - 1] == RenderPage(page)
    ensures forall i | 0 <= i < |r| - 1 :: r[i].Edit? && r[i].action.elementId == cache[2 * i]
  {
    Edits(Evens(cache), info, finalY, page) + [RenderPage(page)]
  }

  /** The table after `n` render continuations are registered from ticket `first` on. */
  function RenderAwaiting(tickets: Pending, first: nat, n: nat): Pending
  {
    Awaiting(tickets, first, n, Some(RenderPageCallback))
  }

  class View {
    const controller: Controller
    const viewIndex: nat
    const events: Events
    /** `verovioSettings`. */
    var settings: Settings
    /** The document last given to `refreshVerovio`; "" while none was given. */
    var mei: string
    var systemData: seq<SystemEntry>
    var currentSystem: nat
    var totalSystems: nat
    /** `scrollTop` of the overlay, which the content surface follows. */
    var scrollTop: int
    var icons: Icons
    var clickedPage: Option<nat>
    var draggingActive: bool
    /** Whether the move and release listeners are attached to the document. */
    var listening: bool
    var dragInfo: Option<DragInfo>
    /** `highlightedCache` and the inline styles of both surfaces. */
    var highlights: Surfaces
    /** The vertical `translate` the overlay applies to each dragged id. */
    var shift: map<Id, real>

    ghost predicate Valid()
      reads this, controller
    {
      && controller.Valid()
      && viewIndex < controller.workers
      && totalSystems == |systemData|
      && (currentSystem == 0 || currentSystem < |systemData|)
      && ReachableScale(settings.scale)
      && (settings.noLayout == 0 || settings.noLayout == 1)
      && Consistent(highlights)
      && (listening ==> dragInfo.Some?)
      && (draggingActive ==> dragInfo.Some?)
    }

    /** The scroll state: index, position and current system. */
    ghost function Page(): (seq<SystemEntry>, nat, nat, int)
      reads this
    {
      (systemData, currentSystem, totalSystems, scrollTop)
    }

    /** The press and the listeners, without the overlay's translations. */
    ghost function Press(): (Option<nat>, bool, bool, Option<DragInfo>)
      reads this
    {
      (clickedPage, draggingActive, listening, dragInfo)
    }

    /** The drag state. */
    ghost function Gesture(): (Option<nat>, bool, bool, Option<DragInfo>, map<Id, real>)
      reads this
    {
      (clickedPage, draggingActive, listening, dragInfo, shift)
    }

    /** The requests of a refresh were posted after `outbox0`, from ticket `ticket0` on. */
    ghost predicate PostedRefresh(outbox0: seq<Posted>, tickets0: Pending, ticket0: nat)
      reads this, controller
    {
      && controller.outbox == outbox0 + Batch(viewIndex, RefreshRequests(settings, mei), ticket0)
      && controller.tickets == tickets0[ticket0 := None][ticket0 + 1 := Some(DataLoadedCallback)]
    }

    /**
     * What a commit leaves, from the highlights `h0`, the drag `info`, the
     * release position and the clicked page: the ids at even positions of the
     * cache are edited and un-highlighted, the others stay highlighted, one
     * re-render follows, and the gesture is over. The overlay keeps the
     * translation of the last mouse move: the one the commit writes into a
     * note's inline style is replaced, in the same turn, by the style
     * `removeHighlight` sets.
     */
    ghost predicate Committed(h0: Surfaces, shift0: map<Id, real>, info: DragInfo, finalY: int, page: Option<nat>,
                              outbox0: seq<Posted>, tickets0: Pending, ticket0: nat)
      reads this, controller
    {
      && shift == shift0
      && highlights == RemoveAll(h0, Evens(h0.cache))
      && highlights.cache == Odds(h0.cache)
      && Logged(controller.outbox, controller.tickets, outbox0, tickets0, ticket0, viewIndex,
                CommitRequests(h0.cache, info, finalY, page))
      && !draggingActive && dragInfo.None?
    }

    /**
     * Registers with the controller (which posts `setVerovio`), starts from
     * the default settings and, given a document, refreshes at once.
     */
    constructor (controller: Controller, initialMei: string, clientHeight: int, clientWidth: int)
      requires controller.Valid()
      modifies controller
      ensures Valid() && this.controller == controller && viewIndex == old(controller.workers)
      ensures fresh(events) && events.cache == map[]
      ensures mei == initialMei
      ensures settings == if initialMei == "" then DefaultSettings else Resized(DefaultSettings, clientHeight, clientWidth)
      ensures systemData == [] && currentSystem == 0 && totalSystems == 0
      ensures highlights == Surfaces([], map[], map[]) && shift == map[]
      ensures clickedPage.None? && !draggingActive && !listening && dragInfo.None?
      ensures controller.outbox == old(controller.outbox)
                + [Posted(viewIndex, Message(SetVerovio(controller.verovioLocation), old(controller.ticketID)))]
                + (if initialMei == "" then [] else Batch(viewIndex, RefreshRequests(settings, mei), old(controller.ticketID) + 1))
    {
      this.controller := controller;
      var index := controller.Register();
      viewIndex := index;
      events := new Events();
      settings := DefaultSettings;
      mei := "";
      systemData := [];
      currentSystem := 0;
      totalSystems := 0;
      scrollTop := 0;
      icons := Icons(true, true, true, true);
      clickedPage := None;
      draggingActive := false;
      listening := false;
      dragInfo := None;
      highlights := Surfaces([], map[], map[]);
      shift := map[];
      new;
      if initialMei != "" {
        RefreshVerovio(initialMei, clientHeight, clientWidth);
      }
    }

    /**
     * Keeps a non-empty new document; with a document at hand, empties both
     * surfaces (which drops every translation on the overlay), sizes the page
     * to the wrapper and posts `setOptions` (no continuation) and `loadData`
     * (continued by `OnDataLoaded`). Without a document it does nothing.
     */
    method RefreshVerovio(newMei: string, clientHeight: int, clientWidth: int)
      requires Valid()
      modifies this, controller
      ensures Valid()
      ensures mei == if newMei != "" then newMei else old(mei)
      ensures mei == "" ==> settings == old(settings) && unchanged(controller)
      ensures mei != "" ==> settings == Resized(old(settings), clientHeight, clientWidth)
      ensures mei != "" ==> PostedRefresh(old(controller.outbox), old(controller.tickets), old(controller.ticketID))
      ensures controller.workers == old(controller.workers)
      ensures shift == if mei == "" then old(shift) else map[]
      ensures Page() == old(Page()) && Press() == old(Press())
      ensures icons == old(icons) && highlights == old(highlights)
    {
      if newMei != "" {
        mei := newMei;
      }
      if mei == "" {
        return;
      }
      shift := map[];
      settings := Resized(settings, clientHeight, clientWidth);
      PostRefresh();
    }

    /** The two requests of `refreshVerovio`: `setOptions` without a continuation, then `loadData`. */
    method PostRefresh()
      requires controller.Valid() && viewIndex < controller.workers
      modifies controller
      ensures controller.Valid() && controller.workers == old(controller.workers)
      ensures PostedRefresh(old(controller.outbox), old(controller.tickets), old(controller.ticketID))
    {
      controller.ContactWorker(SetOptions(settings), viewIndex, None);
      controller.ContactWorker(LoadData(mei + "\n"), viewIndex, Some(DataLoadedCallback));
    }

    /** The `dataLoaded` continuation: asks for every page, each continued by `RenderPage`. */
    method OnDataLoaded(pageCount: nat)
      requires controller.Valid() && viewIndex < controller.workers
      modifies controller
      ensures controller.Valid()
      ensures controller.outbox == old(controller.outbox) + Batch(viewIndex, PageRequests(pageCount), old(controller.ticketID))
      ensures controller.tickets == RenderAwaiting(old(controller.tickets), old(controller.ticketID), pageCount)
      ensures controller.workers == old(controller.workers)
    {
      var p := 0;
      while p < pageCount
        invariant 0 <= p <= pageCount
        invariant controller.Valid() && controller.workers == old(controller.workers)
        invariant controller.ticketID == old(controller.ticketID) + p
        invariant Logged(controller.outbox, controller.tickets, old(controller.outbox), old(controller.tickets),
                         old(controller.ticketID), viewIndex, PageRequests(p))
      {
        RequestPage(p, old(controller.outbox), old(controller.tickets), old(controller.ticketID));
        p := p + 1;
      }
    }

    /** One turn of the `dataLoaded` loop: page `p` is asked for under the next ticket. */
    method RequestPage(p: nat, ghost outbox0: seq<Posted>, ghost tickets0: Pending, ghost ticket0: nat)
      requires controller.Valid() && viewIndex < controller.workers && controller.ticketID == ticket0 + p
      requires Logged(controller.outbox, controller.tickets, outbox0, tickets0, ticket0, viewIndex, PageRequests(p))
      modifies controller
      ensures controller.Valid() && controller.workers == old(controller.workers)
      ensures controller.ticketID == ticket0 + p + 1
      ensures Logged(controller.outbox, controller.tickets, outbox0, tickets0, ticket0, viewIndex, PageRequests(p + 1))
    {
      assert PageRequests(p + 1) == PageRequests(p) + [Request.RenderPage(Some(p))];
      LogStep(controller.outbox, controller.tickets, outbox0, tickets0, ticket0, viewIndex, PageRequests(p), Request.RenderPage(Some(p)));
      controller.ContactWorker(Request.RenderPage(Some(p)), viewIndex, Some(RenderPageCallback));
    }

    /**
     * The `renderPage` continuation, given the wrapper's top, the systems
     * found on the content surface and the reply's `createOverlay` flag:
     * rebuilds the system index, rebuilds the overlay from the content when
     * asked (which drops every translation on it), re-applies the
     * highlights, updates the navigation icons and publishes `PageRendered`.
     */
    method RenderPage(vidaOffset: int, scan: seq<ScannedSystem>, createOverlay: bool) returns (notified: seq<Callback>)
      requires Valid()
      modifies this
      ensures Valid()
      ensures systemData == Rescanned(old(systemData), scan, vidaOffset, settings.border)
      ensures totalSystems == |systemData|
      ensures highlights == old(highlights)
      ensures icons == NavIcons(old(icons), settings.noLayout, currentSystem, totalSystems)
      ensures notified == Publishes(events.cache, "PageRendered")
      ensures settings == old(settings) && mei == old(mei)
      ensures shift == if createOverlay then map[] else old(shift)
      ensures currentSystem == old(currentSystem) && scrollTop == old(scrollTop) && Press() == old(Press())
    {
      systemData := Rescan(systemData, scan, vidaOffset, settings.border);
      totalSystems := |systemData|;
      RebuildOverlay(createOverlay);
      UpdateNavIcons();
      notified := events.Publish("PageRendered");
    }

    /**
     * The middle of `renderPage`: `createOverlay` copies the content surface
     * onto the overlay, which drops every translation on it; then the
     * highlights are painted again, which on consistent surfaces changes
     * nothing.
     */
    method RebuildOverlay(createOverlay: bool)
      requires Consistent(highlights)
      modifies this
      ensures shift == if createOverlay then map[] else old(shift)
      ensures highlights == old(highlights)
      ensures settings == old(settings) && mei == old(mei) && icons == old(icons)
      ensures Page() == old(Page()) && Press() == old(Press())
    {
      if createOverlay {
        shift := map[];
      }
      ReapplyHighlights();
      ReappliedConsistent(old(highlights));
    }

    /** Paints every cached id active on the overlay. */
    method ReapplyHighlights()
      modifies this
      ensures highlights == old(highlights).(overlay := Reapplied(old(highlights.overlay), old(highlights.cache)))
      ensures settings == old(settings) && mei == old(mei) && icons == old(icons)
      ensures Page() == old(Page()) && Gesture() == old(Gesture())
    {
      var overlay := Repaint(highlights.overlay, highlights.cache);
      highlights := highlights.(overlay := overlay);
    }

    method UpdateNavIcons()
      modifies this
      ensures icons == NavIcons(old(icons), settings.noLayout, currentSystem, totalSystems)
      ensures settings == old(settings) && mei == old(mei) && highlights == old(highlights)
      ensures Page() == old(Page()) && Gesture() == old(Gesture())
    {
      icons := icons.(nextPage := !(settings.noLayout != 0 || currentSystem == totalSystems - 1));
      icons := icons.(prevPage := !(settings.noLayout != 0 || currentSystem == 0));
    }

    method UpdateZoomIcons()
      modifies this
      ensures icons == ZoomIcons(old(icons), settings.scale)
      ensures settings == old(settings) && mei == old(mei) && highlights == old(highlights)
      ensures Page() == old(Page()) && Gesture() == old(Gesture())
    {
      icons := icons.(zoomIn := settings.scale != 100);
      icons := icons.(zoomOut := settings.scale != 10);
    }

    /**
     * The overlay scrolled to `newTop`: the content surface follows and, in
     * vertical mode, the current system becomes the first one within 25
     * pixels below the new position, if there is one.
     */
    method SyncScroll(newTop: int)
      requires Valid()
      modifies this
      ensures Valid()
      ensures scrollTop == newTop
      ensures currentSystem == if settings.noLayout == 0 && FirstWithin(systemData, newTop).Some?
                               then FirstWithin(systemData, newTop).value else old(currentSystem)
      ensures icons == NavIcons(old(icons), settings.noLayout, currentSystem, totalSystems)
      ensures systemData == old(systemData) && totalSystems == old(totalSystems)
      ensures settings == old(settings) && mei == old(mei) && highlights == old(highlights) && Gesture() == old(Gesture())
    {
      scrollTop := newTop;
      if settings.noLayout == 0 {
        var idx := 0;
        while idx < |systemData|
          invariant 0 <= idx <= |systemData|
          invariant forall j | 0 <= j < idx :: !Within(systemData[j], newTop)
          invariant currentSystem == old(currentSystem) && scrollTop == newTop
          invariant systemData == old(systemData) && totalSystems == old(totalSystems) && icons == old(icons)
          invariant settings == old(settings) && mei == old(mei) && highlights == old(highlights) && Gesture() == old(Gesture())
        {
          if newTop <= systemData[idx].topOffset + 25 {
            currentSystem := idx;
            break;
          }
          idx := idx + 1;
        }
      }
      UpdateNavIcons();
    }

    /** Scrolls the overlay to system `pageNumber`; the current system follows with the scroll event. */
    method ScrollToPage(pageNumber: nat)
      requires Valid() && pageNumber < |systemData|
      modifies this
      ensures Valid()
      ensures systemData == old(systemData) && currentSystem == old(currentSystem) && totalSystems == old(totalSystems)
      ensures scrollTop == systemData[pageNumber].topOffset
      ensures icons == NavIcons(old(icons), settings.noLayout, currentSystem, totalSystems)
      ensures settings == old(settings) && mei == old(mei) && highlights == old(highlights) && Gesture() == old(Gesture())
    {
      scrollTop := systemData[pageNumber].topOffset;
      UpdateNavIcons();
    }

    /** Scrolls to the next system unless the current one is the last. */
    method GotoNextPage()
      requires Valid()
      modifies this
      ensures Valid()
      ensures systemData == old(systemData) && currentSystem == old(currentSystem) && totalSystems == old(totalSystems)
      ensures old(currentSystem) < old(totalSystems) - 1 ==>
                scrollTop == systemData[currentSystem + 1].topOffset
                && icons == NavIcons(old(icons), settings.noLayout, currentSystem, totalSystems)
      ensures !(old(currentSystem) < old(totalSystems) - 1) ==> scrollTop == old(scrollTop) && icons == old(icons)
      ensures settings == old(settings) && mei == old(mei) && highlights == old(highlights) && Gesture() == old(Gesture())
    {
      if currentSystem < totalSystems - 1 {
        ScrollToPage(currentSystem + 1);
      }
    }

    /** Scrolls to the previous system unless the current one is the first. */
    method GotoPrevPage()
      requires Valid()
      modifies this
      ensures Valid()
      ensures systemData == old(systemData) && currentSystem == old(currentSystem) && totalSystems == old(totalSystems)
      ensures old(currentSystem) > 0 ==>
                scrollTop == systemData[currentSystem - 1].topOffset
                && icons == NavIcons(old(icons), settings.noLayout, currentSystem, totalSystems)
      ensures old(currentSystem) == 0 ==> scrollTop == old(scrollTop) && icons == old(icons)
      ensures settings == old(settings) && mei == old(mei) && highlights == old(highlights) && Gesture() == old(Gesture())
    {
      if currentSystem > 0 {
        ScrollToPage(currentSystem - 1);
      }
    }

    /**
     * Flips `noLayout` between 1 and 0, shows the direction icons exactly in
     * vertical mode and refreshes.
     */
    method ToggleOrientation(clientHeight: int, clientWidth: int)
      requires Valid()
      modifies this, controller
      ensures Valid()
      ensures var flipped := old(settings).(noLayout := if old(settings.noLayout) == 1 then 0 else 1);
              settings == if mei == "" then flipped else Resized(flipped, clientHeight, clientWidth)
      ensures icons == old(icons).(nextPage := settings.noLayout == 0, prevPage := settings.noLayout == 0)
      ensures mei == old(mei)
      ensures mei == "" ==> unchanged(controller)
      ensures mei != "" ==> PostedRefresh(old(controller.outbox), old(controller.tickets), old(controller.ticketID))
      ensures shift == if mei == "" then old(shift) else map[]
      ensures Page() == old(Page()) && Press() == old(Press()) && highlights == old(highlights)
    {
      if settings.noLayout == 1 {
        settings := settings.(noLayout := 0);
        icons := icons.(nextPage := true, prevPage := true);
      } else {
        settings := settings.(noLayout := 1);
        icons := icons.(nextPage := false, prevPage := false);
      }
      RefreshVerovio("", clientHeight, clientWidth);
    }

    /** Zooms in by 10 while the scale is at most 100, refreshing only then; updates the zoom icons. */
    method ZoomIn(clientHeight: int, clientWidth: int)
      requires Valid()
      modifies this, controller
      ensures Valid()
      ensures settings.scale == ZoomedIn(old(settings.scale))
      ensures var zoomed := old(settings).(scale := ZoomedIn(old(settings.scale)));
              settings == if zoomed.scale != old(settings.scale) && mei != "" then Resized(zoomed, clientHeight, clientWidth) else zoomed
      ensures settings.scale != old(settings.scale) && mei != "" ==>
                PostedRefresh(old(controller.outbox), old(controller.tickets), old(controller.ticketID))
      ensures settings.scale == old(settings.scale) || mei == "" ==> unchanged(controller)
      ensures icons == ZoomIcons(old(icons), settings.scale)
      ensures shift == if settings.scale != old(settings.scale) && mei != "" then map[] else old(shift)
      ensures mei == old(mei) && Page() == old(Page()) && Press() == old(Press()) && highlights == old(highlights)
    {
      if settings.scale <= 100 {
        settings := settings.(scale := settings.scale + 10);
        RefreshVerovio("", clientHeight, clientWidth);
      }
      UpdateZoomIcons();
    }

    /** Zooms out by 10 while the scale is above 10, refreshing only then; updates the zoom icons. */
    method ZoomOut(clientHeight: int, clientWidth: int)
      requires Valid()
      modifies this, controller
      ensures Valid()
      ensures settings.scale == ZoomedOut(old(settings.scale))
      ensures var zoomed := old(settings).(scale := ZoomedOut(old(settings.scale)));
              settings == if zoomed.scale != old(settings.scale) && mei != "" then Resized(zoomed, clientHeight, clientWidth) else zoomed
      ensures settings.scale != old(settings.scale) && mei != "" ==>
                PostedRefresh(old(controller.outbox), old(controller.tickets), old(controller.ticketID))
      ensures settings.scale == old(settings.scale) || mei == "" ==> unchanged(controller)
      ensures icons == ZoomIcons(old(icons), settings.scale)
      ensures shift == if settings.scale != old(settings.scale) && mei != "" then map[] else old(shift)
      ensures mei == old(mei) && Page() == old(Page()) && Press() == old(Press()) && highlights == old(highlights)
    {
      if settings.scale > 10 {
        settings := settings.(scale := settings.scale - 10);
        RefreshVerovio("", clientHeight, clientWidth);
      }
      UpdateZoomIcons();
    }

    /** A click on the overlay publishes `ObjectClicked` when the target lies inside a measure. */
    method ObjectClick(insideMeasure: bool) returns (notified: seq<Callback>)
      ensures insideMeasure ==> notified == Publishes(events.cache, "ObjectClicked")
      ensures !insideMeasure ==> notified == []
    {
      notified := [];
      if insideMeasure {
        notified := events.Publish("ObjectClicked");
      }
    }

    /** Highlights `id` unless it already is. */
    method ActivateHighlight(id: Id)
      modifies this
      ensures highlights == Activate(old(highlights), id)
      ensures settings == old(settings) && mei == old(mei) && icons == old(icons)
      ensures Page() == old(Page()) && Gesture() == old(Gesture())
    {
      if IndexOf(highlights.cache, id) > -1 {
        return;
      }
      highlights := highlights.(cache := highlights.cache + [id]);
      ReapplyHighlights();
      highlights := highlights.(wrapper := highlights.wrapper[id := Suppressed]);
    }

    /** Un-highlights the first occurrence of `id`, if any. */
    method RemoveHighlight(id: Id)
      modifies this
      ensures highlights == Remove(old(highlights), id)
      ensures settings == old(settings) && mei == old(mei) && icons == old(icons)
      ensures Page() == old(Page()) && Gesture() == old(Gesture())
    {
      var idx := IndexOf(highlights.cache, id);
      if idx == -1 {
        return;
      }
      var cache := highlights.cache;
      highlights := Surfaces(Spliced(cache, idx),
                             highlights.wrapper[id := Restored],
                             highlights.overlay[id := Cleared]);
    }

    /** Un-highlights the first cached id until none is left. */
    method ResetHighlights()
      modifies this
      ensures highlights == Reset(old(highlights))
      ensures settings == old(settings) && mei == old(mei) && icons == old(icons)
      ensures Page() == old(Page()) && Gesture() == old(Gesture())
    {
      while |highlights.cache| > 0
        invariant Reset(highlights) == Reset(old(highlights))
        invariant settings == old(settings) && mei == old(mei) && icons == old(icons)
        invariant Page() == old(Page()) && Gesture() == old(Gesture())
        decreases |highlights.cache|
      {
        RemoveHighlight(highlights.cache[0]);
      }
    }

    /** The first step of `mouseDownListener` on the overlay: `resetHighlights`, then `activateHighlight(id)`. */
    method HighlightOnly(id: Id)
      requires Consistent(highlights)
      modifies this
      ensures highlights == Activate(Reset(old(highlights)), id) && Consistent(highlights)
      ensures settings == old(settings) && mei == old(mei) && icons == old(icons)
      ensures Page() == old(Page()) && Gesture() == old(Gesture())
    {
      ghost var h0 := highlights;
      ResetHighlights();
      ResetRestoresAll(h0);
      ActivateHighlight(id);
    }

    /** The scan of `mouseDownListener` for the first system whose id is `sysID`. */
    method FindSystem(sysID: string) returns (found: Option<nat>)
      ensures found == IndexOfSystem(systemData, sysID)
      ensures found.Some? ==> found.value < |systemData| && systemData[found.value].id == sysID
    {
      found := None;
      var idx := 0;
      while idx < |systemData|
        invariant 0 <= idx <= |systemData|
        invariant forall j | 0 <= j < idx :: systemData[j].id != sysID
      {
        if systemData[idx].id == sysID {
          found := Some(idx);
          return;
        }
        idx := idx + 1;
      }
    }

    /**
     * Press on note `id` of system `sysID`: records the clicked page (the
     * first system with that id; an unknown system keeps the previous one),
     * makes `id` the only highlight, records the drag origin and attaches
     * the move and release listeners. No drag is under way yet.
     */
    method MouseDown(id: Id, sysID: string, x: int, svgY: int, pageY: int, actualHeight: int, svgHeight: int)
      requires Valid() && svgHeight != 0
      modifies this
      ensures Valid()
      ensures clickedPage == if IndexOfSystem(systemData, sysID).Some? then IndexOfSystem(systemData, sysID) else old(clickedPage)
      ensures highlights == Activate(Reset(old(highlights)), id)
      ensures dragInfo == Some(DragInfo(ToInt32(x), ToInt32(svgY), pageY, PixPerPix(actualHeight, svgHeight)))
      ensures listening && !draggingActive && shift == old(shift)
      ensures settings == old(settings) && mei == old(mei) && icons == old(icons) && Page() == old(Page())
    {
      var found := FindSystem(sysID);
      if found.Some? {
        clickedPage := found;
      }
      HighlightOnly(id);
      StartDrag(DragInfo(ToInt32(x), ToInt32(svgY), pageY, PixPerPix(actualHeight, svgHeight)));
    }

    /** The end of `mouseDownListener`: records the drag origin and attaches the move and release listeners. */
    method StartDrag(info: DragInfo)
      modifies this
      ensures Gesture() == (old(clickedPage), false, true, Some(info), old(shift))
      ensures highlights == old(highlights)
      ensures settings == old(settings) && mei == old(mei) && icons == old(icons) && Page() == old(Page())
    {
      dragInfo := Some(info);
      listening := true;
      draggingActive := false;
    }

    /** Mouse at `pageY` during a drag: every highlighted id follows it, and the drag is under way. */
    method MouseMove(pageY: int)
      requires Valid() && listening
      modifies this
      ensures Valid() && draggingActive
      ensures shift == ShiftedBy(old(shift), highlights.cache, Shift(dragInfo.value, pageY))
      ensures clickedPage == old(clickedPage) && listening && dragInfo == old(dragInfo)
      ensures highlights == old(highlights) && settings == old(settings) && mei == old(mei) && icons == old(icons)
      ensures Page() == old(Page())
    {
      shift := Translate(shift, highlights.cache, Shift(dragInfo.value, pageY));
      draggingActive := true;
    }

    /**
     * Release at `finalY`: detaches the listeners and, only if the mouse
     * moved since the press, commits the drag.
     */
    method MouseUp(finalY: int)
      requires Valid() && listening
      modifies this, controller
      ensures Valid() && !listening
      ensures !old(draggingActive) ==>
                && unchanged(controller) && highlights == old(highlights) && dragInfo == old(dragInfo)
                && !draggingActive && shift == old(shift)
      ensures old(draggingActive) ==>
                Committed(old(highlights), old(shift), old(dragInfo).value, finalY, old(clickedPage),
                          old(controller.outbox), old(controller.tickets), old(controller.ticketID))
      ensures clickedPage == old(clickedPage)
      ensures settings == old(settings) && mei == old(mei) && icons == old(icons) && Page() == old(Page())
    {
      listening := false;
      if !draggingActive {
        return;
      }
      CommitChanges(finalY);
    }

    /** The fields a commit leaves alone. */
    ghost function Kept(): (Settings, string, Icons, (seq<SystemEntry>, nat, nat, int), Option<nat>, bool, map<Id, real>)
      reads this
    {
      (settings, mei, icons, Page(), clickedPage, listening, shift)
    }

    /** The part of the view and of the controller a commit changes. */
    ghost function Snapshot(): CommitState
      reads this, controller
    {
      CommitState(highlights, controller.outbox, controller.tickets, controller.ticketID)
    }

    /**
     * One turn of the `commitChanges` loop, on the id at index `idx`. The
     * translation and colours the loop writes into the note's inline style
     * do not outlast the turn: `removeHighlight` replaces that whole style.
     */
    method CommitStep(idx: nat, info: DragInfo, finalY: int, page: Option<nat>)
      requires controller.Valid() && viewIndex < controller.workers && idx < |highlights.cache|
      modifies this, controller
      ensures Snapshot() == Turn(info, finalY, page, viewIndex, old(Snapshot()), idx)
      ensures controller.Valid() && controller.workers == old(controller.workers)
      ensures Kept() == old(Kept()) && draggingActive == old(draggingActive) && dragInfo == old(dragInfo)
    {
      var id := highlights.cache[idx];
      controller.ContactWorker(Edit(Drag(id, info.x, CommittedY(info, finalY)), page), viewIndex, Some(RenderPageCallback));
      RemoveHighlight(id);
    }

    /**
     * The loop of `commitChanges`: walks `highlightedCache` by index while
     * removing each id it visits, so the walk skips the id after each one.
     * The ids at even positions get an `edit` request and lose their
     * highlight; the others keep it.
     */
    method CommitHighlighted(info: DragInfo, finalY: int, page: Option<nat>)
      requires controller.Valid() && viewIndex < controller.workers && Consistent(highlights)
      modifies this, controller
      ensures controller.Valid() && controller.workers == old(controller.workers)
      ensures Consistent(highlights)
      ensures highlights == RemoveAll(old(highlights), Evens(old(highlights.cache)))
      ensures highlights.cache == Odds(old(highlights.cache))
      ensures Logged(controller.outbox + [Posted(viewIndex, Message(Request.RenderPage(page), controller.ticketID))],
                     controller.tickets[controller.ticketID := Some(RenderPageCallback)],
                     old(controller.outbox), old(controller.tickets), old(controller.ticketID), viewIndex,
                     CommitRequests(old(highlights.cache), info, finalY, page))
      ensures Kept() == old(Kept()) && draggingActive == old(draggingActive) && dragInfo == old(dragInfo)
    {
      ghost var c := CommitStart(Snapshot(), info, finalY, page, viewIndex);
      WalkStart(c);
      var idx := 0;
      while idx < |highlights.cache|
        invariant Walked(c, idx, Snapshot())
        invariant controller.Valid() && controller.workers == old(controller.workers)
        invariant Kept() == old(Kept()) && draggingActive == old(draggingActive) && dragInfo == old(dragInfo)
        decreases (|c.s0.h.cache| + 1) / 2 - idx
      {
        WalkStep(c, idx, Snapshot());
        CommitStep(idx, info, finalY, page);
        idx := idx + 1;
      }
      WalkEnd(c, idx, Snapshot());
    }

    /**
     * `commitChanges`: commits the highlighted ids the walk reaches, then
     * re-renders the clicked page and ends the drag. It runs after the
     * release has detached the listeners.
     */
    method CommitChanges(finalY: int)
      requires Valid() && draggingActive && !listening
      modifies this, controller
      ensures Valid()
      ensures Committed(old(highlights), old(shift), old(dragInfo).value, finalY, old(clickedPage),
                        old(controller.outbox), old(controller.tickets), old(controller.ticketID))
      ensures Kept() == old(Kept())
    {
      CommitHighlighted(dragInfo.value, finalY, clickedPage);
      controller.ContactWorker(Request.RenderPage(clickedPage), viewIndex, Some(RenderPageCallback));
      EndDrag();
    }

    /** The end of `commitChanges`: the drag is over and its record dropped. */
    method EndDrag()
      modifies this
      ensures Gesture() == (old(clickedPage), false, old(listening), None, old(shift))
      ensures highlights == old(highlights)
      ensures settings == old(settings) && mei == old(mei) && icons == old(icons) && Page() == old(Page())
    {
      draggingActive := false;
      dragInfo := None;
    }
  }

  /** What a commit changes: the surfaces, and the controller's log, table and next ticket. */
  datatype CommitState = CommitState(h: Surfaces, outbox: seq<Posted>, tickets: Pending, ticketID: nat)

  /** What a commit starts from, and the drag it ends. */
  datatype CommitStart = CommitStart(s0: CommitState, info: DragInfo, finalY: int, page: Option<nat>, worker: nat)

  /**
   * One turn of the commit loop on the id at index `idx`: its `edit` is
   * posted under the next ticket and continued by `RenderPage`, and it is
   * un-highlighted.
   */
  function Turn(info: DragInfo, finalY: int, page: Option<nat>, worker: nat, p: CommitState, idx: nat): CommitState
    requires idx < |p.h.cache|
  {
    var id := p.h.cache[idx];
    CommitState(Remove(p.h, id),
                p.outbox + [Posted(worker, Message(Edit(Drag(id, info.x, CommittedY(info, finalY)), page), p.ticketID))],
                p.tickets[p.ticketID := Some(RenderPageCallback)], p.ticketID + 1)
  }

  /**
   * The state after n turns of the commit loop, while n is at most the number
   * of even positions of the original cache: with m the length of its first
   * 2n elements (or all of it), the walk has reached its even positions
   * below m.
   */
  ghost predicate Walked(c: CommitStart, n: nat, s: CommitState)
  {
    var orig := c.s0.h.cache;
    var m := Min(2 * n, |orig|);
    && n <= (|orig| + 1) / 2
    && WalkedSurfaces(c.s0.h, m, s.h)
    && WalkedLog(c, Evens(orig[..m]), s)
  }

  /**
   * The surfaces once the first m elements of the original cache are walked:
   * the ids at even positions among them are removed, and the cache holds
   * the odd ones among them followed by the elements not yet walked.
   */
  ghost predicate WalkedSurfaces(h0: Surfaces, m: nat, h: Surfaces)
  {
    && m <= |h0.cache|
    && Consistent(h0)
    && h == RemoveAll(h0, Evens(h0.cache[..m]))
    && h.cache == Unvisited(h0.cache, m)
  }

  /**
   * The controller once the walk has reached `committed`: one `edit` per id
   * was posted under consecutive tickets, each awaiting a re-render.
   */
  ghost predicate WalkedLog(c: CommitStart, committed: seq<Id>, s: CommitState)
  {
    && s.ticketID == c.s0.ticketID + |committed|
    && Logged(s.outbox, s.tickets, c.s0.outbox, c.s0.tickets, c.s0.ticketID, c.worker,
              Edits(committed, c.info, c.finalY, c.page))
  }

  /** Before the first turn nothing is walked. */
  lemma WalkStart(c: CommitStart)
    requires Consistent(c.s0.h)
    ensures Walked(c, 0, c.s0)
  {
    var orig := c.s0.h.cache;
    assert orig[..0] == [];
    UnvisitedEnds(orig);
    assert Batch(c.worker, [], c.s0.ticketID) == [];
  }

  /**
   * One turn of the loop at index n reaches original element 2n: it is
   * committed, and splicing it out makes the walk skip the element after it.
   */
  lemma WalkStep(c: CommitStart, n: nat, s: CommitState)
    requires Walked(c, n, s) && n < |s.h.cache|
    ensures n < |c.s0.h.cache| && s.h.cache[n] == c.s0.h.cache[2 * n]
    ensures Walked(c, n + 1, Turn(c.info, c.finalY, c.page, c.worker, s, n))
  {
    assert Min(2 * n, |c.s0.h.cache|) == 2 * n;
    SurfacesStep(c.s0.h, n, s.h);
    LogWalkStep(c, n, s);
  }

  /** One turn of the walk on the log, in terms of the original cache. */
  lemma LogWalkStep(c: CommitStart, n: nat, s: CommitState)
    requires 2 * n < |c.s0.h.cache| && n < |s.h.cache| && s.h.cache[n] == c.s0.h.cache[2 * n]
    requires WalkedLog(c, Evens(c.s0.h.cache[..2 * n]), s)
    ensures WalkedLog(c, Evens(c.s0.h.cache[..Min(2 * n + 2, |c.s0.h.cache|)]), Turn(c.info, c.finalY, c.page, c.worker, s, n))
  {
    EvensStep(c.s0.h.cache, 2 * n);
    LogTurn(c, Evens(c.s0.h.cache[..2 * n]), s, n, Evens(c.s0.h.cache[..Min(2 * n + 2, |c.s0.h.cache|)]));
  }

  /**
   * One turn of the walk on the surfaces: the id at loop index m / 2 is
   * original element m, and removing it extends the removed ids by it and
   * advances the walk by two.
   */
  lemma SurfacesStep(h0: Surfaces, n: nat, h: Surfaces)
    requires 2 * n < |h0.cache| && WalkedSurfaces(h0, 2 * n, h)
    ensures n < |h.cache| && h.cache[n] == h0.cache[2 * n]
    ensures WalkedSurfaces(h0, Min(2 * n + 2, |h0.cache|), Remove(h, h.cache[n]))
  {
    WalkedDistinct(h0, 2 * n, h);
    CacheStep(h0.cache, n, h);
    RemovedStep(h0, n, h);
  }

  /** Removing original element 2n extends the removed ids by it. */
  lemma RemovedStep(h0: Surfaces, n: nat, h: Surfaces)
    requires 2 * n < |h0.cache| && h == RemoveAll(h0, Evens(h0.cache[..2 * n]))
    ensures Remove(h, h0.cache[2 * n]) == RemoveAll(h0, Evens(h0.cache[..Min(2 * n + 2, |h0.cache|)]))
  {
    EvensStep(h0.cache, 2 * n);
    RemoveAllSnoc(h0, Evens(h0.cache[..2 * n]), h0.cache[2 * n]);
  }

  /** The cache stays distinct while it is walked. */
  lemma WalkedDistinct(h0: Surfaces, m: nat, h: Surfaces)
    requires WalkedSurfaces(h0, m, h)
    ensures Distinct(h.cache)
  {
    RemoveAllConsistent(h0, Evens(h0.cache[..m]));
  }

  /** One turn of the walk on the cache alone: removing the id at loop index n advances the walk by two. */
  lemma CacheStep(orig: seq<Id>, n: nat, h: Surfaces)
    requires 2 * n < |orig| && h.cache == Unvisited(orig, 2 * n) && Distinct(h.cache)
    ensures n < |h.cache| && h.cache[n] == orig[2 * n]
    ensures Remove(h, h.cache[n]).cache == Unvisited(orig, Min(2 * n + 2, |orig|))
  {
    var m := 2 * n;
    assert m % 2 == 0 && m / 2 == n;
    SpliceSeq(orig, m);
    RemoveAt(h, n);
  }

  /** One turn of the walk on the log: the id at the loop index joins the committed ids. */
  lemma LogTurn(c: CommitStart, committed: seq<Id>, s: CommitState, idx: nat, next: seq<Id>)
    requires WalkedLog(c, committed, s) && idx < |s.h.cache| && next == committed + [s.h.cache[idx]]
    ensures WalkedLog(c, next, Turn(c.info, c.finalY, c.page, c.worker, s, idx))
  {
    var id := s.h.cache[idx];
    var edit := Edit(Drag(id, c.info.x, CommittedY(c.info, c.finalY)), c.page);
    var edits := Edits(committed, c.info, c.finalY, c.page);
    EditsSnoc(committed, id, c.info, c.finalY, c.page);
    LogStep(s.outbox, s.tickets, c.s0.outbox, c.s0.tickets, c.s0.ticketID, c.worker, edits, edit);
    var t := Turn(c.info, c.finalY, c.page, c.worker, s, idx);
    assert s.ticketID == c.s0.ticketID + |edits|;
    assert t.outbox == s.outbox + [Posted(c.worker, Message(edit, c.s0.ticketID + |edits|))];
    assert t.tickets == s.tickets[c.s0.ticketID + |edits| := Some(RenderPageCallback)];
  }

  /**
   * When the loop index reaches the end of the cache, the even positions are
   * committed and the odd ones still highlighted, and posting the final
   * re-render completes the log of the commit.
   */
  lemma WalkEnd(c: CommitStart, n: nat, s: CommitState)
    requires Walked(c, n, s) && n >= |s.h.cache|
    ensures && Consistent(s.h) && s.h == RemoveAll(c.s0.h, Evens(c.s0.h.cache)) && s.h.cache == Odds(c.s0.h.cache)
            && Logged(s.outbox + [Posted(c.worker, Message(RenderPage(c.page), s.ticketID))],
                      s.tickets[s.ticketID := Some(RenderPageCallback)], c.s0.outbox, c.s0.tickets, c.s0.ticketID, c.worker,
                      CommitRequests(c.s0.h.cache, c.info, c.finalY, c.page))
  {
    var orig := c.s0.h.cache;
    assert Min(2 * n, |orig|) == |orig|;
    assert orig[..|orig|] == orig;
    UnvisitedEnds(orig);
    RemoveAllConsistent(c.s0.h, Evens(orig));
    LogRender(c, Evens(orig), s);
  }

  /** Posting the final re-render after the edits of `committed` extends their log by it. */
  lemma LogRender(c: CommitStart, committed: seq<Id>, s: CommitState)
    requires WalkedLog(c, committed, s)
    ensures Logged(s.outbox + [Posted(c.worker, Message(RenderPage(c.page), s.ticketID))],
                   s.tickets[s.ticketID := Some(RenderPageCallback)], c.s0.outbox, c.s0.tickets, c.s0.ticketID, c.worker,
                   Edits(committed, c.info, c.finalY, c.page) + [RenderPage(c.page)])
  {
    var edits := Edits(committed, c.info, c.finalY, c.page);
    LogStep(s.outbox, s.tickets, c.s0.outbox, c.s0.tickets, c.s0.ticketID, c.worker, edits, RenderPage(c.page));
    assert s.ticketID == c.s0.ticketID + |edits|;
  }

  /** The requests `edits` were posted to `worker` after `outbox0`, each awaiting a render, from ticket `ticket0` on. */
  ghost predicate Logged(outbox: seq<Posted>, tickets: Pending, outbox0: seq<Posted>, tickets0: Pending, ticket0: nat,
                         worker: nat, edits: seq<Request>)
  {
    && outbox == outbox0 + Batch(worker, edits, ticket0)
    && tickets == RenderAwaiting(tickets0, ticket0, |edits|)
  }

  /** Posting one more request with the render continuation under the next ticket extends the log by it. */
  lemma LogStep(outbox: seq<Posted>, tickets: Pending, outbox0: seq<Posted>, tickets0: Pending, ticket0: nat,
                worker: nat, edits: seq<Request>, r: Request)
    requires Logged(outbox, tickets, outbox0, tickets0, ticket0, worker, edits)
    ensures Logged(outbox + [Posted(worker, Message(r, ticket0 + |edits|))],
                   tickets[ticket0 + |edits| := Some(RenderPageCallback)],
                   outbox0, tickets0, ticket0, worker, edits + [r])
  {
    BatchSnoc(worker, edits, r, ticket0);
    RenderAwaitingSnoc(tickets0, ticket0, |edits|);
  }

  /** Registering one more render continuation extends the table by the next ticket. */
  lemma RenderAwaitingSnoc(tickets: Pending, first: nat, n: nat)
    ensures RenderAwaiting(tickets, first, n + 1) == RenderAwaiting(tickets, first, n)[first + n := Some(RenderPageCallback)]
  {
  }

  /** The walk over the original cache advances by two: the element at m joins the committed ids. */
  lemma EvensStep(orig: seq<Id>, m: nat)
    requires m % 2 == 0 && m < |orig|
    ensures Evens(orig[..Min(m + 2, |orig|)]) == Evens(orig[..m]) + [orig[m]]
  {
    ExtendEven(orig, m);
    if m + 2 <= |orig| {
      ExtendOdd(orig, m + 1);
    }
  }

  lemma EditsSnoc(ids: seq<Id>, id: Id, info: DragInfo, finalY: int, page: Option<nat>)
    ensures Edits(ids + [id], info, finalY, page) == Edits(ids, info, finalY, page) + [Edit(Drag(id, info.x, CommittedY(info, finalY)), page)]
  {
  }

  lemma RemoveAllSnoc(h0: Surfaces, ids: seq<Id>, id: Id)
    ensures RemoveAll(h0, ids + [id]) == Remove(RemoveAll(h0, ids), id)
  {
    assert (ids + [id])[..|ids|] == ids;
  }

  lemma ShiftedBySnoc(shift: map<Id, real>, ids: seq<Id>, id: Id, v: real)
    ensures ShiftedBy(shift, ids + [id], v) == ShiftedBy(shift, ids, v)[id := v]
  {
    assert (ids + [id])[..|ids|] == ids;
  }

  /** The shifts after every id of `ids` is translated by `v`. */
  function ShiftedBy(shift: map<Id, real>, ids: seq<Id>, v: real): (r: map<Id, real>)
    ensures forall id | id in ids :: id in r && r[id] == v
    ensures forall id | id !in ids :: (id in r <==> id in shift) && (id in r ==> r[id] == shift[id])
    decreases |ids|
  {
    if ids == [] then shift else ShiftedBy(shift, ids[..|ids| - 1], v)[ids[|ids| - 1] := v]
  }

  /** The loop of `mouseMoveListener`: each id of `ids` in turn gets the translation `v`. */
  method Translate(shift0: map<Id, real>, ids: seq<Id>, v: real) returns (r: map<Id, real>)
    ensures r == ShiftedBy(shift0, ids, v)
  {
    r := shift0;
    for idx := 0 to |ids|
      invariant r == ShiftedBy(shift0, ids[..idx], v)
    {
      assert ids[..idx + 1] == ids[..idx] + [ids[idx]];
      ShiftedBySnoc(shift0, ids[..idx], ids[idx], v);
      r := r[ids[idx] := v];
    }
    assert ids[..|ids|] == ids;
  }
}
