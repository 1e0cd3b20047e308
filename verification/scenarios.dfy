/**
 * Whole interactions: a press-and-release on one note, a drag of one note,
 * and the worker fed the traffic of a view that loads a document.
 */
module Scenarios {
  import opened Protocol
  import opened Broker
  import opened Highlights
  import opened Dragging
  import opened Vida
  import opened VerovioWorker

  /**
   * Press on "note12" and release without moving, on a fresh controller and
   * view: no request beyond the registration, and the note stays the one
   * highlight.
   */
  method ClickScenario() returns (log: seq<Posted>, cache: seq<Id>)
    ensures log == [Posted(0, Message(SetVerovio("verovio.js"), 0))]
    ensures cache == ["note12"]
  {
    var c := new Controller("verovioWorker.js", "verovio.js");
    var v := new View(c, "", 800, 600);
    v.MouseDown("note12", "system1", 10, 40, 300, 1, 1);
    PressHighlightsOnly(Surfaces([], map[], map[]), "note12");
    v.MouseUp(300);
    log := c.outbox;
    cache := v.highlights.cache;
  }

  /**
   * A drag of one note: whatever was highlighted before the press, the
   * commit after a move posts exactly one `edit` of the pressed note, to the
   * committed y on the clicked page, then one `renderPage` of that page, and
   * leaves nothing highlighted.
   */
  lemma DragOfOneNote(h: Surfaces, id: Id, info: DragInfo, finalY: int, page: Option<nat>)
    requires Consistent(h)
    ensures var pressed := Activate(Reset(h), id);
            && CommitRequests(pressed.cache, info, finalY, page)
               == [Edit(Drag(id, info.x, CommittedY(info, finalY)), page), Request.RenderPage(page)]
            && Odds(pressed.cache) == []
  {
    PressHighlightsOnly(h, id);
    WalkOfOne([id]);
  }

  /** Pressing at y = 40 and releasing 15 pixels lower, at one SVG unit per pixel, commits y = 55. */
  lemma FifteenPixelsDown()
    ensures CommittedY(DragInfo(10, 40, 300, 1.0), 315) == 55
  {
  }

  /**
   * The first three messages of a view made with a document: `setVerovio`
   * and `setOptions` are silent, and `loadData` is answered with the page
   * count of a toolkit that was given the options and then the document.
   */
  lemma LoadAnswered(engine: Engine, location: string, settings: Settings, mei: string, t0: int, t1: int, t2: int)
    ensures Run(engine, Initial, [Message(SetVerovio(location), t0), Message(SetOptions(settings), t1), Message(LoadData(mei), t2)]).1
            == [DataLoaded(t2, engine.pageCount(Toolkit(location, [Options(settings), Load(mei)])))]
  {
    var msgs := [Message(SetVerovio(location), t0), Message(SetOptions(settings), t1), Message(LoadData(mei), t2)];
    var loaded := Toolkit(location, [Options(settings), Load(mei)]);
    var s1 := State(true, Some(Toolkit(location, [])));
    var s2 := State(true, Some(Toolkit(location, [Options(settings)])));
    assert Dispatch(engine, Initial, msgs[0]) == (s1, []);
    assert [] + [Options(settings)] == [Options(settings)];
    assert Dispatch(engine, s1, msgs[1]) == (s2, []);
    assert [Options(settings)] + [Load(mei)] == [Options(settings), Load(mei)];
    assert Dispatch(engine, s2, msgs[2]) == (State(true, Some(loaded)), [DataLoaded(t2, engine.pageCount(loaded))]);
    assert msgs[1..] == [msgs[1], msgs[2]] && msgs[1..][1..] == [msgs[2]] && msgs[1..][1..][1..] == [];
    assert Run(engine, s2, [msgs[2]]).1 == [DataLoaded(t2, engine.pageCount(loaded))];
  }
}
