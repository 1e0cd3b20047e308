/**
 * The Verovio worker: the `message` handler of `verovioWorker.js`. It holds
 * one toolkit instance, refuses every message until `setVerovio` has built
 * that instance, and answers each message with zero, one or two replies
 * under the message's own ticket.
 *
 * Verovio itself is not part of this model. The toolkit is represented by
 * the calls the worker has made on it; an `Engine` says what the library
 * answers given those calls.
 */
module VerovioWorker {
  import opened Protocol
  import opened Broker

  /** A call that changes what the toolkit holds. */
  datatype ToolkitCall =
    | Load(mei: string)
    | Options(options: Settings)
    | Apply(action: DragAction)

  /** `vrvToolkit`: built from the script at `location`, then told `calls` in order. */
  datatype Toolkit = Toolkit(location: string, calls: seq<ToolkitCall>)

  /**
   * The library's answers. `render` receives the 1-based page number the
   * worker asks for and is `None` when `renderPage` throws; `getPageCount`
   * and `getMEI` do not throw.
   */
  datatype Engine = Engine(
    pageCount: Toolkit -> nat,
    render: (Toolkit, Option<nat>) -> Option<string>,
    mei: Toolkit -> string)

  /** The worker's globals: the `vrvSet` flag and the toolkit instance. */
  datatype State = State(vrvSet: bool, toolkit: Option<Toolkit>)

  /** Once `vrvSet` is true there is a toolkit. */
  predicate WellFormed(s: State)
  {
    s.vrvSet ==> s.toolkit.Some?
  }

  /** The worker before its first message. */
  const Initial := State(false, None)

  function Told(tk: Toolkit, call: ToolkitCall): Toolkit
  {
    Toolkit(tk.location, tk.calls + [call])
  }

  /** `params.pageIndex + 1`; an undefined index stays undefined. */
  function OneBased(pageIndex: Option<nat>): (r: Option<nat>)
    ensures r.Some? <==> pageIndex.Some?
    ensures r.Some? ==> r.value == pageIndex.value + 1
  {
    match pageIndex
    case None => None
    case Some(p) => Some(p + 1)
  }

  /**
   * The replies of the `renderPage` and `edit` branches: when the render
   * throws, an error first; then, in every case, `returnPage` with the
   * 0-based index it was given and whatever was rendered.
   */
  function Rendered(engine: Engine, tk: Toolkit, ticket: int, pageIndex: Option<nat>, createOverlay: bool): (r: seq<Reply>)
    ensures 1 <= |r| <= 2
    ensures r[|r| - 1] == ReturnPage(ticket, pageIndex, engine.render(tk, OneBased(pageIndex)), createOverlay, engine.mei(tk))
    ensures |r| == 2 <==> engine.render(tk, OneBased(pageIndex)).None?
    ensures |r| == 2 ==> r[0] == Error(ticket, RenderFailed(pageIndex))
  {
    var svg := engine.render(tk, OneBased(pageIndex));
    var page := ReturnPage(ticket, pageIndex, svg, createOverlay, engine.mei(tk));
    if svg.None? then [Error(ticket, RenderFailed(pageIndex)), page] else [page]
  }

  /** The handler on one message: the worker's new globals and the replies it posts. */
  function Dispatch(engine: Engine, s: State, msg: Message): (r: (State, seq<Reply>))
    requires WellFormed(s)
    ensures WellFormed(r.0)
    ensures r.0.vrvSet == (s.vrvSet || msg.request.SetVerovio?)
    ensures |r.1| <= 2
    ensures forall i | 0 <= i < |r.1| :: r.1[i].ticket == msg.ticket
    ensures !s.vrvSet && !msg.request.SetVerovio? ==> r == (s, [Error(msg.ticket, NotReady)])
    ensures r.1 == [] <==> msg.request.SetVerovio? || (s.vrvSet && msg.request.SetOptions?)
    ensures msg.request.SetVerovio? ==> r == (State(true, Some(Toolkit(msg.request.location, []))), [])
    ensures s.vrvSet && msg.request.LoadData? ==>
              var tk := Told(s.toolkit.value, Load(msg.request.mei));
              r == (State(true, Some(tk)), [DataLoaded(msg.ticket, engine.pageCount(tk))])
    ensures s.vrvSet && msg.request.SetOptions? ==>
              r == (State(true, Some(Told(s.toolkit.value, Options(msg.request.options)))), [])
    ensures s.vrvSet && msg.request.RenderPage? ==>
              r == (s, Rendered(engine, s.toolkit.value, msg.ticket, msg.request.pageIndex, true))
    ensures s.vrvSet && msg.request.Edit? ==>
              var tk := Told(s.toolkit.value, Apply(msg.request.action));
              r == (State(true, Some(tk)), Rendered(engine, tk, msg.ticket, msg.request.pageIndex, false))
    ensures s.vrvSet && msg.request.GetMei? ==> r == (s, [Mei(msg.ticket, engine.mei(s.toolkit.value))])
    ensures s.vrvSet && msg.request.Unrecognised? ==> r == (s, [Error(msg.ticket, NotRecognised(msg.request.kind))])
  {
    var ticket := msg.ticket;
    if !s.vrvSet && !msg.request.SetVerovio? then (s, [Error(ticket, NotReady)])
    else match msg.request
      case SetVerovio(location) => (State(true, Some(Toolkit(location, []))), [])
      case LoadData(mei) =>
        var tk := Told(s.toolkit.value, Load(mei));
        (State(true, Some(tk)), [DataLoaded(ticket, engine.pageCount(tk))])
      case SetOptions(options) => (State(true, Some(Told(s.toolkit.value, Options(options)))), [])
      case RenderPage(p) => (s, Rendered(engine, s.toolkit.value, ticket, p, true))
      case Edit(action, p) =>
        var tk := Told(s.toolkit.value, Apply(action));
        (State(true, Some(tk)), Rendered(engine, tk, ticket, p, false))
      case GetMei => (s, [Mei(ticket, engine.mei(s.toolkit.value))])
      case Unrecognised(kind) => (s, [Error(ticket, NotRecognised(kind))])
  }

  /** The handler on a stream of messages, in order: the final globals and every reply posted. */
  function Run(engine: Engine, s: State, msgs: seq<Message>): (r: (State, seq<Reply>))
    requires WellFormed(s)
    ensures WellFormed(r.0)
    ensures s.vrvSet ==> r.0.vrvSet
    decreases |msgs|
  {
    if msgs == [] then (s, [])
    else
      var first := Dispatch(engine, s, msgs[0]);
      var rest := Run(engine, first.0, msgs[1..]);
      (rest.0, first.1 + rest.1)
  }

  /** The refusal sent for a message that arrives before `setVerovio`. */
  predicate Refusal(r: Reply)
  {
    r.Error? && r.failure.NotReady?
  }

  /** Every reply the worker posts carries the ticket of one of the messages it was sent. */
  lemma {:induction false} RepliesAnswerMessages(engine: Engine, s: State, msgs: seq<Message>)
    requires WellFormed(s)
    ensures forall r | r in Run(engine, s, msgs).1 :: exists m | m in msgs :: m.ticket == r.ticket
    decreases |msgs|
  {
    if msgs != [] {
      var first := Dispatch(engine, s, msgs[0]);
      RepliesAnswerMessages(engine, first.0, msgs[1..]);
      forall r | r in Run(engine, s, msgs).1 ensures exists m | m in msgs :: m.ticket == r.ticket {
        if r in first.1 {
          var i :| 0 <= i < |first.1| && first.1[i] == r;
          assert msgs[0] in msgs;
        } else {
          var m :| m in msgs[1..] && m.ticket == r.ticket;
          assert m in msgs;
        }
      }
    }
  }

  /** Once the toolkit is set, or when the stream opens with `setVerovio`, no message is refused. */
  lemma {:induction false} ReadyNeverRefuses(engine: Engine, s: State, msgs: seq<Message>)
    requires WellFormed(s)
    requires s.vrvSet || (msgs != [] && msgs[0].request.SetVerovio?)
    ensures forall r | r in Run(engine, s, msgs).1 :: !Refusal(r)
    decreases |msgs|
  {
    if msgs != [] {
      var first := Dispatch(engine, s, msgs[0]);
      assert first.0.vrvSet;
      assert forall r | r in first.1 :: !Refusal(r);
      ReadyNeverRefuses(engine, first.0, msgs[1..]);
    }
  }

  /** Before `setVerovio`, every message is refused once and leaves the worker as it was. */
  lemma {:induction false} UnsetRefusesAll(engine: Engine, msgs: seq<Message>)
    requires forall m | m in msgs :: !m.request.SetVerovio?
    ensures Run(engine, Initial, msgs).0 == Initial
    ensures |Run(engine, Initial, msgs).1| == |msgs|
    ensures forall i | 0 <= i < |msgs| :: Run(engine, Initial, msgs).1[i] == Error(msgs[i].ticket, NotReady)
    decreases |msgs|
  {
    if msgs != [] {
      assert msgs[0] in msgs;
      assert forall m | m in msgs[1..] :: m in msgs;
      UnsetRefusesAll(engine, msgs[1..]);
    }
  }

  /** The messages of the log that went to worker `w`, in order. */
  function MessagesTo(outbox: seq<Posted>, w: nat): (r: seq<Message>)
    ensures |r| <= |outbox|
    decreases |outbox|
  {
    if outbox == [] then []
    else (if outbox[0].worker == w then [outbox[0].message] else []) + MessagesTo(outbox[1..], w)
  }

  /** The first entry of the log that went to `w` opens what `w` receives. */
  lemma {:induction false} FirstMessageTo(outbox: seq<Posted>, w: nat, k: nat)
    requires k < |outbox| && outbox[k].worker == w
    requires forall j | 0 <= j < k :: outbox[j].worker != w
    ensures MessagesTo(outbox, w) != [] && MessagesTo(outbox, w)[0] == outbox[k].message
    decreases k
  {
    if k > 0 {
      assert outbox[0].worker != w;
      FirstMessageTo(outbox[1..], w, k - 1);
    }
  }

  /**
   * The controller sends `setVerovio` to each worker before anything else,
   * so a worker fed the controller's traffic never answers with the
   * "setVerovio must be called" refusal.
   */
  lemma ControllerTrafficNeverRefused(engine: Engine, c: Controller, w: nat)
    requires c.Valid() && w < c.workers
    ensures MessagesTo(c.outbox, w) != [] && MessagesTo(c.outbox, w)[0].request.SetVerovio?
    ensures forall r | r in Run(engine, Initial, MessagesTo(c.outbox, w)).1 :: !Refusal(r)
  {
    var k := c.firstPost[w];
    forall j | 0 <= j < k ensures c.outbox[j].worker != w {
      assert c.firstPost[c.outbox[j].worker] <= j;
    }
    FirstMessageTo(c.outbox, w, k);
    ReadyNeverRefuses(engine, Initial, MessagesTo(c.outbox, w));
  }

  /** Replies as they reach the controller from worker `w`. */
  function FromWorker(w: nat, replies: seq<Reply>): (r: seq<Incoming>)
    ensures |r| == |replies|
    ensures forall i | 0 <= i < |r| :: r[i] == Incoming(w, replies[i])
  {
    seq(|replies|, i requires 0 <= i < |replies| => Incoming(w, replies[i]))
  }

  /**
   * What the controller makes of the answer to a render or an edit. A page
   * that rendered reaches the pending continuation exactly once. A render
   * that threw settles the ticket with the error reply, so the `returnPage`
   * after it reaches no continuation.
   */
  lemma RenderAnswerResolution(engine: Engine, s: State, msg: Message, pending: Pending, w: nat)
    requires WellFormed(s) && s.vrvSet && msg.ticket != 0
    requires msg.request.RenderPage? || msg.request.Edit?
    ensures var replies := Dispatch(engine, s, msg).1;
            var out := ResolveAll(pending, FromWorker(w, replies));
            && (|replies| == 2 ==> (forall i | 0 <= i < |out.0| :: !out.0[i].Invoked?) && msg.ticket !in out.1)
            && (|replies| == 1 && msg.ticket in pending && pending[msg.ticket].Some? ==>
                  out.0 == [Invoked(w, pending[msg.ticket].value, replies[0])] && msg.ticket !in out.1)
  {
    var replies := Dispatch(engine, s, msg).1;
    var incoming := FromWorker(w, replies);
    if |replies| == 2 {
      var first := Resolve(pending, w, replies[0]);
      assert msg.ticket !in first.pending;
      var tail := incoming[1..];
      assert tail == [Incoming(w, replies[1])];
      assert tail[1..] == [];
      assert ResolveAll(first.pending, tail).0 == [Resolve(first.pending, w, replies[1]).outcome];
    } else if |replies| == 1 {
      assert incoming[1..] == [];
    }
  }

  /** `verovioWorker.js` as a running worker: its globals and every `postMessage` it made. */
  class Worker {
    const engine: Engine
    var vrvSet: bool
    var toolkit: Option<Toolkit>
    var replies: seq<Reply>

    function Current(): State
      reads this
    {
      State(vrvSet, toolkit)
    }

    ghost predicate Valid()
      reads this
    {
      WellFormed(Current())
    }

    constructor (engine: Engine)
      ensures Valid() && this.engine == engine
      ensures Current() == Initial && replies == []
    {
      this.engine := engine;
      vrvSet := false;
      toolkit := None;
      replies := [];
    }

    /** `contactCaller`. */
    method ContactCaller(reply: Reply)
      modifies this
      ensures replies == old(replies) + [reply]
      ensures Current() == old(Current())
    {
      replies := replies + [reply];
    }

    /** The `message` listener. */
    method OnMessage(msg: Message)
      requires Valid()
      modifies this
      ensures Valid()
      ensures Current() == Dispatch(engine, old(Current()), msg).0
      ensures replies == old(replies) + Dispatch(engine, old(Current()), msg).1
    {
      var ticket := msg.ticket;
      if !vrvSet && !msg.request.SetVerovio? {
        ContactCaller(Error(ticket, NotReady));
        return;
      }
      match msg.request {
        case SetVerovio(location) =>
          toolkit := Some(Toolkit(location, []));
          vrvSet := true;
        case LoadData(mei) =>
          toolkit := Some(Told(toolkit.value, Load(mei)));
          ContactCaller(DataLoaded(ticket, engine.pageCount(toolkit.value)));
        case SetOptions(options) =>
          toolkit := Some(Told(toolkit.value, Options(options)));
        case RenderPage(p) =>
          RenderAndReturn(ticket, p, true);
        case Edit(action, p) =>
          toolkit := Some(Told(toolkit.value, Apply(action)));
          RenderAndReturn(ticket, p, false);
        case GetMei =>
          ContactCaller(Mei(ticket, engine.mei(toolkit.value)));
        case Unrecognised(kind) =>
          ContactCaller(Error(ticket, NotRecognised(kind)));
      }
    }

    /** The `try { renderPage } catch` block and the `returnPage` reply after it. */
    method RenderAndReturn(ticket: int, pageIndex: Option<nat>, createOverlay: bool)
      requires toolkit.Some?
      modifies this
      ensures Current() == old(Current())
      ensures replies == old(replies) + Rendered(engine, toolkit.value, ticket, pageIndex, createOverlay)
    {
      var rendered := engine.render(toolkit.value, OneBased(pageIndex));
      if rendered.None? {
        ContactCaller(Error(ticket, RenderFailed(pageIndex)));
      }
      ContactCaller(ReturnPage(ticket, pageIndex, rendered, createOverlay, engine.mei(toolkit.value)));
    }
  }
}
