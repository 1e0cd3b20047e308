/**
 * The Vida controller: one ticket counter and one table of pending
 * continuations shared by every registered view, one worker per view.
 * Posting a message to a worker is recorded in an append-only log; a
 * continuation is an opaque token that the caller of `Receive` invokes.
 */
module Broker {
  import opened Protocol

  /** One `postMessage` to the worker of view `worker`. */
  datatype Posted = Posted(worker: nat, message: Message)

  type Pending = map<int, Option<Continuation>>

  /** What the `onmessage` handler does with one reply. */
  datatype Resolution =
    | Invoked(view: nat, callback: Continuation, reply: Reply)
    | ErrorLogged
    | Unexpected

  datatype Resolved = Resolved(outcome: Resolution, pending: Pending)

  /** The handler installed by `register` on the worker of view `worker`. */
  function Resolve(pending: Pending, worker: nat, reply: Reply): (r: Resolved)
    ensures r.pending.Keys <= pending.Keys
    ensures reply.Error? ==> r.outcome == ErrorLogged
    ensures reply.Error? ==> r.pending == if reply.ticket != 0 then pending - {reply.ticket} else pending
    ensures r.outcome.Invoked? <==> !reply.Error? && reply.ticket in pending && pending[reply.ticket].Some?
    ensures r.outcome.Invoked? ==>
              r.outcome == Invoked(worker, pending[reply.ticket].value, reply) && r.pending == pending - {reply.ticket}
    ensures r.outcome.Unexpected? ==> !reply.Error? && r.pending == pending
    ensures r.outcome.ErrorLogged? <==> reply.Error?
    ensures !reply.Error? && !(reply.ticket in pending && pending[reply.ticket].Some?) ==> r == Resolved(Unexpected, pending)
  {
    if reply.Error? then
      Resolved(ErrorLogged, if reply.ticket != 0 then pending - {reply.ticket} else pending)
    else if reply.ticket in pending && pending[reply.ticket].Some? then
      Resolved(Invoked(worker, pending[reply.ticket].value, reply), pending - {reply.ticket})
    else
      Resolved(Unexpected, pending)
  }

  /** A reply as it reaches the controller: the worker it came from and its payload. */
  datatype Incoming = Incoming(worker: nat, reply: Reply)

  /** The outcomes of handling `incoming` in order, and the table left at the end. */
  function ResolveAll(pending: Pending, incoming: seq<Incoming>): (r: (seq<Resolution>, Pending))
    ensures |r.0| == |incoming|
    ensures r.1.Keys <= pending.Keys
    decreases |incoming|
  {
    if incoming == [] then ([], pending)
    else
      var first := Resolve(pending, incoming[0].worker, incoming[0].reply);
      var rest := ResolveAll(first.pending, incoming[1..]);
      ([first.outcome] + rest.0, rest.1)
  }

  /** A ticket that is not pending can never reach a continuation. */
  lemma {:induction false} AbsentNeverInvoked(pending: Pending, incoming: seq<Incoming>, j: nat)
    requires j < |incoming| && incoming[j].reply.ticket !in pending
    ensures !ResolveAll(pending, incoming).0[j].Invoked?
    decreases j
  {
    var first := Resolve(pending, incoming[0].worker, incoming[0].reply);
    if j > 0 {
      assert incoming[1..][j - 1] == incoming[j];
      AbsentNeverInvoked(first.pending, incoming[1..], j - 1);
    }
  }

  /**
   * A reply that invoked its continuation, or an error reply naming a non-zero
   * ticket, settles that ticket: no later reply with the same ticket invokes
   * anything. So each continuation fires at most once, and never after an
   * error reply for its ticket.
   */
  lemma {:induction false} SettledTicketStaysSilent(pending: Pending, incoming: seq<Incoming>, i: nat, j: nat)
    requires i < j < |incoming| && incoming[i].reply.ticket == incoming[j].reply.ticket
    requires ResolveAll(pending, incoming).0[i].Invoked? || (incoming[i].reply.Error? && incoming[i].reply.ticket != 0)
    ensures !ResolveAll(pending, incoming).0[j].Invoked?
    decreases i
  {
    var first := Resolve(pending, incoming[0].worker, incoming[0].reply);
    assert incoming[1..][j - 1] == incoming[j];
    if i == 0 {
      AbsentNeverInvoked(first.pending, incoming[1..], j - 1);
    } else {
      assert incoming[1..][i - 1] == incoming[i];
      SettledTicketStaysSilent(first.pending, incoming[1..], i - 1, j - 1);
    }
  }

  /** No earlier message in the log went to the worker of message i. */
  ghost predicate FirstTo(outbox: seq<Posted>, i: nat)
    requires i < |outbox|
  {
    forall j | 0 <= j < i :: outbox[j].worker != outbox[i].worker
  }

  /** The log entries of `requests` posted in order to one worker, the first under ticket `first`. */
  function Batch(worker: nat, requests: seq<Request>, first: nat): (r: seq<Posted>)
    ensures |r| == |requests|
    ensures forall i | 0 <= i < |r| :: r[i] == Posted(worker, Message(requests[i], first + i))
  {
    seq(|requests|, i requires 0 <= i < |requests| => Posted(worker, Message(requests[i], first + i)))
  }

  /** Posting one more request extends the batch by one entry under the next ticket. */
  lemma BatchSnoc(worker: nat, requests: seq<Request>, r: Request, first: nat)
    ensures Batch(worker, requests + [r], first) == Batch(worker, requests, first) + [Posted(worker, Message(r, first + |requests|))]
  {
  }

  /** The table after `n` requests posted from ticket `first` on, each with continuation `callback`. */
  function Awaiting(tickets: Pending, first: nat, n: nat, callback: Option<Continuation>): (r: Pending)
    ensures forall t :: t in r <==> t in tickets || first <= t < first + n
    ensures forall t | first <= t < first + n :: r[t] == callback
    ensures forall t | t in tickets && !(first <= t < first + n) :: r[t] == tickets[t]
    decreases n
  {
    if n == 0 then tickets else Awaiting(tickets, first, n - 1, callback)[first + n - 1 := callback]
  }

  class Controller {
    const workerLocation: string
    const verovioLocation: string
    var ticketID: nat
    var tickets: Pending
    /** `viewWorkers.length`: the handles handed out so far are 0 .. workers - 1. */
    var workers: nat
    var outbox: seq<Posted>
    /** For each worker, the position in `outbox` of its `setVerovio` message. */
    ghost var firstPost: seq<nat>

    /**
     * The ticket of the i-th posted message is i, so ticket ids start at 0,
     * increase strictly and are never reused, whichever view a message is
     * for; every pending ticket was handed out. Each message goes to a
     * registered worker, no earlier than that worker's `setVerovio`.
     */
    ghost predicate Valid()
      reads this
    {
      && ticketID == |outbox|
      && (forall t | t in tickets :: 0 <= t < ticketID)
      && |firstPost| == workers
      && (forall i | 0 <= i < |outbox| ::
            && outbox[i].message.ticket == i
            && outbox[i].worker < workers
            && firstPost[outbox[i].worker] <= i)
      && (forall w | 0 <= w < workers ::
            && firstPost[w] < |outbox|
            && outbox[firstPost[w]].worker == w
            && outbox[firstPost[w]].message.request == SetVerovio(verovioLocation))
    }

    /** Every worker's first message in the log is `setVerovio`. */
    lemma FirstMessageIsSetVerovio(i: nat)
      requires Valid() && i < |outbox| && FirstTo(outbox, i)
      ensures outbox[i].message.request == SetVerovio(verovioLocation)
    {
    }

    /** A controller needs both locations; without them the source leaves the object uninitialised. */
    constructor (workerLocation: string, verovioLocation: string)
      requires workerLocation != "" && verovioLocation != ""
      ensures Valid()
      ensures this.workerLocation == workerLocation && this.verovioLocation == verovioLocation
      ensures ticketID == 0 && tickets == map[] && workers == 0 && outbox == []
    {
      this.workerLocation := workerLocation;
      this.verovioLocation := verovioLocation;
      ticketID := 0;
      tickets := map[];
      workers := 0;
      outbox := [];
      firstPost := [];
    }

    /**
     * Creates the worker of a new view, hands out the next handle and sends
     * `setVerovio` as that worker's first message, with no continuation.
     */
    method Register() returns (index: nat)
      requires Valid()
      modifies this
      ensures Valid()
      ensures index == old(workers) && workers == old(workers) + 1
      ensures ticketID == old(ticketID) + 1
      ensures tickets == old(tickets)[old(ticketID) := None]
      ensures outbox == old(outbox) + [Posted(index, Message(SetVerovio(verovioLocation), old(ticketID)))]
    {
      index := workers;
      workers := workers + 1;
      firstPost := firstPost + [|outbox|];
      // contactWorker('setVerovio', {location}, workerIndex), before any other request to it
      tickets := tickets[ticketID := None];
      outbox := outbox + [Posted(index, Message(SetVerovio(verovioLocation), ticketID))];
      ticketID := ticketID + 1;
    }

    /** Stores `callback` under the current ticket, posts the message and moves the counter on. */
    method ContactWorker(request: Request, viewIndex: nat, callback: Option<Continuation>)
      requires Valid() && viewIndex < workers
      modifies this
      ensures Valid()
      ensures workers == old(workers) && ticketID == old(ticketID) + 1
      ensures tickets == old(tickets)[old(ticketID) := callback]
      ensures outbox == old(outbox) + [Posted(viewIndex, Message(request, old(ticketID)))]
    {
      tickets := tickets[ticketID := callback];
      outbox := outbox + [Posted(viewIndex, Message(request, ticketID))];
      ticketID := ticketID + 1;
    }

    /** The `onmessage` handler of the worker of view `worker`. */
    method Receive(worker: nat, reply: Reply) returns (outcome: Resolution)
      requires Valid()
      modifies this
      ensures Valid()
      ensures Resolved(outcome, tickets) == Resolve(old(tickets), worker, reply)
      ensures ticketID == old(ticketID) && workers == old(workers) && outbox == old(outbox)
    {
      var ticket := reply.ticket;
      if reply.Error? {
        // console.log of the error; `if (ticket)` spares ticket 0
        if ticket != 0 {
          tickets := tickets - {ticket};
        }
        outcome := ErrorLogged;
      } else if ticket in tickets && tickets[ticket].Some? {
        outcome := Invoked(worker, tickets[ticket].value, reply);
        tickets := tickets - {ticket};
      } else {
        outcome := Unexpected;
      }
    }
  }
}
