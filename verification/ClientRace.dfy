// crates/montre-daemon/src/client.rs: requests and the reader thread share a map of pending
// senders and a flag that the reader raises when it ends. Any number of requests, one reader,
// every interleaving of their atomic steps.
module ClientRace {
  import opened Core

  type Id = nat
  type Message = nat

  datatype Outcome = ReaderClosed | SendError | RequestTimeout | Answer(message: Message)

  // Where a request stands in request_inner.
  datatype Pc =
    | Idle
    | Entered       // saw the flag down
    | Numbered      // has an id, holds both channel ends
    | Inserted      // its sender is in the map
    | Rejected      // saw the flag up at the second look
    | Sending
    | SendFailed
    | Waiting       // blocked on its receiver
    | TimedOut
    | Finished(outcome: Outcome)

  datatype Request = Request(pc: Pc, id: Id)

  // The channel of a request: its sender is alive, has sent, or was dropped unused.
  datatype Channel = Live | Sent(message: Message) | Dropped

  // Where the reader stands: reading frames, holding the sender of one response, having
  // raised the flag, having cleared the map.
  datatype Reader = Reading | Holding(id: Id, message: Message) | Flagged | Gone

  datatype Client = Client(
    requests: map<nat, Request>, pending: set<Id>, channels: map<Id, Channel>,
    nextId: Id, closed: bool, reader: Reader, delivered: seq<(Id, Message)>)

  ghost predicate Initial(c: Client) {
    && (forall r :: r in c.requests ==> c.requests[r] == Request(Idle, 0))
    && c == Client(c.requests, {}, map[], 1, false, Reading, [])
  }

  function Moved(c: Client, r: nat, pc: Pc): Client
    requires r in c.requests
  {
    c.(requests := c.requests[r := c.requests[r].(pc := pc)])
  }

  // Taking a sender out of the map and dropping it.
  function Removed(c: Client, id: Id): Client {
    if id in c.pending then c.(pending := c.pending - {id}, channels := c.channels[id := Dropped]) else c
  }

  function Cleared(channels: map<Id, Channel>, pending: set<Id>): map<Id, Channel> {
    map id | id in channels :: if id in pending then Dropped else channels[id]
  }

  // One atomic step of request r.
  ghost predicate RequestStep(c: Client, d: Client, r: nat) {
    r in c.requests &&
    var q := c.requests[r];
    match q.pc
    case Idle => d == Moved(c, r, if c.closed then Finished(ReaderClosed) else Entered)
    case Entered =>
      d == c.(requests := c.requests[r := Request(Numbered, c.nextId)], nextId := c.nextId + 1,
        channels := c.channels[c.nextId := Live])
    case Numbered => d == Moved(c, r, Inserted).(pending := c.pending + {q.id})
    case Inserted => d == Moved(c, r, if c.closed then Rejected else Sending)
    case Rejected => d == Moved(Removed(c, q.id), r, Finished(ReaderClosed))
    case Sending => d == Moved(c, r, Waiting) || d == Moved(c, r, SendFailed)
    case SendFailed => d == Moved(Removed(c, q.id), r, Finished(SendError)) ||
      d == Moved(Removed(c, q.id), r, Finished(ReaderClosed))
    case Waiting =>
      || d == Moved(c, r, TimedOut)
      || (q.id in c.channels && c.channels[q.id].Sent? && d == Moved(c, r, Finished(Answer(c.channels[q.id].message))))
      || (q.id in c.channels && c.channels[q.id].Dropped? && d == Moved(c, r, Finished(ReaderClosed)))
    case TimedOut => d == Moved(Removed(c, q.id), r, Finished(RequestTimeout))
    case Finished(_) => false
  }

  // One atomic step of the reader. A frame may carry any id; one that is not pending is ignored.
  ghost predicate ReaderStep(c: Client, d: Client) {
    match c.reader
    case Reading =>
      || (exists id, m :: id in c.pending && d == c.(pending := c.pending - {id}, reader := Holding(id, m)))
      || d == c.(closed := true, reader := Flagged)
    case Holding(id, m) =>
      || d == c.(channels := c.channels[id := Sent(m)], reader := Reading, delivered := c.delivered + [(id, m)])
      || d == c.(channels := c.channels[id := Dropped], reader := Reading)
    case Flagged => d == c.(pending := {}, channels := Cleared(c.channels, c.pending), reader := Gone)
    case Gone => false
  }

  ghost predicate Step(c: Client, d: Client) {
    d == c || ReaderStep(c, d) || exists r :: RequestStep(c, d, r)
  }

  // ---------------------------------------------------------------------------------
  // The invariant.

  predicate WithoutId(pc: Pc) {
    pc.Idle? || pc.Entered?
  }

  // Who holds the sender of a live channel: the map, the reader, or the request before it inserts.
  predicate Held(c: Client, q: Request) {
    q.pc.Numbered? || q.id in c.pending || (c.reader.Holding? && c.reader.id == q.id)
  }

  // A request that has an id, which is not 0.
  predicate Known(c: Client, q: Request)
    requires q.id != 0
  {
    && !WithoutId(q.pc) && q.id < c.nextId && q.id in c.channels
    && (c.channels[q.id].Live? && !q.pc.Finished? ==> Held(c, q))
    && (c.channels[q.id].Sent? ==> (q.id, c.channels[q.id].message) in c.delivered)
    && (q.pc.Numbered? ==> q.id !in c.pending && c.channels[q.id].Live? && !(c.reader.Holding? && c.reader.id == q.id))
    && (q.pc.Finished? && q.pc.outcome.Answer? ==> (q.id, q.pc.outcome.message) in c.delivered)
    && ((q.pc.Sending? || q.pc.Waiting?) && c.reader.Gone? ==> q.id !in c.pending)
  }

  predicate RequestOk(c: Client, q: Request) {
    if q.id == 0 then WithoutId(q.pc) || q.pc == Finished(ReaderClosed) else Known(c, q)
  }

  ghost predicate RequestsOk(c: Client) {
    && (forall r :: r in c.requests ==> RequestOk(c, c.requests[r]))
    && (forall r, s :: r in c.requests && s in c.requests && r != s && c.requests[r].id == c.requests[s].id ==>
      c.requests[r].id == 0)
  }

  ghost predicate SendersOk(c: Client) {
    && 0 < c.nextId
    && (forall id :: id in c.channels ==> 0 < id < c.nextId)
    && (forall id :: id in c.pending ==> id in c.channels && c.channels[id].Live?)
    && (c.closed <==> c.reader.Flagged? || c.reader.Gone?)
    && (c.reader.Holding? ==> c.reader.id !in c.pending && c.reader.id in c.channels && c.channels[c.reader.id].Live?)
  }

  ghost predicate DeliveriesOk(c: Client) {
    && (forall k :: 0 <= k < |c.delivered| ==>
         c.delivered[k].0 in c.channels && c.channels[c.delivered[k].0] == Sent(c.delivered[k].1))
    && (forall k, l :: 0 <= k < l < |c.delivered| ==> c.delivered[k].0 != c.delivered[l].0)
  }

  ghost predicate Invariant(c: Client) {
    RequestsOk(c) && SendersOk(c) && DeliveriesOk(c)
  }

  lemma InitialHolds(c: Client)
    requires Initial(c)
    ensures Invariant(c)
  {
  }

  lemma ReaderKeeps(c: Client, d: Client)
    requires Invariant(c) && ReaderStep(c, d)
    ensures Invariant(d)
  {
    forall r | r in d.requests
      ensures RequestOk(d, d.requests[r])
    {
      assert RequestOk(c, c.requests[r]);
    }
    if c.reader.Holding? && d.delivered != c.delivered {
      forall k | 0 <= k < |c.delivered|
        ensures c.delivered[k].0 != c.reader.id
      {
      }
    }
  }

  // The other requests see only that the sender of an id that is not theirs was dropped or made.
  lemma OthersKeep(c: Client, d: Client, r: nat)
    requires Invariant(c) && r in c.requests && r in d.requests && d.requests == c.requests[r := d.requests[r]]
    requires c.nextId <= d.nextId && d.reader == c.reader && d.delivered == c.delivered
    requires forall id :: id in c.channels && id != c.requests[r].id ==>
      id in d.channels && d.channels[id] == c.channels[id]
    requires forall id :: id in c.channels && id != c.requests[r].id ==> (id in d.pending <==> id in c.pending)
    requires d.requests[r].id == c.requests[r].id || d.requests[r].id >= c.nextId
    requires RequestOk(d, d.requests[r])
    ensures RequestsOk(d)
  {
    forall s | s in d.requests
      ensures RequestOk(d, d.requests[s])
    {
      if s != r {
        assert RequestOk(c, c.requests[s]);
      }
    }
    forall s, t | s in d.requests && t in d.requests && s != t && d.requests[s].id == d.requests[t].id
      ensures d.requests[s].id == 0
    {
      assert RequestOk(c, c.requests[s]) && RequestOk(c, c.requests[t]);
    }
  }

  // How many steps a request has left at most.
  function Rank(pc: Pc): nat {
    match pc
    case Idle => 7
    case Entered => 6
    case Numbered => 5
    case Inserted => 4
    case Sending => 3
    case Waiting => 2
    case Rejected => 1
    case SendFailed => 1
    case TimedOut => 1
    case Finished(_) => 0
  }

  // A step of one request changes that request, and no channel but its own.
  lemma RequestFrame(c: Client, d: Client, r: nat)
    requires RequestStep(c, d, r)
    ensures r in d.requests && d.requests == c.requests[r := d.requests[r]]
    ensures c.nextId <= d.nextId && d.reader == c.reader && d.delivered == c.delivered && d.closed == c.closed
    ensures d.requests[r].id == c.requests[r].id || d.requests[r].id == c.nextId
    ensures Rank(d.requests[r].pc) < Rank(c.requests[r].pc)
  {
    match c.requests[r].pc
    case Idle =>
    case Entered =>
    case Numbered =>
    case Inserted =>
    case Rejected =>
    case Sending =>
    case SendFailed =>
    case Waiting =>
    case TimedOut =>
    case Finished(_) =>
  }

  lemma RequestChannels(c: Client, d: Client, r: nat)
    requires Invariant(c) && RequestStep(c, d, r)
    ensures forall id :: id in c.channels && id != c.requests[r].id ==>
      id in d.channels && d.channels[id] == c.channels[id]
    ensures forall id :: id in c.channels && id != c.requests[r].id ==> (id in d.pending <==> id in c.pending)
  {
    assert RequestOk(c, c.requests[r]);
    match c.requests[r].pc
    case Idle =>
    case Entered =>
    case Numbered =>
    case Inserted =>
    case Rejected =>
    case Sending =>
    case SendFailed =>
    case Waiting =>
    case TimedOut =>
    case Finished(_) =>
  }

  lemma RequestSenders(c: Client, d: Client, r: nat)
    requires Invariant(c) && RequestStep(c, d, r)
    ensures SendersOk(d)
  {
    assert RequestOk(c, c.requests[r]);
    match c.requests[r].pc
    case Idle =>
    case Entered =>
    case Numbered =>
    case Inserted =>
    case Rejected =>
    case Sending =>
    case SendFailed =>
    case Waiting =>
    case TimedOut =>
    case Finished(_) =>
  }

  lemma RequestDeliveries(c: Client, d: Client, r: nat)
    requires Invariant(c) && RequestStep(c, d, r)
    ensures DeliveriesOk(d)
  {
    assert RequestOk(c, c.requests[r]);
    match c.requests[r].pc
    case Idle =>
    case Entered =>
    case Numbered =>
    case Inserted =>
    case Rejected =>
    case Sending =>
    case SendFailed =>
    case Waiting =>
    case TimedOut =>
    case Finished(_) =>
  }

  lemma RequestItself(c: Client, d: Client, r: nat)
    requires Invariant(c) && RequestStep(c, d, r)
    ensures r in d.requests && RequestOk(d, d.requests[r])
  {
    assert RequestOk(c, c.requests[r]);
    match c.requests[r].pc
    case Idle =>
    case Entered =>
    case Numbered =>
    case Inserted =>
    case Rejected =>
    case Sending =>
    case SendFailed =>
    case Waiting =>
    case TimedOut =>
    case Finished(_) =>
  }

  lemma RequestKeeps(c: Client, d: Client, r: nat)
    requires Invariant(c) && RequestStep(c, d, r)
    ensures Invariant(d)
  {
    RequestFrame(c, d, r);
    RequestChannels(c, d, r);
    RequestSenders(c, d, r);
    RequestDeliveries(c, d, r);
    RequestItself(c, d, r);
    OthersKeep(c, d, r);
  }

  ghost predicate Steps(run: seq<Client>) {
    run != [] && Initial(run[0]) && forall i :: 0 <= i < |run| - 1 ==> Step(run[i], run[i + 1])
  }

  lemma {:induction false} RunKeeps(run: seq<Client>, n: nat)
    requires Steps(run) && n < |run|
    ensures Invariant(run[n])
  {
    if n == 0 {
      InitialHolds(run[0]);
    } else {
      RunKeeps(run, n - 1);
      var c, d := run[n - 1], run[n];
      if r :| RequestStep(c, d, r) {
        RequestKeeps(c, d, r);
      } else if ReaderStep(c, d) {
        ReaderKeeps(c, d);
      }
    }
  }

  // ---------------------------------------------------------------------------------
  // What the protocol promises.

  // Once the reader has raised the flag and cleared the map, no request waits on a sender
  // that is still alive: whatever it waits for was sent, or its channel is closed.
  lemma NoLostRequest(run: seq<Client>, n: nat, r: nat)
    requires Steps(run) && n < |run| && run[n].reader.Gone?
    requires r in run[n].requests && run[n].requests[r].pc.Waiting?
    ensures run[n].requests[r].id in run[n].channels && !run[n].channels[run[n].requests[r].id].Live?
  {
    RunKeeps(run, n);
    assert RequestOk(run[n], run[n].requests[r]);
  }

  // An answer is a response with the request's own id, and no id is answered twice.
  lemma AnswersMatch(run: seq<Client>, n: nat, r: nat, m: Message)
    requires Steps(run) && n < |run|
    requires r in run[n].requests && run[n].requests[r].pc == Finished(Answer(m))
    ensures (run[n].requests[r].id, m) in run[n].delivered
    ensures forall k, l :: 0 <= k < l < |run[n].delivered| ==> run[n].delivered[k].0 != run[n].delivered[l].0
    ensures forall s, x :: s in run[n].requests && s != r && run[n].requests[s].pc == Finished(Answer(x)) ==>
      run[n].requests[s].id != run[n].requests[r].id
  {
    RunKeeps(run, n);
    assert RequestOk(run[n], run[n].requests[r]);
  }

  // Every step of a request brings it nearer to its end, and no other step moves it.
  lemma StepsLower(c: Client, d: Client, r: nat)
    requires r in c.requests && Step(c, d)
    ensures r in d.requests && (d.requests[r].pc == c.requests[r].pc || Rank(d.requests[r].pc) < Rank(c.requests[r].pc))
    ensures RequestStep(c, d, r) ==> Rank(d.requests[r].pc) < Rank(c.requests[r].pc)
  {
    if RequestStep(c, d, r) {
      RequestFrame(c, d, r);
    } else if s :| RequestStep(c, d, s) {
      RequestFrame(c, d, s);
    }
  }

  // After the reader is gone no request is stuck: each one that has not finished can take a step.
  lemma NeverStuck(run: seq<Client>, n: nat, r: nat)
    requires Steps(run) && n < |run| && run[n].reader.Gone?
    requires r in run[n].requests && !run[n].requests[r].pc.Finished?
    ensures exists d :: RequestStep(run[n], d, r)
  {
    var c := run[n];
    var q := c.requests[r];
    RunKeeps(run, n);
    assert RequestOk(c, q);
    match q.pc
    case Idle => assert RequestStep(c, Moved(c, r, if c.closed then Finished(ReaderClosed) else Entered), r);
    case Entered =>
      assert RequestStep(c, c.(requests := c.requests[r := Request(Numbered, c.nextId)], nextId := c.nextId + 1,
                               channels := c.channels[c.nextId := Live]), r);
    case Numbered => assert RequestStep(c, Moved(c, r, Inserted).(pending := c.pending + {q.id}), r);
    case Inserted => assert RequestStep(c, Moved(c, r, if c.closed then Rejected else Sending), r);
    case Rejected => assert RequestStep(c, Moved(Removed(c, q.id), r, Finished(ReaderClosed)), r);
    case Sending => assert RequestStep(c, Moved(c, r, Waiting), r);
    case SendFailed => assert RequestStep(c, Moved(Removed(c, q.id), r, Finished(SendError)), r);
    case Waiting =>
      var outcome := if c.channels[q.id].Sent? then Answer(c.channels[q.id].message) else ReaderClosed;
      assert RequestStep(c, Moved(c, r, Finished(outcome)), r);
    case TimedOut => assert RequestStep(c, Moved(Removed(c, q.id), r, Finished(RequestTimeout)), r);
  }

  // ---------------------------------------------------------------------------------
  // The protocol without the second look at the flag.

  ghost predicate UncheckedRequest(c: Client, d: Client, r: nat) {
    if r in c.requests && c.requests[r].pc.Inserted? then d == Moved(c, r, Sending) else RequestStep(c, d, r)
  }

  ghost predicate Unchecked(c: Client, d: Client) {
    d == c || ReaderStep(c, d) || exists r :: UncheckedRequest(c, d, r)
  }

  ghost predicate UncheckedFrom(c: Client, run: seq<Client>) {
    run != [] && run[0] == c && forall i :: 0 <= i < |run| - 1 ==> Unchecked(run[i], run[i + 1])
  }

  // One request, which has got as far as pc.
  function Alone(pc: Pc, pending: set<Id>, closed: bool, reader: Reader): Client {
    Client(map[0 := Request(pc, 1)], pending, map[1 := Live], 2, closed, reader, [])
  }

  function Start(): Client {
    Client(map[0 := Request(Idle, 0)], {}, map[], 1, false, Reading, [])
  }

  // The request has its id, the reader ends and clears the map, the request inserts and waits.
  function LateRun(): seq<Client> {
    [Start(),
     Start().(requests := map[0 := Request(Entered, 0)]),
     Alone(Numbered, {}, false, Reading),
     Alone(Numbered, {}, true, Flagged),
     Alone(Numbered, {}, true, Gone),
     Alone(Inserted, {1}, true, Gone),
     Alone(Sending, {1}, true, Gone),
     Alone(Waiting, {1}, true, Gone)]
  }

  lemma OnlyRequest(pc: Pc, next: Pc, pending: set<Id>, closed: bool, reader: Reader)
    ensures Moved(Alone(pc, pending, closed, reader), 0, next) == Alone(next, pending, closed, reader)
  {
    assert map[0 := Request(pc, 1)][0 := Request(next, 1)] == map[0 := Request(next, 1)];
  }

  lemma FirstSteps()
    ensures Unchecked(LateRun()[0], LateRun()[1]) && Unchecked(LateRun()[1], LateRun()[2])
  {
    var run := LateRun();
    assert map[0 := Request(Idle, 0)][0 := Request(Entered, 0)] == map[0 := Request(Entered, 0)];
    assert UncheckedRequest(run[0], run[1], 0);
    assert map[0 := Request(Entered, 0)][0 := Request(Numbered, 1)] == map[0 := Request(Numbered, 1)];
    assert map[][1 := Live] == map[1 := Live];
    assert UncheckedRequest(run[1], run[2], 0);
  }

  lemma ReaderEnds()
    ensures Unchecked(LateRun()[2], LateRun()[3]) && Unchecked(LateRun()[3], LateRun()[4])
  {
    assert ReaderStep(LateRun()[2], LateRun()[3]);
    assert Cleared(map[1 := Live], {}) == map[1 := Live];
    assert ReaderStep(LateRun()[3], LateRun()[4]);
  }

  lemma LastSteps()
    ensures Unchecked(LateRun()[4], LateRun()[5]) && Unchecked(LateRun()[5], LateRun()[6]) &&
      Unchecked(LateRun()[6], LateRun()[7])
  {
    var run := LateRun();
    OnlyRequest(Numbered, Inserted, {}, true, Gone);
    assert {} + {1} == {1};
    assert UncheckedRequest(run[4], run[5], 0);
    OnlyRequest(Inserted, Sending, {1}, true, Gone);
    assert UncheckedRequest(run[5], run[6], 0);
    OnlyRequest(Sending, Waiting, {1}, true, Gone);
    assert UncheckedRequest(run[6], run[7], 0);
  }

  lemma NotWithSecondLook(run: seq<Client>, n: nat)
    requires Steps(run) && n < |run|
    ensures run[n] != Alone(Waiting, {1}, true, Gone)
  {
    if run[n] == Alone(Waiting, {1}, true, Gone) {
      NoLostRequest(run, n, 0);
    }
  }

  lemma LateRunIsRun()
    ensures Initial(Start()) && UncheckedFrom(Start(), LateRun())
  {
    FirstSteps();
    ReaderEnds();
    LastSteps();
  }

  // Without the second look a run from the start comes to a request that waits, after the reader
  // is gone, on a sender that is still alive; with it no run does.
  lemma SecondLookNeeded()
    ensures Initial(Start()) && UncheckedFrom(Start(), LateRun())
    ensures var c := LateRun()[|LateRun()| - 1];
      c == Alone(Waiting, {1}, true, Gone) && c.requests[0].pc.Waiting? && c.channels[c.requests[0].id].Live?
    ensures forall run, n: nat :: Steps(run) && n < |run| ==> run[n] != Alone(Waiting, {1}, true, Gone)
  {
    LateRunIsRun();
    forall run, n: nat | Steps(run) && n < |run|
      ensures run[n] != Alone(Waiting, {1}, true, Gone)
    {
      NotWithSecondLook(run, n);
    }
  }

  predicate GivenUp(pc: Pc) {
    pc.TimedOut? || pc == Finished(RequestTimeout)
  }

  // From there the request waits for ever, or until its own timeout: no other step ends it.
  lemma {:induction false} WaitsForEver(run: seq<Client>, n: nat)
    requires UncheckedFrom(Alone(Waiting, {1}, true, Gone), run) && n < |run|
    ensures run[n] == Alone(Waiting, {1}, true, Gone) || (0 in run[n].requests && GivenUp(run[n].requests[0].pc))
    ensures run[n].requests.Keys == {0} && run[n].reader.Gone?
  {
    if n > 0 {
      WaitsForEver(run, n - 1);
      var c, d := run[n - 1], run[n];
      assert Unchecked(c, d);
      if r :| UncheckedRequest(c, d, r) {
        assert r == 0;
      }
    }
  }
}
