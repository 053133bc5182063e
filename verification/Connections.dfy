// crates/montre-daemon/src/dispatch.rs and handlers/session.rs: connections register and
// unregister through one queue that the state thread empties in order. Any number of
// connections, every interleaving.
module Connections {
  import opened Core
  import opened Couplers
  import opened Sessions

  type ConnId = nat

  // Where the reader of a connection stands: between frames, blocked on the state thread,
  // or with a reply that it has not looked at yet.
  datatype Phase =
    | Reading
    | Joining | Joined(reply: Option<ProcessId>)
    | Leaving | Left
    | Closing | Closed
    | Ended

  // One connection; `ids` are all the process ids it was ever given.
  datatype Conn = Conn(processId: Option<ProcessId>, everRegistered: bool, phase: Phase, ids: seq<ProcessId>)

  datatype Queued =
    | Join(conn: ConnId, params: RegisterParams)
    | Leave(conn: ConnId, p: ProcessId, now: nat)
    | Other(conn: ConnId, p: ProcessId, command: Command)

  datatype System = System(conns: map<ConnId, Conn>, queue: seq<Queued>, session: Session)

  function With(s: System, k: ConnId, c: Conn): System {
    s.(conns := s.conns[k := c])
  }

  predicate ChangesRoster(c: Command) {
    c.DoRegister? || c.DoUnregister?
  }

  // Labels, interests and subscriptions are sent in the name of the connection's process.
  predicate InNameOf(c: Command, p: ProcessId) {
    (c.DoLabel? || c.DoPublish? || c.DoSubscribe? || c.DoUnsubscribe?) ==> c.p == p
  }

  // A new connection is accepted.
  ghost predicate Accept(s: System, t: System, k: ConnId) {
    k !in s.conns && t == With(s, k, Conn(None, false, Reading, []))
  }

  // One step of connection k.
  ghost predicate ConnStep(s: System, t: System, k: ConnId) {
    k in s.conns &&
    var c := s.conns[k];
    match c.phase
    case Reading =>
      // session.register, accepted once per connection
      || (!c.everRegistered && exists params ::
        t == With(s, k, c.(phase := Joining)).(queue := s.queue + [Join(k, params)]))
      // session.unregister
      || (c.processId.Some? && exists now ::
        t == With(s, k, c.(phase := Leaving)).(queue := s.queue + [Leave(k, c.processId.value, now)]))
      // any other request or notification
      || (c.processId.Some? && exists command ::
           !ChangesRoster(command) && InNameOf(command, c.processId.value)
           && t == s.(queue := s.queue + [Other(k, c.processId.value, command)]))
      // the stream ends
      || (c.processId.Some? && exists now ::
        t == With(s, k, c.(phase := Closing)).(queue := s.queue + [Leave(k, c.processId.value, now)]))
      || (c.processId.None? && t == With(s, k, c.(phase := Ended)))
    case Joined(reply) =>
      t == With(s, k, if reply.Some? then Conn(reply, true, Reading, c.ids + [reply.value]) else c.(phase := Reading))
    case Left => t == With(s, k, c.(processId := None, phase := Reading))
    case Closed => t == With(s, k, c.(phase := Ended))
    case _ => false
  }

  // The state thread takes the first command.
  ghost predicate StateStep(s: System, t: System) {
    s.queue != [] &&
    var rest := s.(queue := s.queue[1..]);
    match s.queue[0]
    case Join(k, params) =>
      k in s.conns &&
      t == With(rest, k,
        s.conns[k].(phase := Joined(if params.version == PROTOCOL_VERSION then Some(s.session.nextProcess) else None)))
             .(session := After(s.session, DoRegister(params)))
    case Leave(k, p, now) =>
      k in s.conns &&
      t == With(rest, k, s.conns[k].(phase := if s.conns[k].phase.Closing? then Closed else Left))
             .(session := After(s.session, DoUnregister(p, now)))
    case Other(_, _, command) => t == rest.(session := After(s.session, command))
  }

  ghost predicate Step(s: System, t: System) {
    t == s || StateStep(s, t) || (exists k :: Accept(s, t, k)) || (exists k :: ConnStep(s, t, k))
  }

  // ---------------------------------------------------------------------------------
  // The invariant.

  // The id that a connection stands for on the roster.
  function OnRoster(c: Conn): Option<ProcessId> {
    match c.phase
    case Reading => c.processId
    case Leaving => c.processId
    case Closing => c.processId
    case Joined(reply) => reply
    case _ => None
  }

  predicate ConnOk(c: Conn, next: ProcessId) {
    && (c.everRegistered <==> c.ids != [])
    && |c.ids| <= 1
    && (c.processId.Some? ==> c.ids == [c.processId.value])
    && ((c.phase.Joining? || c.phase.Joined?) ==> c.ids == [] && c.processId.None?)
    && ((c.phase.Leaving? || c.phase.Closing?) ==> c.processId.Some?)
    && (forall i :: 0 <= i < |c.ids| ==> 0 < c.ids[i] < next)
    && (c.phase.Joined? && c.phase.reply.Some? ==> 0 < c.phase.reply.value < next)
  }

  ghost predicate ConnsOk(s: System) {
    forall k :: k in s.conns ==> ConnOk(s.conns[k], s.session.nextProcess)
  }

  // A queued registration or departure belongs to a connection that is blocked on it; any other
  // command to one that is on the roster.
  ghost predicate QueuedOk(s: System, q: Queued) {
    match q
    case Join(k, _) => k in s.conns && s.conns[k].phase.Joining?
    case Leave(k, p, _) => k in s.conns && (s.conns[k].phase.Leaving? || s.conns[k].phase.Closing?) &&
      s.conns[k].processId == Some(p)
    case Other(k, p, command) =>
      k in s.conns && OnRoster(s.conns[k]) == Some(p) && !ChangesRoster(command) && InNameOf(command, p)
  }

  predicate Blocked(c: Conn) {
    c.phase.Joining? || c.phase.Leaving? || c.phase.Closing?
  }

  predicate From(q: Queued, k: ConnId) {
    !q.Other? && q.conn == k
  }

  ghost predicate QueueOk(s: System) {
    && (forall i :: 0 <= i < |s.queue| ==> QueuedOk(s, s.queue[i]))
    && (forall i, j :: 0 <= i < j < |s.queue| && !s.queue[i].Other? ==> s.queue[j].conn != s.queue[i].conn)
    && (forall k :: k in s.conns && Blocked(s.conns[k]) ==> InFlight(s, k))
  }

  ghost predicate InFlight(s: System, k: ConnId) {
    exists i :: 0 <= i < |s.queue| && From(s.queue[i], k)
  }

  ghost predicate HasHolder(conns: map<ConnId, Conn>, p: ProcessId) {
    exists k :: k in conns && OnRoster(conns[k]) == Some(p)
  }

  // These are exactly the ids that connections stand for, each for one connection.
  ghost predicate Agree(conns: map<ConnId, Conn>, ids: set<ProcessId>, next: ProcessId) {
    && (forall k :: k in conns && OnRoster(conns[k]).Some? ==> OnRoster(conns[k]).value in ids)
    && (forall p :: p in ids ==> p < next && HasHolder(conns, p))
    && (forall k, l :: k in conns && l in conns && k != l && OnRoster(conns[k]).Some? ==>
      OnRoster(conns[k]) != OnRoster(conns[l]))
  }

  ghost predicate RosterOk(s: System) {
    Agree(s.conns, s.session.roster.Keys, s.session.nextProcess)
  }

  ghost predicate Invariant(s: System) {
    0 < s.session.nextProcess && ConnsOk(s) && QueueOk(s) && RosterOk(s)
  }

  lemma InitialHolds(now: nat)
    ensures Invariant(System(map[], [], Started(now)))
  {
  }

  // Commands other than register and unregister leave the roster's ids alone.
  lemma OthersKeepRoster(s: Session, c: Command)
    requires !ChangesRoster(c)
    ensures After(s, c).roster.Keys == s.roster.Keys && After(s, c).nextProcess == s.nextProcess
  {
  }

  // A connection changed without changing what it stands for, or came without an id.
  lemma AgreeSame(conns: map<ConnId, Conn>, ids: set<ProcessId>, next: ProcessId, k: ConnId, c: Conn)
    requires Agree(conns, ids, next)
    requires if k in conns then OnRoster(c) == OnRoster(conns[k]) else OnRoster(c).None?
    ensures Agree(conns[k := c], ids, next)
  {
    forall p | p in ids
      ensures HasHolder(conns[k := c], p)
    {
      assert HasHolder(conns, p);
      var l :| l in conns && OnRoster(conns[l]) == Some(p);
      assert l in conns[k := c] && OnRoster(conns[k := c][l]) == Some(p);
    }
  }

  // A connection was given the next id.
  lemma AgreeJoined(conns: map<ConnId, Conn>, ids: set<ProcessId>, next: ProcessId, k: ConnId, c: Conn)
    requires Agree(conns, ids, next) && k in conns && OnRoster(conns[k]).None? && OnRoster(c) == Some(next)
    ensures Agree(conns[k := c], ids + {next}, next + 1)
  {
    assert k in conns[k := c] && OnRoster(conns[k := c][k]) == Some(next);
    forall p | p in ids
      ensures HasHolder(conns[k := c], p)
    {
      assert HasHolder(conns, p);
      var l :| l in conns && OnRoster(conns[l]) == Some(p);
      assert l in conns[k := c] && OnRoster(conns[k := c][l]) == Some(p);
    }
  }

  // A connection's id was struck off.
  lemma AgreeLeft(conns: map<ConnId, Conn>, ids: set<ProcessId>, next: ProcessId, k: ConnId, c: Conn, p: ProcessId)
    requires Agree(conns, ids, next) && k in conns && OnRoster(conns[k]) == Some(p) && OnRoster(c).None?
    ensures Agree(conns[k := c], ids - {p}, next)
  {
    forall q | q in ids - {p}
      ensures HasHolder(conns[k := c], q)
    {
      assert HasHolder(conns, q);
      var l :| l in conns && OnRoster(conns[l]) == Some(q);
      assert l in conns[k := c] && OnRoster(conns[k := c][l]) == Some(q);
    }
  }

  // The queue is as it was, or has one command of connection k more, on which it may be blocked.
  ghost predicate Queues(s: System, t: System, k: ConnId)
    requires k in t.conns
  {
    || (t.queue == s.queue && !Blocked(t.conns[k]))
    || (|t.queue| == |s.queue| + 1 && t.queue[..|s.queue|] == s.queue && QueuedOk(t, t.queue[|s.queue|])
        && (Blocked(t.conns[k]) ==> From(t.queue[|s.queue|], k)) && t.queue[|s.queue|].conn == k)
  }

  // A connection that was not blocked sends a command and is blocked, or goes on unblocked.
  lemma SentQueue(s: System, t: System, k: ConnId)
    requires QueueOk(s) && k in s.conns && k in t.conns && t.conns == s.conns[k := t.conns[k]]
    requires !Blocked(s.conns[k]) && OnRoster(t.conns[k]) == OnRoster(s.conns[k])
    requires Queues(s, t, k)
    ensures QueueOk(t)
  {
    forall i | 0 <= i < |s.queue|
      ensures QueuedOk(t, t.queue[i]) && t.queue[i] == s.queue[i]
      ensures !s.queue[i].Other? ==> s.queue[i].conn != k
    {
      assert t.queue == s.queue || t.queue[..|s.queue|][i] == s.queue[i];
      assert QueuedOk(s, s.queue[i]);
    }
    forall l | l in t.conns && Blocked(t.conns[l])
      ensures InFlight(t, l)
    {
      if l != k {
        assert InFlight(s, l);
        var i :| 0 <= i < |s.queue| && From(s.queue[i], l);
        assert From(t.queue[i], l);
      } else {
        assert From(t.queue[|s.queue|], k);
      }
    }
  }

  lemma AcceptKeeps(s: System, t: System, k: ConnId)
    requires Invariant(s) && Accept(s, t, k)
    ensures Invariant(t)
  {
    AgreeSame(s.conns, s.session.roster.Keys, s.session.nextProcess, k, t.conns[k]);
    AcceptQueue(s, t, k);
  }

  lemma AcceptQueue(s: System, t: System, k: ConnId)
    requires QueueOk(s) && Accept(s, t, k)
    ensures QueueOk(t)
  {
    forall i | 0 <= i < |t.queue|
      ensures QueuedOk(t, t.queue[i])
    {
      assert QueuedOk(s, s.queue[i]);
    }
    forall l | l in t.conns && Blocked(t.conns[l])
      ensures InFlight(t, l)
    {
      assert InFlight(s, l);
    }
  }

  // What a step of a connection can do at most.
  lemma ConnFrame(s: System, t: System, k: ConnId)
    requires ConnStep(s, t, k) && ConnOk(s.conns[k], s.session.nextProcess)
    ensures k in t.conns && t.conns == s.conns[k := t.conns[k]] && t.session == s.session
    ensures ConnOk(t.conns[k], s.session.nextProcess) && OnRoster(t.conns[k]) == OnRoster(s.conns[k])
    ensures !Blocked(s.conns[k])
  {
    var c := s.conns[k];
    match c.phase
    case Reading =>
      if c.processId.None? && t == With(s, k, c.(phase := Ended)) {
      } else if !c.everRegistered && exists params ::
        t == With(s, k, c.(phase := Joining)).(queue := s.queue + [Join(k, params)]) {
      } else {
        assert c.processId.Some?;
      }
    case _ =>
  }

  lemma ConnQueue(s: System, t: System, k: ConnId)
    requires ConnStep(s, t, k) && k in t.conns && t.conns == s.conns[k := t.conns[k]]
    ensures Queues(s, t, k)
  {
  }

  lemma ConnKeeps(s: System, t: System, k: ConnId)
    requires Invariant(s) && ConnStep(s, t, k)
    ensures Invariant(t)
  {
    assert ConnOk(s.conns[k], s.session.nextProcess);
    ConnFrame(s, t, k);
    AgreeSame(s.conns, s.session.roster.Keys, s.session.nextProcess, k, t.conns[k]);
    ConnQueue(s, t, k);
    SentQueue(s, t, k);
  }

  lemma PoppedQueue(s: System, t: System)
    requires QueueOk(s) && s.queue != [] && t.queue == s.queue[1..]
    requires s.queue[0].Other? ==> t.conns == s.conns
    requires !s.queue[0].Other? ==>
      s.queue[0].conn in t.conns && t.conns == s.conns[s.queue[0].conn := t.conns[s.queue[0].conn]] &&
        !Blocked(t.conns[s.queue[0].conn])
    ensures QueueOk(t)
  {
    forall i | 0 <= i < |t.queue|
      ensures QueuedOk(t, t.queue[i])
    {
      assert QueuedOk(s, s.queue[i + 1]);
      assert !s.queue[0].Other? ==> s.queue[i + 1].conn != s.queue[0].conn;
    }
    forall i, j | 0 <= i < j < |t.queue| && !t.queue[i].Other?
      ensures t.queue[j].conn != t.queue[i].conn
    {
      assert t.queue[i] == s.queue[i + 1] && t.queue[j] == s.queue[j + 1];
    }
    forall l | l in t.conns && Blocked(t.conns[l])
      ensures InFlight(t, l)
    {
      assert InFlight(s, l);
      var i :| 0 <= i < |s.queue| && From(s.queue[i], l);
      assert i > 0 && From(t.queue[i - 1], l);
    }
  }

  lemma JoinedConns(s: System, t: System)
    requires Invariant(s) && s.session.nextProcess + 1 < U32 && s.queue != [] && s.queue[0].Join? && StateStep(s, t)
    ensures forall l :: l in t.conns ==> ConnOk(t.conns[l], t.session.nextProcess)
  {
    assert QueuedOk(s, s.queue[0]);
    forall l | l in t.conns
      ensures ConnOk(t.conns[l], t.session.nextProcess)
    {
      assert ConnOk(s.conns[l], s.session.nextProcess);
    }
  }

  lemma JoinKeeps(s: System, t: System)
    requires Invariant(s) && s.session.nextProcess + 1 < U32 && s.queue != [] && s.queue[0].Join? && StateStep(s, t)
    ensures Invariant(t)
  {
    var k, next := s.queue[0].conn, s.session.nextProcess;
    assert QueuedOk(s, s.queue[0]);
    PoppedQueue(s, t);
    JoinedConns(s, t);
    if s.queue[0].params.version == PROTOCOL_VERSION {
      AgreeJoined(s.conns, s.session.roster.Keys, next, k, t.conns[k]);
      assert t.session.roster.Keys == s.session.roster.Keys + {next};
    } else {
      AgreeSame(s.conns, s.session.roster.Keys, next, k, t.conns[k]);
    }
  }

  lemma LeaveKeeps(s: System, t: System)
    requires Invariant(s) && s.queue != [] && s.queue[0].Leave? && StateStep(s, t)
    ensures Invariant(t)
  {
    var k, p := s.queue[0].conn, s.queue[0].p;
    assert QueuedOk(s, s.queue[0]);
    PoppedQueue(s, t);
    forall l | l in t.conns
      ensures ConnOk(t.conns[l], t.session.nextProcess)
    {
      assert ConnOk(s.conns[l], s.session.nextProcess);
    }
    AgreeLeft(s.conns, s.session.roster.Keys, s.session.nextProcess, k, t.conns[k], p);
    assert t.session.roster.Keys == s.session.roster.Keys - {p};
  }

  lemma OtherKeeps(s: System, t: System)
    requires Invariant(s) && s.queue != [] && s.queue[0].Other? && StateStep(s, t)
    ensures Invariant(t)
  {
    assert QueuedOk(s, s.queue[0]);
    OthersKeepRoster(s.session, s.queue[0].command);
    PoppedQueue(s, t);
  }

  // A run that has not handed out all ids.
  ghost predicate Steps(run: seq<System>, now: nat) {
    && run != [] && run[0] == System(map[], [], Started(now))
    && (forall i :: 0 <= i < |run| - 1 ==> Step(run[i], run[i + 1]))
    && forall i :: 0 <= i < |run| ==> run[i].session.nextProcess + 1 < U32
  }

  lemma {:induction false} RunKeeps(run: seq<System>, now: nat, n: nat)
    requires Steps(run, now) && n < |run|
    ensures Invariant(run[n])
  {
    if n == 0 {
      InitialHolds(now);
    } else {
      RunKeeps(run, now, n - 1);
      var s, t := run[n - 1], run[n];
      assert Step(s, t);
      if StateStep(s, t) {
        match s.queue[0]
        case Join(_, _) => JoinKeeps(s, t);
        case Leave(_, _, _) => LeaveKeeps(s, t);
        case Other(_, _, _) => OtherKeeps(s, t);
      } else if k :| Accept(s, t, k) {
        AcceptKeeps(s, t, k);
      } else if k :| ConnStep(s, t, k) {
        ConnKeeps(s, t, k);
      }
    }
  }

  // ---------------------------------------------------------------------------------
  // What is promised.

  // A connection is given at most one process id in its life, and no id is held twice.
  lemma OneIdEach(run: seq<System>, now: nat, n: nat, k: ConnId, l: ConnId)
    requires Steps(run, now) && n < |run| && k in run[n].conns && l in run[n].conns && k != l
    ensures |run[n].conns[k].ids| <= 1
    ensures OnRoster(run[n].conns[k]).Some? ==> OnRoster(run[n].conns[k]) != OnRoster(run[n].conns[l])
  {
    RunKeeps(run, now, n);
    assert ConnOk(run[n].conns[k], run[n].session.nextProcess);
  }

  // No command is queued and every reply was looked at.
  ghost predicate Quiet(s: System) {
    s.queue == [] && forall k :: k in s.conns ==>
      !(s.conns[k].phase.Joined? || s.conns[k].phase.Left? || s.conns[k].phase.Closed?)
  }

  // Whenever nothing is in flight, the roster's ids are exactly those of the open connections.
  lemma QuietRoster(run: seq<System>, now: nat, n: nat, p: ProcessId)
    requires Steps(run, now) && n < |run| && Quiet(run[n])
    ensures p in run[n].session.roster <==>
      exists k :: k in run[n].conns && !run[n].conns[k].phase.Ended? && run[n].conns[k].processId == Some(p)
  {
    RunKeeps(run, now, n);
    var s := run[n];
    forall k | k in s.conns
      ensures s.conns[k].phase.Reading? || s.conns[k].phase.Ended?
    {
      assert Blocked(s.conns[k]) ==> InFlight(s, k);
    }
    if p in s.session.roster {
      assert HasHolder(s.conns, p);
      var k :| k in s.conns && OnRoster(s.conns[k]) == Some(p);
      assert k in s.conns && !s.conns[k].phase.Ended? && s.conns[k].processId == Some(p);
    }
    if k :| k in s.conns && !s.conns[k].phase.Ended? && s.conns[k].processId == Some(p) {
      assert OnRoster(s.conns[k]) == Some(p);
    }
  }

  // Whatever is waiting for the state thread, but for registrations, comes from a connection
  // whose process is on the roster, and is in the name of that process.
  lemma RegisteredSends(run: seq<System>, now: nat, n: nat, i: nat)
    requires Steps(run, now) && n < |run| && i < |run[n].queue| && !run[n].queue[i].Join?
    ensures run[n].queue[i].p in run[n].session.roster
    ensures run[n].queue[i].Other? ==> InNameOf(run[n].queue[i].command, run[n].queue[i].p)
  {
    RunKeeps(run, now, n);
    var s, q := run[n], run[n].queue[i];
    assert QueuedOk(s, q);
    assert OnRoster(s.conns[q.conn]) == Some(q.p);
  }
}
