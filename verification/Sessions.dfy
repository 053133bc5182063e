// crates/montre-daemon/src/state.rs: the roster of processes, their couplers, their
// subscriptions, and the idle clock. One thread applies one command after the other.
module Sessions {
  import opened Core
  import opened Couplers
  import opened Interests

  const U32: nat := 0x1_0000_0000
  const PROTOCOL_VERSION: nat := 1

  datatype Error = VersionMismatch | ProcessNotFound | CouplerNotFound | CouplerCycle | CouplerIncompatible
  datatype Reply<+T> = Done(value: T) | Refused(error: Error)
  datatype Topic = RosterChanged | NamedResultsChanged

  datatype Process = Process(
    id: ProcessId, kind: string, name: Option<string>,
    offers: seq<InterestKind>, consumes: seq<InterestKind>, interest: Option<Interest>)

  datatype RegisterParams = RegisterParams(
    version: nat, kind: string, name: Option<string>, offers: seq<InterestKind>, consumes: seq<InterestKind>)

  // A coupler_update notification handed to a process.
  datatype Delivery = Delivery(to: ProcessId, coupler: CouplerId, interest: Interest)

  type Roster = map<ProcessId, Process>

  datatype Session = Session(
    roster: Roster, couplers: Graph, subscriptions: map<Topic, set<ProcessId>>,
    emptiedAt: Option<nat>, nextProcess: ProcessId, nextCoupler: CouplerId)

  // ---------------------------------------------------------------------------------
  // What every command keeps.

  ghost predicate Fits(roster: Roster, c: Coupler) {
    && c.master in roster && c.follower in roster
    && Compatible(c.kind, roster[c.master].offers, roster[c.follower].consumes)
  }

  ghost predicate Sound(s: Session) {
    && (forall p :: p in s.roster ==>
         s.roster[p].id == p && (s.roster[p].interest.Some? ==>
           KindOf(s.roster[p].interest.value) in s.roster[p].offers))
    && (forall i :: i in s.couplers ==> s.couplers[i].id == i && Fits(s.roster, s.couplers[i]))
    && Acyclic(s.couplers)
    && (forall t, p :: t in s.subscriptions && p in s.subscriptions[t] ==> p in s.roster)
    && (s.emptiedAt.Some? <==> s.roster == map[])
  }

  function Next(id: nat): nat {
    (id + 1) % U32
  }

  // ---------------------------------------------------------------------------------
  // The commands, on values.

  function Started(now: nat): Session {
    Session(map[], map[], map[], Some(now), 1, 1)
  }

  function NewProcess(id: ProcessId, p: RegisterParams): Process {
    Process(id, p.kind, p.name, p.offers, p.consumes, None)
  }

  function Registered(s: Session, p: RegisterParams): Session {
    s.(nextProcess := Next(s.nextProcess), roster := s.roster[s.nextProcess := NewProcess(s.nextProcess, p)],
      emptiedAt := None)
  }

  function Touches(c: Coupler, p: ProcessId): bool {
    c.master == p || c.follower == p
  }

  function Without(subs: map<Topic, set<ProcessId>>, p: ProcessId): map<Topic, set<ProcessId>> {
    map t | t in subs :: subs[t] - {p}
  }

  function Remaining(g: Graph, p: ProcessId): Graph {
    map i | i in g && !Touches(g[i], p) :: g[i]
  }

  function Unregistered(s: Session, p: ProcessId, now: nat): Session {
    if p !in s.roster then s
    else
      var roster := s.roster - {p};
      s.(roster := roster, couplers := Remaining(s.couplers, p), subscriptions := Without(s.subscriptions, p),
         emptiedAt := if roster == map[] then Some(now) else s.emptiedAt)
  }

  function Relabelled(s: Session, p: ProcessId, name: Option<string>): Session {
    if p in s.roster then s.(roster := s.roster[p := s.roster[p].(name := name)]) else s
  }

  // Publishing is accepted only for a kind that was declared.
  predicate MayPublish(s: Session, p: ProcessId, i: Interest) {
    p in s.roster && KindOf(i) in s.roster[p].offers
  }

  function Published(s: Session, p: ProcessId, i: Interest): Session {
    if MayPublish(s, p, i) then s.(roster := s.roster[p := s.roster[p].(interest := Some(i))]) else s
  }

  function Coupled(s: Session, c: Coupler): Session {
    s.(couplers := s.couplers[s.nextCoupler := c], nextCoupler := Next(s.nextCoupler))
  }

  // The reason for which a coupler is refused, if any.
  ghost function Refusal(s: Session, master: ProcessId, follower: ProcessId, kind: CouplerKind): Option<Error> {
    if master !in s.roster || follower !in s.roster then Some(ProcessNotFound)
    else if Reaches(s.couplers, follower, master) then Some(CouplerCycle)
    else if !Compatible(kind, s.roster[master].offers, s.roster[follower].consumes) then Some(CouplerIncompatible)
    else None
  }

  function Uncoupled(s: Session, i: CouplerId): Session {
    s.(couplers := s.couplers - {i})
  }

  function Subscribers(s: Session, t: Topic): set<ProcessId> {
    if t in s.subscriptions then s.subscriptions[t] else {}
  }

  function Subscribed(s: Session, p: ProcessId, t: Topic): Session {
    if p in s.roster then s.(subscriptions := s.subscriptions[t := Subscribers(s, t) + {p}]) else s
  }

  function Unsubscribed(s: Session, p: ProcessId, t: Topic): Session {
    if t in s.subscriptions then s.(subscriptions := s.subscriptions[t := s.subscriptions[t] - {p}]) else s
  }

  // ---------------------------------------------------------------------------------
  // Notifications.

  // What a coupler sends for an interest: the news it makes of it, in order, to its follower, and
  // nothing when the follower is gone.
  ghost predicate Heard(h: Handle, roster: Roster, coupler: Coupler, i: Interest, part: seq<Delivery>)
    requires ValidHandle(h)
  {
    if coupler.follower !in roster then part == []
    else exists news: seq<Interest> :: Told(h, i, coupler.kind, news) && Carries(part, coupler, news)
  }

  ghost predicate Carries(part: seq<Delivery>, coupler: Coupler, news: seq<Interest>) {
    |part| == |news| &&
    forall j :: 0 <= j < |part| ==> part[j] == Delivery(coupler.follower, coupler.id, news[j])
  }

  function Concat(parts: seq<seq<Delivery>>): seq<Delivery> {
    if parts == [] then [] else Concat(parts[..|parts| - 1]) + parts[|parts| - 1]
  }

  // The couplers that p masters.
  function Mastered(g: Graph, p: ProcessId): set<CouplerId> {
    set i | i in g && g[i].master == p
  }

  // Some order of exactly the couplers that p masters, as a hash map may give it.
  ghost predicate OrderOf(g: Graph, p: ProcessId, order: seq<CouplerId>) {
    NoDup(order) && forall k :: k in order <==> k in Mastered(g, p)
  }

  // One part for each coupler of this order.
  ghost predicate HeardEach(h: Handle, roster: Roster, g: Graph, order: seq<CouplerId>, i: Interest,
      parts: seq<seq<Delivery>>)
    requires ValidHandle(h)
  {
    |parts| == |order| &&
    forall j :: 0 <= j < |order| ==> order[j] in g && Heard(h, roster, g[order[j]], i, parts[j])
  }

  // What all couplers that p masters send for an interest.
  ghost predicate Notified(h: Handle, roster: Roster, g: Graph, p: ProcessId, i: Interest,
      order: seq<CouplerId>, parts: seq<seq<Delivery>>)
    requires ValidHandle(h)
  {
    OrderOf(g, p, order) && HeardEach(h, roster, g, order, i, parts)
  }

  lemma ConcatNext(parts: seq<seq<Delivery>>, part: seq<Delivery>)
    ensures Concat(parts + [part]) == Concat(parts) + part
  {
    assert (parts + [part])[..|parts|] == parts;
  }

  lemma Appended(a: seq<Delivery>, b: seq<Delivery>, c: seq<Delivery>)
    ensures (a + b) + c == a + (b + c)
  {
  }

  // Mastered couplers that are not in the order are still to come.
  ghost predicate Ordering(g: Graph, p: ProcessId, order: seq<CouplerId>, rest: set<CouplerId>) {
    && NoDup(order)
    && (forall k :: k in rest ==> k in g && k !in order)
    && (forall j :: 0 <= j < |order| ==> order[j] in g)
    && forall k :: k in Mastered(g, p) <==> k in order || k in rest
  }

  lemma OrderingNext(g: Graph, p: ProcessId, order: seq<CouplerId>, rest: set<CouplerId>, k: CouplerId)
    requires Ordering(g, p, order, rest) && k in rest
    ensures Ordering(g, p, order + [k], rest - {k})
  {
  }

  lemma {:induction false} ConcatSource(parts: seq<seq<Delivery>>, d: Delivery) returns (j: nat)
    requires d in Concat(parts)
    ensures j < |parts| && d in parts[j]
  {
    j := |parts| - 1;
    if d !in parts[j] {
      j := ConcatSource(parts[..j], d);
    }
  }

  // Every interest that is delivered has a kind its receiver declared to consume.
  lemma DeliveredIsConsumed(h: Handle, s: Session, k: CouplerId, i: Interest, part: seq<Delivery>, d: Delivery)
    requires ValidHandle(h) && Sound(s) && k in s.couplers
    requires Heard(h, s.roster, s.couplers[k], i, part) && d in part
    ensures d.to in s.roster && KindOf(d.interest) in s.roster[d.to].consumes
  {
    var cp := s.couplers[k];
    assert Fits(s.roster, cp);
    var news: seq<Interest> :| Told(h, i, cp.kind, news) && Carries(part, cp, news);
    var j :| 0 <= j < |part| && part[j] == d;
    CompatibleDelivers(h, i, cp.kind, s.roster[cp.master].offers, s.roster[cp.follower].consumes, news, d.interest);
  }

  // So has everything that publishing an interest sends.
  lemma PublishedIsConsumed(h: Handle, s: Session, p: ProcessId, i: Interest, order: seq<CouplerId>,
      parts: seq<seq<Delivery>>, d: Delivery)
    requires ValidHandle(h) && Sound(s) && Notified(h, s.roster, s.couplers, p, i, order, parts)
    requires d in Concat(parts)
    ensures d.to in s.roster && KindOf(d.interest) in s.roster[d.to].consumes
    ensures d.coupler in Mastered(s.couplers, p) && d.to == s.couplers[d.coupler].follower
  {
    var j := ConcatSource(parts, d);
    var k := order[j];
    assert k in order && Heard(h, s.roster, s.couplers[k], i, parts[j]);
    DeliveredIsConsumed(h, s, k, i, parts[j], d);
    HeardFrom(h, s, s.couplers[k], i, parts[j], d);
  }

  lemma HeardFrom(h: Handle, s: Session, coupler: Coupler, i: Interest, part: seq<Delivery>, d: Delivery)
    requires ValidHandle(h) && Heard(h, s.roster, coupler, i, part) && d in part
    ensures d.to == coupler.follower && d.coupler == coupler.id
  {
    var news: seq<Interest> :| Told(h, i, coupler.kind, news) && Carries(part, coupler, news);
    var j :| 0 <= j < |part| && part[j] == d;
  }

  // ---------------------------------------------------------------------------------
  // The state thread's object.

  class State {
    var roster: Roster
    var couplers: Graph
    var subscriptions: map<Topic, set<ProcessId>>
    var emptiedAt: Option<nat>
    var nextProcess: ProcessId
    var nextCoupler: CouplerId
    var sent: seq<Delivery>

    function View(): Session
      reads this
    {
      Session(roster, couplers, subscriptions, emptiedAt, nextProcess, nextCoupler)
    }

    constructor (now: nat)
      ensures View() == Started(now) && sent == []
    {
      roster, couplers, subscriptions, emptiedAt := map[], map[], map[], Some(now);
      nextProcess, nextCoupler, sent := 1, 1, [];
    }

    method Register(params: RegisterParams) returns (r: Reply<ProcessId>)
      modifies this
      ensures params.version != PROTOCOL_VERSION ==> r == Refused(VersionMismatch) && View() == old(View())
      ensures params.version == PROTOCOL_VERSION ==>
        r == Done(old(nextProcess)) && View() == Registered(old(View()), params)
      ensures sent == old(sent)
    {
      if params.version != PROTOCOL_VERSION {
        return Refused(VersionMismatch);
      }
      var id := nextProcess;
      nextProcess := (nextProcess + 1) % U32;
      roster := roster[id := Process(id, params.kind, params.name, params.offers, params.consumes, None)];
      emptiedAt := None;
      r := Done(id);
    }

    method DropCouplers(p: ProcessId)
      modifies this
      ensures View() == old(View()).(couplers := Remaining(old(couplers), p)) && sent == old(sent)
    {
      ghost var was := couplers;
      var rest := couplers.Keys;
      while rest != {}
        invariant View() == old(View()).(couplers := couplers) && sent == old(sent)
        invariant rest <= was.Keys
        invariant forall i :: i in couplers <==> i in was && (i in rest || !Touches(was[i], p))
        invariant forall i :: i in couplers ==> couplers[i] == was[i]
        decreases |rest|
      {
        var i :| i in rest;
        if Touches(couplers[i], p) {
          couplers := couplers - {i};
        }
        rest := rest - {i};
      }
      assert couplers == Remaining(was, p);
    }

    method DropSubscriptions(p: ProcessId)
      modifies this
      ensures View() == old(View()).(subscriptions := Without(old(subscriptions), p)) && sent == old(sent)
    {
      ghost var was := subscriptions;
      var rest := subscriptions.Keys;
      while rest != {}
        invariant View() == old(View()).(subscriptions := subscriptions) && sent == old(sent)
        invariant rest <= was.Keys && subscriptions.Keys == was.Keys
        invariant forall t :: t in was ==> subscriptions[t] == if t in rest then was[t] else was[t] - {p}
        decreases |rest|
      {
        var t :| t in rest;
        subscriptions := subscriptions[t := subscriptions[t] - {p}];
        rest := rest - {t};
      }
      assert subscriptions == Without(was, p);
    }

    method Unregister(p: ProcessId, now: nat)
      modifies this
      ensures View() == Unregistered(old(View()), p, now) && sent == old(sent)
    {
      if p !in roster {
        return;
      }
      roster := roster - {p};
      DropCouplers(p);
      DropSubscriptions(p);
      if roster == map[] {
        emptiedAt := Some(now);
      }
    }

    method UpdateLabel(p: ProcessId, name: Option<string>) returns (r: Reply<bool>)
      modifies this
      ensures View() == Relabelled(old(View()), p, name) && sent == old(sent)
      ensures r == if p in old(roster) then Done(true) else Refused(ProcessNotFound)
    {
      if p !in roster {
        return Refused(ProcessNotFound);
      }
      roster := roster[p := roster[p].(name := name)];
      r := Done(true);
    }

    method PublishInterest(h: Handle, p: ProcessId, i: Interest)
      returns (ghost order: seq<CouplerId>, ghost parts: seq<seq<Delivery>>)
      requires ValidHandle(h)
      modifies this
      ensures View() == Published(old(View()), p, i)
      ensures !MayPublish(old(View()), p, i) ==> sent == old(sent)
      ensures MayPublish(old(View()), p, i) ==>
        Notified(h, roster, couplers, p, i, order, parts) && sent == old(sent) + Concat(parts)
    {
      order, parts := [], [];
      if p !in roster || KindOf(i) !in roster[p].offers {
        return;
      }
      roster := roster[p := roster[p].(interest := Some(i))];
      order, parts := NotifyFollowers(h, p, i);
    }

    method NotifyFollowers(h: Handle, p: ProcessId, i: Interest)
      returns (ghost order: seq<CouplerId>, ghost parts: seq<seq<Delivery>>)
      requires ValidHandle(h)
      modifies this`sent
      ensures Notified(h, roster, couplers, p, i, order, parts) && sent == old(sent) + Concat(parts)
    {
      order, parts := [], [];
      assert sent + [] == sent;
      var rest := set k | k in couplers && couplers[k].master == p;
      while rest != {}
        invariant Ordering(couplers, p, order, rest)
        invariant HeardEach(h, roster, couplers, order, i, parts) && sent == old(sent) + Concat(parts)
        decreases |rest|
      {
        var k :| k in rest;
        OrderingNext(couplers, p, order, rest, k);
        ghost var part := Deliver(h, couplers[k], i);
        ConcatNext(parts, part);
        Appended(old(sent), Concat(parts), part);
        order, parts, rest := order + [k], parts + [part], rest - {k};
      }
    }

    // Notifications for one coupler.
    method Deliver(h: Handle, coupler: Coupler, i: Interest) returns (ghost part: seq<Delivery>)
      requires ValidHandle(h)
      modifies this`sent
      ensures Heard(h, roster, coupler, i, part) && sent == old(sent) + part
    {
      part := [];
      assert sent + [] == sent;
      var derived := TransformInterest(h, i, coupler.kind);
      if coupler.follower !in roster {
        return;
      }
      for j := 0 to |derived|
        invariant Carries(part, coupler, derived[..j]) && sent == old(sent) + part
      {
        part := part + [Delivery(coupler.follower, coupler.id, derived[j])];
        sent := sent + [Delivery(coupler.follower, coupler.id, derived[j])];
      }
      assert derived[..|derived|] == derived;
    }

    method CouplerCreate(h: Handle, master: ProcessId, follower: ProcessId, kind: CouplerKind)
      returns (r: Reply<CouplerId>, ghost part: seq<Delivery>)
      requires ValidHandle(h)
      modifies this
      ensures var refusal := old(Refusal(View(), master, follower, kind));
        && (refusal.Some? ==> r == Refused(refusal.value) && View() == old(View()) && sent == old(sent))
        && (refusal.None? ==>
          && r == Done(old(nextCoupler))
          && View() == Coupled(old(View()), Coupler(r.value, master, follower, kind))
          && sent == old(sent) + part
          && (roster[master].interest.None? ==> part == [])
          && (roster[master].interest.Some? ==>
               Heard(h, roster, couplers[r.value], roster[master].interest.value, part)))
    {
      part := [];
      if master !in roster {
        return Refused(ProcessNotFound), [];
      }
      if follower !in roster {
        return Refused(ProcessNotFound), [];
      }
      var cycle := CreatesCycle(couplers, master, follower);
      if cycle {
        return Refused(CouplerCycle), [];
      }
      if !Compatible(kind, roster[master].offers, roster[follower].consumes) {
        return Refused(CouplerIncompatible), [];
      }
      var id := nextCoupler;
      nextCoupler := (nextCoupler + 1) % U32;
      var coupler := Coupler(id, master, follower, kind);
      couplers := couplers[id := coupler];
      assert sent + [] == sent;
      if roster[master].interest.Some? {
        part := Deliver(h, coupler, roster[master].interest.value);
      }
      r := Done(id);
    }

    method CouplerRemove(i: CouplerId) returns (r: Reply<bool>)
      modifies this
      ensures View() == Uncoupled(old(View()), i) && sent == old(sent)
      ensures r == if i in old(couplers) then Done(true) else Refused(CouplerNotFound)
    {
      if i !in couplers {
        assert couplers - {i} == couplers;
        return Refused(CouplerNotFound);
      }
      couplers := couplers - {i};
      r := Done(true);
    }

    method Subscribe(p: ProcessId, t: Topic) returns (r: Reply<bool>)
      modifies this
      ensures View() == Subscribed(old(View()), p, t) && sent == old(sent)
      ensures r == if p in old(roster) then Done(true) else Refused(ProcessNotFound)
    {
      if p !in roster {
        return Refused(ProcessNotFound);
      }
      if t !in subscriptions {
        subscriptions := subscriptions[t := {}];
      }
      subscriptions := subscriptions[t := subscriptions[t] + {p}];
      r := Done(true);
    }

    method Unsubscribe(p: ProcessId, t: Topic)
      modifies this
      ensures View() == Unsubscribed(old(View()), p, t) && sent == old(sent)
    {
      if t in subscriptions {
        subscriptions := subscriptions[t := subscriptions[t] - {p}];
      }
    }

    // check_idle_timeout: whether the daemon shuts down.
    method CheckIdle(timeout: Option<nat>, now: nat) returns (shutdown: bool)
      ensures shutdown <==> timeout.Some? && emptiedAt.Some? && now >= emptiedAt.value + timeout.value
      ensures shutdown && Sound(View()) ==> roster == map[]
    {
      if timeout.None? || emptiedAt.None? {
        return false;
      }
      shutdown := now >= emptiedAt.value + timeout.value;
    }
  }

  // ---------------------------------------------------------------------------------
  // Every command keeps the state sound.

  lemma StartedSound(now: nat)
    ensures Sound(Started(now))
  {
  }

  // The new process can stand where couplers already refer to its id.
  predicate Serves(p: RegisterParams, id: ProcessId, c: Coupler) {
    && (c.master == id ==> Overlap(Signature(c.kind).0, p.offers))
    && (c.follower == id ==> Overlap(Signature(c.kind).1, p.consumes))
  }

  // A registration keeps the state sound if and only if the new process serves the couplers
  // of its id. There are some only after the counter has wrapped around to an id in use.
  lemma RegisteredSoundIff(s: Session, p: RegisterParams)
    requires Sound(s)
    ensures Sound(Registered(s, p)) <==> forall i :: i in s.couplers ==> Serves(p, s.nextProcess, s.couplers[i])
  {
    var t := Registered(s, p);
    assert s.nextProcess in t.roster;
    forall i | i in s.couplers
      ensures Fits(t.roster, s.couplers[i]) <==> Serves(p, s.nextProcess, s.couplers[i])
    {
      assert Fits(s.roster, s.couplers[i]);
    }
  }

  lemma FreshIdSound(s: Session, p: RegisterParams)
    requires Sound(s) && s.nextProcess !in s.roster
    ensures Sound(Registered(s, p))
  {
    forall i | i in s.couplers
      ensures Serves(p, s.nextProcess, s.couplers[i])
    {
      assert Fits(s.roster, s.couplers[i]);
    }
    RegisteredSoundIff(s, p);
  }

  // Unregistering drops exactly the couplers that touch the process, and its subscriptions.
  lemma UnregisteredSound(s: Session, p: ProcessId, now: nat)
    requires Sound(s)
    ensures Sound(Unregistered(s, p, now))
    ensures forall i :: i in Unregistered(s, p, now).couplers <==> i in s.couplers && !Touches(s.couplers[i], p)
  {
    var t := Unregistered(s, p, now);
    SubgraphAcyclic(t.couplers, s.couplers);
    forall i | i in t.couplers
      ensures t.couplers[i].id == i && Fits(t.roster, t.couplers[i])
    {
      assert Fits(s.roster, s.couplers[i]);
    }
    if p in s.roster && t.roster != map[] {
      assert s.roster != map[];
    }
    if p !in s.roster {
      forall i | i in s.couplers
        ensures !Touches(s.couplers[i], p)
      {
        assert Fits(s.roster, s.couplers[i]);
      }
    }
  }

  lemma SameFitsSound(s: Session, roster: Roster)
    requires Sound(s) && roster.Keys == s.roster.Keys
    requires forall p :: p in roster ==>
      roster[p].id == p && roster[p].offers == s.roster[p].offers && roster[p].consumes == s.roster[p].consumes
    requires forall p :: p in roster && roster[p].interest.Some? ==>
      KindOf(roster[p].interest.value) in roster[p].offers
    ensures Sound(s.(roster := roster))
  {
    forall i | i in s.couplers
      ensures Fits(roster, s.couplers[i])
    {
      assert Fits(s.roster, s.couplers[i]);
    }
    assert roster == map[] <==> roster.Keys == {};
    assert s.roster == map[] <==> s.roster.Keys == {};
  }

  lemma RelabelledSound(s: Session, p: ProcessId, name: Option<string>)
    requires Sound(s)
    ensures Sound(Relabelled(s, p, name))
  {
    if p in s.roster {
      SameFitsSound(s, s.roster[p := s.roster[p].(name := name)]);
    }
  }

  lemma PublishedSound(s: Session, p: ProcessId, i: Interest)
    requires Sound(s)
    ensures Sound(Published(s, p, i))
  {
    if MayPublish(s, p, i) {
      SameFitsSound(s, s.roster[p := s.roster[p].(interest := Some(i))]);
    }
  }

  // A coupler that is not refused keeps the graph acyclic, even where it takes the id of
  // another coupler over.
  lemma CoupledSound(s: Session, master: ProcessId, follower: ProcessId, kind: CouplerKind)
    requires Sound(s) && Refusal(s, master, follower, kind).None?
    ensures Sound(Coupled(s, Coupler(s.nextCoupler, master, follower, kind)))
  {
    var c := Coupler(s.nextCoupler, master, follower, kind);
    var g := s.couplers - {c.id};
    SubgraphAcyclic(g, s.couplers);
    if Reaches(g, follower, master) {
      var p :| Path(g, p) && p[0] == follower && p[|p| - 1] == master;
      SmallerPath(g, s.couplers, p);
    }
    AddedAcyclicIff(g, c, c.id);
    assert s.couplers[c.id := c] == g[c.id := c];
  }

  // A coupler is refused exactly when it would make the state unsound.
  lemma RefusedIffUnsound(s: Session, master: ProcessId, follower: ProcessId, kind: CouplerKind)
    requires Sound(s) && s.nextCoupler !in s.couplers
    ensures Refusal(s, master, follower, kind).None? <==>
      Sound(Coupled(s, Coupler(s.nextCoupler, master, follower, kind)))
  {
    var c := Coupler(s.nextCoupler, master, follower, kind);
    AddedAcyclicIff(s.couplers, c, c.id);
    if Refusal(s, master, follower, kind).None? {
      CoupledSound(s, master, follower, kind);
    } else {
      assert Coupled(s, c).couplers[c.id] == c;
    }
  }

  lemma UncoupledSound(s: Session, i: CouplerId)
    requires Sound(s)
    ensures Sound(Uncoupled(s, i))
  {
    SubgraphAcyclic(Uncoupled(s, i).couplers, s.couplers);
  }

  lemma SubscribedSound(s: Session, p: ProcessId, t: Topic)
    requires Sound(s)
    ensures Sound(Subscribed(s, p, t)) && Sound(Unsubscribed(s, p, t))
  {
  }

  // ---------------------------------------------------------------------------------
  // Whole runs.

  datatype Command =
    | DoRegister(params: RegisterParams)
    | DoUnregister(p: ProcessId, now: nat)
    | DoLabel(p: ProcessId, name: Option<string>)
    | DoPublish(p: ProcessId, interest: Interest)
    | DoCouple(master: ProcessId, follower: ProcessId, kind: CouplerKind)
    | DoUncouple(coupler: CouplerId)
    | DoSubscribe(p: ProcessId, topic: Topic)
    | DoUnsubscribe(p: ProcessId, topic: Topic)

  ghost function After(s: Session, c: Command): Session {
    match c
    case DoRegister(params) => if params.version == PROTOCOL_VERSION then Registered(s, params) else s
    case DoUnregister(p, now) => Unregistered(s, p, now)
    case DoLabel(p, name) => Relabelled(s, p, name)
    case DoPublish(p, i) => Published(s, p, i)
    case DoCouple(m, f, k) => if Refusal(s, m, f, k).None? then Coupled(s, Coupler(s.nextCoupler, m, f, k)) else s
    case DoUncouple(i) => Uncoupled(s, i)
    case DoSubscribe(p, t) => Subscribed(s, p, t)
    case DoUnsubscribe(p, t) => Unsubscribed(s, p, t)
  }

  ghost function Run(s: Session, cs: seq<Command>, n: nat): Session
    requires n <= |cs|
  {
    if n == 0 then s else After(Run(s, cs, n - 1), cs[n - 1])
  }

  // Registrations among the first n commands.
  function Registrations(cs: seq<Command>, n: nat): nat
    requires n <= |cs|
  {
    if n == 0 then 0 else Registrations(cs, n - 1) + if cs[n - 1].DoRegister? then 1 else 0
  }

  // Ids handed out so far are below the next one.
  ghost predicate IdsBelow(s: Session) {
    forall p :: p in s.roster ==> 0 < p < s.nextProcess
  }

  lemma AfterSound(s: Session, c: Command)
    requires Sound(s) && s.nextProcess !in s.roster
    ensures Sound(After(s, c))
  {
    match c
    case DoRegister(params) => FreshIdSound(s, params);
    case DoUnregister(p, now) => UnregisteredSound(s, p, now);
    case DoLabel(p, name) => RelabelledSound(s, p, name);
    case DoPublish(p, i) => PublishedSound(s, p, i);
    case DoCouple(m, f, k) => if Refusal(s, m, f, k).None? { CoupledSound(s, m, f, k); }
    case DoUncouple(i) => UncoupledSound(s, i);
    case DoSubscribe(p, t) => SubscribedSound(s, p, t);
    case DoUnsubscribe(p, t) => SubscribedSound(s, p, t);
  }

  lemma AfterIds(s: Session, c: Command)
    requires IdsBelow(s) && 0 < s.nextProcess && s.nextProcess + 1 < U32
    ensures IdsBelow(After(s, c))
    ensures After(s, c).nextProcess == s.nextProcess + if c.DoRegister? && c.params.version == PROTOCOL_VERSION then 1
      else 0
  {
  }

  // After every command of every run with fewer than 2^32 - 2 registrations, couplers and
  // subscriptions refer to processes on the roster, couplers fit their ends and form no cycle,
  // and the idle clock runs exactly while the roster is empty.
  lemma {:induction false} RunSound(now: nat, cs: seq<Command>, n: nat)
    requires n <= |cs| && Registrations(cs, n) + 2 < U32
    ensures var s := Run(Started(now), cs, n);
      Sound(s) && IdsBelow(s) && 0 < s.nextProcess <= Registrations(cs, n) + 1
  {
    if n == 0 {
      StartedSound(now);
    } else {
      RunSound(now, cs, n - 1);
      var s := Run(Started(now), cs, n - 1);
      AfterSound(s, cs[n - 1]);
      AfterIds(s, cs[n - 1]);
    }
  }

  // What one coupler sends when a command is applied: the notifications of a published
  // interest, or those of a new coupler whose master has an interest already.
  ghost predicate Sends(h: Handle, s: Session, command: Command, k: CouplerId, part: seq<Delivery>)
    requires ValidHandle(h)
  {
    var t := After(s, command);
    match command
    case DoPublish(p, i) =>
      MayPublish(s, p, i) && k in Mastered(t.couplers, p) && Heard(h, t.roster, t.couplers[k], i, part)
    case DoCouple(m, f, kind) =>
      && Refusal(s, m, f, kind).None? && k == s.nextCoupler
      && t.roster[m].interest.Some? && Heard(h, t.roster, t.couplers[k], t.roster[m].interest.value, part)
    case _ => false
  }

  // In every run, whatever is sent goes to a process on the roster, in a kind it declared to
  // consume.
  lemma RunDelivers(now: nat, cs: seq<Command>, n: nat, h: Handle, k: CouplerId, part: seq<Delivery>, d: Delivery)
    requires n < |cs| && Registrations(cs, n + 1) + 2 < U32 && ValidHandle(h)
    requires Sends(h, Run(Started(now), cs, n), cs[n], k, part) && d in part
    ensures var t := Run(Started(now), cs, n + 1);
      d.to in t.roster && KindOf(d.interest) in t.roster[d.to].consumes
  {
    var s, t := Run(Started(now), cs, n), Run(Started(now), cs, n + 1);
    RunSound(now, cs, n + 1);
    match cs[n] {
      case DoPublish(p, i) => DeliveredIsConsumed(h, t, k, i, part, d);
      case DoCouple(m, f, kind) => DeliveredIsConsumed(h, t, k, t.roster[m].interest.value, part, d);
      case _ => assert false;
    }
  }

  // ---------------------------------------------------------------------------------
  // Beyond that bound a run can come to a state that is not sound.

  // A process comes and goes, m times, from id 3 on.
  function Visits(m: nat): (r: seq<Command>)
    ensures |r| == 2 * m
  {
    if m == 0 then [] else Visits(m - 1) + [DoRegister(Visitor()), DoUnregister((m + 2) % U32, 0)]
  }

  function Visitor(): RegisterParams {
    RegisterParams(PROTOCOL_VERSION, "visitor", None, [], [])
  }

  // Two processes with a coupler between them.
  function Pair(): seq<Command> {
    [DoRegister(RegisterParams(PROTOCOL_VERSION, "master", None, [SentenceKind], [])),
     DoRegister(RegisterParams(PROTOCOL_VERSION, "follower", None, [], [SentenceKind])),
     DoCouple(1, 2, SentenceMirror)]
  }

  lemma {:induction false} RunAppend(s: Session, a: seq<Command>, b: seq<Command>, n: nat)
    requires n <= |b|
    ensures Run(s, a + b, |a| + n) == Run(Run(s, a, |a|), b, n)
  {
    if n == 0 {
      RunPrefix(s, a, b, |a|);
    } else {
      RunAppend(s, a, b, n - 1);
    }
  }

  lemma {:induction false} RunPrefix(s: Session, a: seq<Command>, b: seq<Command>, n: nat)
    requires n <= |a|
    ensures Run(s, a + b, n) == Run(s, a, n)
  {
    if n > 0 {
      RunPrefix(s, a, b, n - 1);
    }
  }

  // Processes 1 and 2 are there, and coupler 1 from the one to the other.
  ghost predicate Paired(s: Session) {
    && s.roster.Keys == {1, 2} && s.emptiedAt == None && s.subscriptions == map[]
    && s.couplers == map[1 := Coupler(1, 1, 2, SentenceMirror)]
  }

  lemma VisitLeaves(s: Session, id: ProcessId)
    requires Paired(s) && s.nextProcess == id && id != 1 && id != 2
    ensures After(After(s, DoRegister(Visitor())), DoUnregister(id, 0)) == s.(nextProcess := Next(id))
  {
    var t := After(s, DoRegister(Visitor()));
    assert t.roster - {id} == s.roster;
    assert Without(t.subscriptions, id) == map[];
    assert Remaining(t.couplers, id) == s.couplers;
  }

  lemma RunTwo(s: Session, a: Command, b: Command)
    ensures Run(s, [a, b], 2) == After(After(s, a), b)
  {
    var cs := [a, b];
    assert Run(s, cs, 1) == After(Run(s, cs, 0), cs[0]);
    assert Run(s, cs, 2) == After(Run(s, cs, 1), cs[1]);
  }

  lemma NextVisit(s: Session, before: seq<Command>, t: Session, id: ProcessId)
    requires Run(s, before, |before|) == t && Paired(t) && t.nextProcess == id && id != 1 && id != 2
    ensures Run(s, before + [DoRegister(Visitor()), DoUnregister(id, 0)], |before| + 2) == t.(nextProcess := Next(id))
  {
    RunAppend(s, before, [DoRegister(Visitor()), DoUnregister(id, 0)], 2);
    RunTwo(t, DoRegister(Visitor()), DoUnregister(id, 0));
    VisitLeaves(t, id);
  }

  lemma VisitorIds(m: nat)
    requires 1 <= m && m + 2 <= U32
    ensures (m + 2) % U32 != 1 && (m + 2) % U32 != 2 && Next((m + 2) % U32) == (m + 3) % U32
  {
  }

  lemma {:induction false} VisitsLeave(s: Session, m: nat)
    requires Paired(s) && s.nextProcess == 3 && m + 2 <= U32
    ensures Run(s, Visits(m), 2 * m) == s.(nextProcess := (m + 3) % U32)
  {
    if m > 0 {
      VisitsLeave(s, m - 1);
      VisitorIds(m);
      NextVisit(s, Visits(m - 1), s.(nextProcess := (m + 2) % U32), (m + 2) % U32);
    }
  }

  lemma PairStarts(start: Session, pair: seq<Command>)
    requires start == Started(0) && pair == Pair()
    ensures var s := Run(start, pair, |pair|); Paired(s) && s.nextProcess == 3
  {
    var s1, s2 := After(start, pair[0]), After(After(start, pair[0]), pair[1]);
    assert Run(start, pair, 0) == start && Run(start, pair, 1) == s1 && Run(start, pair, 2) == s2;
    NoCouplers(s2.couplers, 2, 1);
    assert s2.roster[1].offers[0] == SentenceKind && Signature(SentenceMirror).0[2] == SentenceKind;
    assert Overlap(Signature(SentenceMirror).0, s2.roster[1].offers);
    assert Signature(SentenceMirror).1[0] in s2.roster[2].consumes;
    assert Overlap(Signature(SentenceMirror).1, s2.roster[2].consumes);
  }

  lemma NoCouplers(g: Graph, a: ProcessId, b: ProcessId)
    requires g == map[] && a != b
    ensures !Reaches(g, a, b)
  {
  }

  lemma RunOne(s: Session, a: Command)
    ensures Run(s, [a], 1) == After(s, a)
  {
    assert Run(s, [a], 0) == s;
  }

  lemma AfterVisits(start: Session, pair: seq<Command>, visits: seq<Command>, m: nat)
    requires m + 2 <= U32 && Paired(Run(start, pair, |pair|)) && Run(start, pair, |pair|).nextProcess == 3
    requires visits == Visits(m)
    ensures Run(start, pair + visits, |pair + visits|) ==
      Run(start, pair, |pair|).(nextProcess := (m + 3) % U32)
  {
    VisitsLeave(Run(start, pair, |pair|), m);
    RunAppend(start, pair, visits, |visits|);
  }

  lemma LastVisit(start: Session, cs: seq<Command>, t: Session)
    requires Run(start, cs, |cs|) == t && Paired(t) && t.nextProcess == 1
    ensures !Sound(Run(start, cs + [DoRegister(Visitor())], |cs| + 1))
  {
    RunAppend(start, cs, [DoRegister(Visitor())], 1);
    RunOne(t, DoRegister(Visitor()));
    NotServed(t);
  }

  lemma WrapsAround(start: Session, pair: seq<Command>, m: nat) returns (cs: seq<Command>)
    requires m + 2 == U32 && Paired(Run(start, pair, |pair|)) && Run(start, pair, |pair|).nextProcess == 3
    ensures !Sound(Run(start, cs, |cs|))
  {
    var visits := Visits(m);
    AfterVisits(start, pair, visits, m);
    LastVisit(start, pair + visits, Run(start, pair, |pair|).(nextProcess := 1));
    cs := (pair + visits) + [DoRegister(Visitor())];
  }

  // After 2^32 - 2 visits the counter is back at 1: the next process takes the place of a master
  // whose interests it does not offer.
  lemma WrappedRun(start: Session) returns (cs: seq<Command>)
    requires start == Started(0)
    ensures !Sound(Run(start, cs, |cs|))
  {
    var pair := Pair();
    PairStarts(start, pair);
    cs := WrapsAround(start, pair, U32 - 2);
  }

  lemma NotServed(s: Session)
    requires Paired(s) && s.nextProcess == 1
    ensures !Sound(After(s, DoRegister(Visitor())))
  {
    var t := After(s, DoRegister(Visitor()));
    assert 1 in t.couplers && t.roster[1].offers == [];
    assert !Fits(t.roster, t.couplers[1]);
  }
}
