// crates/montre-daemon/src/state.rs: what the state of the daemon says about the commands that led
// to it. Each law says of a state after n commands that something holds there if and only if
// some command brought it about and none has ended it since.
module Histories {
  import opened Core
  import opened Couplers
  import opened Interests
  import opened Sessions

  // Brought about by a command before the n-th, and not ended by a later one.
  ghost predicate Since(on: nat -> bool, off: nat -> bool, n: nat) {
    exists m :: 0 <= m < n && on(m) && Unended(off, m, n)
  }

  ghost predicate Unended(off: nat -> bool, m: nat, n: nat) {
    forall j :: m < j < n ==> !off(j)
  }

  lemma SinceNext(on: nat -> bool, off: nat -> bool, n: nat)
    ensures Since(on, off, n + 1) <==> on(n) || (Since(on, off, n) && !off(n))
  {
    if Since(on, off, n + 1) {
      var m :| 0 <= m < n + 1 && on(m) && Unended(off, m, n + 1);
      assert m < n ==> Unended(off, m, n) && !off(n);
    }
    if on(n) {
      assert Unended(off, n, n + 1);
    } else if Since(on, off, n) && !off(n) {
      var m :| 0 <= m < n && on(m) && Unended(off, m, n);
      assert Unended(off, m, n + 1);
    }
  }

  // ---------------------------------------------------------------------------------
  // Who is on the roster.

  // Registrations that were accepted, among the first n commands.
  function Accepted(cs: seq<Command>, n: nat): nat
    requires n <= |cs|
  {
    if n == 0 then 0
    else
      var c := cs[n - 1];
      Accepted(cs, n - 1) + if c.DoRegister? && c.params.version == PROTOCOL_VERSION then 1 else 0
  }

  // Command m registers a process, and it gets the id p.
  predicate Enrols(cs: seq<Command>, m: nat, p: ProcessId) {
    m < |cs| && cs[m].DoRegister? && cs[m].params.version == PROTOCOL_VERSION && p == (1 + Accepted(cs, m)) % U32
  }

  predicate Leaves(cs: seq<Command>, j: nat, p: ProcessId) {
    j < |cs| && cs[j].DoUnregister? && cs[j].p == p
  }

  function Enrolling(cs: seq<Command>, p: ProcessId): nat -> bool {
    (m: nat) => Enrols(cs, m, p)
  }

  function Leaving(cs: seq<Command>, p: ProcessId): nat -> bool {
    (j: nat) => Leaves(cs, j, p)
  }

  ghost predicate Present(cs: seq<Command>, n: nat, p: ProcessId) {
    Since(Enrolling(cs, p), Leaving(cs, p), n)
  }

  lemma NextAfter(s: Session, c: Command)
    ensures After(s, c).nextProcess ==
      if c.DoRegister? && c.params.version == PROTOCOL_VERSION then Next(s.nextProcess) else s.nextProcess
  {
  }

  lemma NextCounts(a: nat, c: Command, s: Session)
    requires s.nextProcess == (1 + a) % U32
    ensures After(s, c).nextProcess ==
      (1 + (a + if c.DoRegister? && c.params.version == PROTOCOL_VERSION then 1 else 0)) % U32
  {
    NextAfter(s, c);
  }

  lemma {:induction false} IdsCount(now: nat, cs: seq<Command>, n: nat)
    requires n <= |cs|
    ensures Run(Started(now), cs, n).nextProcess == (1 + Accepted(cs, n)) % U32
  {
    if n > 0 {
      IdsCount(now, cs, n - 1);
      NextCounts(Accepted(cs, n - 1), cs[n - 1], Run(Started(now), cs, n - 1));
    }
  }

  // On the roster is who was given the id and has not unregistered since.
  lemma {:induction false} RosterIff(now: nat, cs: seq<Command>, n: nat, p: ProcessId)
    requires n <= |cs|
    ensures p in Run(Started(now), cs, n).roster <==> Present(cs, n, p)
  {
    if n > 0 {
      RosterIff(now, cs, n - 1, p);
      IdsCount(now, cs, n - 1);
      SinceNext(Enrolling(cs, p), Leaving(cs, p), n - 1);
    }
  }

  // Command m gives p this label.
  ghost predicate Labels(cs: seq<Command>, m: nat, p: ProcessId, name: Option<string>) {
    || (Enrols(cs, m, p) && cs[m].params.name == name)
    || (m < |cs| && cs[m] == DoLabel(p, name) && Present(cs, m, p))
  }

  ghost predicate Renames(cs: seq<Command>, j: nat, p: ProcessId) {
    Leaves(cs, j, p) || exists name :: Labels(cs, j, p, name)
  }

  ghost function Labelling(cs: seq<Command>, p: ProcessId, name: Option<string>): nat -> bool {
    (m: nat) => Labels(cs, m, p, name)
  }

  ghost function Renaming(cs: seq<Command>, p: ProcessId): nat -> bool {
    (j: nat) => Renames(cs, j, p)
  }

  ghost predicate Named(s: Session, p: ProcessId, name: Option<string>) {
    p in s.roster && s.roster[p].name == name
  }

  // A process has the label that it registered with or was given last.
  lemma {:induction false} LabelIff(now: nat, cs: seq<Command>, n: nat, p: ProcessId, name: Option<string>)
    requires n <= |cs|
    ensures Named(Run(Started(now), cs, n), p, name) <==>
      Since(Labelling(cs, p, name), Renaming(cs, p), n)
  {
    if n > 0 {
      LabelIff(now, cs, n - 1, p, name);
      LabelStep(now, cs, n - 1, p, name);
      SinceNext(Labelling(cs, p, name), Renaming(cs, p), n - 1);
    }
  }

  lemma NameAfter(s: Session, c: Command, p: ProcessId, name: Option<string>)
    ensures Named(After(s, c), p, name) <==>
      match c
      case DoRegister(params) =>
        if params.version == PROTOCOL_VERSION && p == s.nextProcess then params.name == name else Named(s, p, name)
      case DoUnregister(q, _) => p != q && Named(s, p, name)
      case DoLabel(q, other) => if p == q then p in s.roster && name == other else Named(s, p, name)
      case _ => Named(s, p, name)
  {
  }

  // Command n on the state before it.
  lemma LabelsHere(now: nat, cs: seq<Command>, n: nat, p: ProcessId, s: Session)
    requires n < |cs| && s == Run(Started(now), cs, n)
    ensures Enrols(cs, n, p) <==>
      cs[n].DoRegister? && cs[n].params.version == PROTOCOL_VERSION && p == s.nextProcess
    ensures Present(cs, n, p) <==> p in s.roster
  {
    RosterIff(now, cs, n, p);
    IdsCount(now, cs, n);
  }

  lemma RenamesHere(cs: seq<Command>, n: nat, p: ProcessId)
    requires n < |cs|
    ensures Renames(cs, n, p) <==>
      Leaves(cs, n, p) || Enrols(cs, n, p) || (cs[n].DoLabel? && cs[n].p == p && Present(cs, n, p))
  {
    if Enrols(cs, n, p) {
      assert Labels(cs, n, p, cs[n].params.name);
    } else if cs[n].DoLabel? && cs[n].p == p && Present(cs, n, p) {
      assert Labels(cs, n, p, cs[n].name);
    }
  }

  lemma LabelStep(now: nat, cs: seq<Command>, n: nat, p: ProcessId, name: Option<string>)
    requires n < |cs|
    ensures var s := Run(Started(now), cs, n);
      Named(After(s, cs[n]), p, name) <==> Labels(cs, n, p, name) || (Named(s, p, name) && !Renames(cs, n, p))
  {
    var s := Run(Started(now), cs, n);
    LabelsHere(now, cs, n, p, s);
    RenamesHere(cs, n, p);
    NameAfter(s, cs[n], p, name);
  }

  // Command m publishes this interest of p.
  ghost predicate Shows(now: nat, cs: seq<Command>, m: nat, p: ProcessId, i: Interest) {
    m < |cs| && cs[m] == DoPublish(p, i) && MayPublish(Run(Started(now), cs, m), p, i)
  }

  ghost predicate Forgets(now: nat, cs: seq<Command>, j: nat, p: ProcessId) {
    Leaves(cs, j, p) || Enrols(cs, j, p) || exists i :: Shows(now, cs, j, p, i)
  }

  ghost function Showing(now: nat, cs: seq<Command>, p: ProcessId, i: Interest): nat -> bool {
    (m: nat) => Shows(now, cs, m, p, i)
  }

  ghost function Forgetting(now: nat, cs: seq<Command>, p: ProcessId): nat -> bool {
    (j: nat) => Forgets(now, cs, j, p)
  }

  ghost predicate Interested(s: Session, p: ProcessId, i: Interest) {
    p in s.roster && s.roster[p].interest == Some(i)
  }

  // The interest of a process is the last that it published and that was accepted.
  lemma {:induction false} InterestIff(now: nat, cs: seq<Command>, n: nat, p: ProcessId, i: Interest)
    requires n <= |cs|
    ensures Interested(Run(Started(now), cs, n), p, i) <==>
      Since(Showing(now, cs, p, i), Forgetting(now, cs, p), n)
  {
    if n > 0 {
      InterestIff(now, cs, n - 1, p, i);
      InterestStep(now, cs, n - 1, p, i);
      SinceNext(Showing(now, cs, p, i), Forgetting(now, cs, p), n - 1);
    }
  }

  lemma InterestAfter(s: Session, c: Command, p: ProcessId, i: Interest)
    ensures Interested(After(s, c), p, i) <==>
      match c
      case DoRegister(params) => Interested(s, p, i) && !(params.version == PROTOCOL_VERSION && p == s.nextProcess)
      case DoUnregister(q, _) => p != q && Interested(s, p, i)
      case DoPublish(q, other) => if p == q && MayPublish(s, p, other) then i == other else Interested(s, p, i)
      case _ => Interested(s, p, i)
  {
  }

  lemma ForgetsHere(now: nat, cs: seq<Command>, n: nat, p: ProcessId, s: Session)
    requires n < |cs| && s == Run(Started(now), cs, n)
    ensures Forgets(now, cs, n, p) <==>
      Leaves(cs, n, p) || Enrols(cs, n, p) || (cs[n].DoPublish? && cs[n].p == p && MayPublish(s, p, cs[n].interest))
  {
    if cs[n].DoPublish? && cs[n].p == p && MayPublish(s, p, cs[n].interest) {
      assert Shows(now, cs, n, p, cs[n].interest);
    }
  }

  lemma InterestStep(now: nat, cs: seq<Command>, n: nat, p: ProcessId, i: Interest)
    requires n < |cs|
    ensures var s := Run(Started(now), cs, n);
      Interested(After(s, cs[n]), p, i) <==> Shows(now, cs, n, p, i) || (Interested(s, p, i) && !Forgets(now, cs, n, p))
  {
    var s := Run(Started(now), cs, n);
    LabelsHere(now, cs, n, p, s);
    ForgetsHere(now, cs, n, p, s);
    InterestAfter(s, cs[n], p, i);
  }

  // ---------------------------------------------------------------------------------
  // Since when the roster is empty.

  // Command m, at this time, takes the last process off the roster.
  ghost predicate Empties(cs: seq<Command>, m: nat, time: nat) {
    && m < |cs| && cs[m].DoUnregister? && cs[m].now == time
    && forall p :: Present(cs, m, p) <==> p == cs[m].p
  }

  predicate Fills(cs: seq<Command>, j: nat) {
    j < |cs| && cs[j].DoRegister? && cs[j].params.version == PROTOCOL_VERSION
  }

  ghost function Emptying(cs: seq<Command>, time: nat): nat -> bool {
    (m: nat) => Empties(cs, m, time)
  }

  function Filling(cs: seq<Command>): nat -> bool {
    (j: nat) => Fills(cs, j)
  }

  lemma EmptyAfter(s: Session, c: Command, time: nat)
    requires s.emptiedAt.Some? <==> s.roster == map[]
    ensures After(s, c).emptiedAt == Some(time) <==>
      || (c.DoUnregister? && c.now == time && s.roster.Keys == {c.p})
      || (s.emptiedAt == Some(time) && !(c.DoRegister? && c.params.version == PROTOCOL_VERSION))
  {
    if c.DoUnregister? && c.p in s.roster {
      assert (s.roster - {c.p}).Keys == s.roster.Keys - {c.p};
      assert s.roster - {c.p} == map[] <==> s.roster.Keys - {c.p} == {};
    }
  }

  lemma EmptiesHere(now: nat, cs: seq<Command>, n: nat, time: nat)
    requires n < |cs|
    ensures Empties(cs, n, time) <==>
      cs[n].DoUnregister? && cs[n].now == time && Run(Started(now), cs, n).roster.Keys == {cs[n].p}
  {
    forall p
      ensures Present(cs, n, p) <==> p in Run(Started(now), cs, n).roster
    {
      RosterIff(now, cs, n, p);
    }
  }

  predicate NeverFilled(cs: seq<Command>, n: nat) {
    forall j :: 0 <= j < n ==> !Fills(cs, j)
  }

  // The idle clock shows when the last process left, or the start where none ever came.
  lemma {:induction false} IdleSince(now: nat, cs: seq<Command>, n: nat, time: nat)
    requires n <= |cs| && Registrations(cs, n) + 2 < Sessions.U32
    ensures Run(Started(now), cs, n).emptiedAt == Some(time) <==>
      Since(Emptying(cs, time), Filling(cs), n) || (time == now && NeverFilled(cs, n))
  {
    if n > 0 {
      var s := Run(Started(now), cs, n - 1);
      IdleSince(now, cs, n - 1, time);
      RunSound(now, cs, n - 1);
      EmptyAfter(s, cs[n - 1], time);
      EmptiesHere(now, cs, n - 1, time);
      SinceNext(Emptying(cs, time), Filling(cs), n - 1);
      assert NeverFilled(cs, n) <==> NeverFilled(cs, n - 1) && !Fills(cs, n - 1);
    }
  }

  // ---------------------------------------------------------------------------------
  // Who is subscribed.

  ghost predicate OnRoster(s: Session) {
    && (forall t, p :: t in s.subscriptions && p in s.subscriptions[t] ==> p in s.roster)
    && (forall i :: i in s.couplers ==> s.couplers[i].master in s.roster && s.couplers[i].follower in s.roster)
  }

  lemma RosterAfter(s: Session, c: Command)
    requires OnRoster(s)
    ensures OnRoster(After(s, c))
  {
  }

  lemma {:induction false} StaysOnRoster(now: nat, cs: seq<Command>, n: nat)
    requires n <= |cs|
    ensures OnRoster(Run(Started(now), cs, n))
  {
    if n > 0 {
      StaysOnRoster(now, cs, n - 1);
      RosterAfter(Run(Started(now), cs, n - 1), cs[n - 1]);
    }
  }

  ghost predicate Joins(cs: seq<Command>, m: nat, p: ProcessId, t: Topic) {
    m < |cs| && cs[m] == DoSubscribe(p, t) && Present(cs, m, p)
  }

  predicate Quits(cs: seq<Command>, j: nat, p: ProcessId, t: Topic) {
    Leaves(cs, j, p) || (j < |cs| && cs[j] == DoUnsubscribe(p, t))
  }

  ghost function Joining(cs: seq<Command>, p: ProcessId, t: Topic): nat -> bool {
    (m: nat) => Joins(cs, m, p, t)
  }

  ghost function Quitting(cs: seq<Command>, p: ProcessId, t: Topic): nat -> bool {
    (j: nat) => Quits(cs, j, p, t)
  }

  lemma SubscribedAfter(s: Session, c: Command, p: ProcessId, t: Topic)
    requires OnRoster(s)
    ensures p in Subscribers(After(s, c), t) <==>
      || (c == DoSubscribe(p, t) && p in s.roster)
      || (p in Subscribers(s, t) && c != DoUnsubscribe(p, t) && !(c.DoUnregister? && c.p == p))
  {
  }

  lemma SubscribedStep(now: nat, cs: seq<Command>, n: nat, p: ProcessId, t: Topic)
    requires n < |cs|
    ensures var s := Run(Started(now), cs, n);
      p in Subscribers(After(s, cs[n]), t) <==> Joins(cs, n, p, t) || (p in Subscribers(s, t) && !Quits(cs, n, p, t))
  {
    RosterIff(now, cs, n, p);
    StaysOnRoster(now, cs, n);
    SubscribedAfter(Run(Started(now), cs, n), cs[n], p, t);
  }

  // Subscribed to a topic is who subscribed while on the roster, and has neither unsubscribed nor
  // unregistered since.
  lemma {:induction false} SubscribedIff(now: nat, cs: seq<Command>, n: nat, p: ProcessId, t: Topic)
    requires n <= |cs|
    ensures p in Subscribers(Run(Started(now), cs, n), t) <==>
      Since(Joining(cs, p, t), Quitting(cs, p, t), n)
  {
    if n > 0 {
      SubscribedIff(now, cs, n - 1, p, t);
      SubscribedStep(now, cs, n - 1, p, t);
      SinceNext(Joining(cs, p, t), Quitting(cs, p, t), n - 1);
    }
  }

  // ---------------------------------------------------------------------------------
  // Which couplers there are.

  // Couplings that were not refused, among the first n commands.
  ghost function Couplings(now: nat, cs: seq<Command>, n: nat): nat
    requires n <= |cs|
  {
    if n == 0 then 0 else Couplings(now, cs, n - 1) + if Couples(now, cs, n - 1) then 1 else 0
  }

  // Command m is a coupling that is not refused.
  ghost predicate Couples(now: nat, cs: seq<Command>, m: nat) {
    m < |cs| && cs[m].DoCouple? &&
    Refusal(Run(Started(now), cs, m), cs[m].master, cs[m].follower, cs[m].kind).None?
  }

  // Its coupler gets the id i.
  ghost predicate Takes(now: nat, cs: seq<Command>, m: nat, i: CouplerId) {
    Couples(now, cs, m) && i == (1 + Couplings(now, cs, m)) % U32
  }

  ghost predicate Creates(now: nat, cs: seq<Command>, m: nat, i: CouplerId, c: Coupler) {
    Takes(now, cs, m, i) && c == Coupler(i, cs[m].master, cs[m].follower, cs[m].kind)
  }

  ghost predicate Removes(now: nat, cs: seq<Command>, j: nat, i: CouplerId, c: Coupler) {
    || (j < |cs| && cs[j] == DoUncouple(i)) || Takes(now, cs, j, i)
    || Leaves(cs, j, c.master) || Leaves(cs, j, c.follower)
  }

  ghost predicate Has(s: Session, i: CouplerId, c: Coupler) {
    i in s.couplers && s.couplers[i] == c
  }

  ghost function Creating(now: nat, cs: seq<Command>, i: CouplerId, c: Coupler): nat -> bool {
    (m: nat) => Creates(now, cs, m, i, c)
  }

  ghost function Removing(now: nat, cs: seq<Command>, i: CouplerId, c: Coupler): nat -> bool {
    (j: nat) => Removes(now, cs, j, i, c)
  }

  lemma {:induction false} CouplersCount(now: nat, cs: seq<Command>, n: nat)
    requires n <= |cs|
    ensures Run(Started(now), cs, n).nextCoupler == (1 + Couplings(now, cs, n)) % U32
  {
    if n > 0 {
      CouplersCount(now, cs, n - 1);
    }
  }

  lemma CouplersAfter(s: Session, c: Command, i: CouplerId, k: Coupler, accepted: bool)
    requires OnRoster(s) && (accepted <==> c.DoCouple? && Refusal(s, c.master, c.follower, c.kind).None?)
    ensures Has(After(s, c), i, k) <==>
      if accepted && i == s.nextCoupler then k == Coupler(i, c.master, c.follower, c.kind)
      else Has(s, i, k) && c != DoUncouple(i) && !(c.DoUnregister? && (c.p == k.master || c.p == k.follower))
  {
  }

  // Command n on the state before it.
  ghost predicate CreatesHere(s: Session, c: Command, accepted: bool, i: CouplerId, k: Coupler) {
    accepted && c.DoCouple? && i == s.nextCoupler && k == Coupler(i, c.master, c.follower, c.kind)
  }

  ghost predicate RemovesHere(s: Session, c: Command, accepted: bool, i: CouplerId, k: Coupler) {
    c == DoUncouple(i) || (accepted && i == s.nextCoupler) ||
      (c.DoUnregister? && (c.p == k.master || c.p == k.follower))
  }

  lemma TakesHere(now: nat, cs: seq<Command>, n: nat, i: CouplerId)
    requires n < |cs|
    ensures Takes(now, cs, n, i) <==> Couples(now, cs, n) && i == Run(Started(now), cs, n).nextCoupler
  {
    CouplersCount(now, cs, n);
  }

  lemma SeenHere(now: nat, cs: seq<Command>, n: nat, i: CouplerId, k: Coupler, s: Session, accepted: bool)
    requires n < |cs| && s == Run(Started(now), cs, n) && (accepted <==> Couples(now, cs, n))
    ensures Creates(now, cs, n, i, k) <==> CreatesHere(s, cs[n], accepted, i, k)
    ensures Removes(now, cs, n, i, k) <==> RemovesHere(s, cs[n], accepted, i, k)
  {
    TakesHere(now, cs, n, i);
  }

  lemma CouplerStep(now: nat, cs: seq<Command>, n: nat, i: CouplerId, c: Coupler)
    requires n < |cs|
    ensures var s := Run(Started(now), cs, n);
      Has(After(s, cs[n]), i, c) <==> Creates(now, cs, n, i, c) || (Has(s, i, c) && !Removes(now, cs, n, i, c))
  {
    var s, accepted := Run(Started(now), cs, n), Couples(now, cs, n);
    StaysOnRoster(now, cs, n);
    SeenHere(now, cs, n, i, c, s, accepted);
    CouplersAfter(s, cs[n], i, c, accepted);
  }

  // A coupler is there if it was created and since then neither removed, nor its id taken by
  // another, nor one of its ends unregistered.
  lemma {:induction false} CouplerIff(now: nat, cs: seq<Command>, n: nat, i: CouplerId, c: Coupler)
    requires n <= |cs|
    ensures Has(Run(Started(now), cs, n), i, c) <==>
      Since(Creating(now, cs, i, c), Removing(now, cs, i, c), n)
  {
    if n > 0 {
      CouplerIff(now, cs, n - 1, i, c);
      CouplerStep(now, cs, n - 1, i, c);
      SinceNext(Creating(now, cs, i, c), Removing(now, cs, i, c), n - 1);
    }
  }
}
