// crates/montre-daemon/src/state.rs: query results in memory, the names under which some of
// them are kept, and the file that makes the names durable.
module NamedResults {
  import opened Core
  import opened ResultFile

  datatype Hit = Hit(document: nat, start: nat, end: nat)
  datatype Entry = Entry(cql: string, hits: seq<Hit>, metadata: Metadata)

  type Results = map<Handle, Entry>

  datatype Error = NameTaken | NameNotFound | HandleInvalid | AlreadyMaterialized | PersistFailure
  datatype Reply<+T> = Done(value: T) | Refused(error: Error)

  datatype LoadOutcome = Realized(metadata: Metadata) | Pending(handle: Handle, cql: string, createdAt: string)

  // Names and results in memory, and the file.
  datatype Store = Store(named: Records, results: Results, file: Option<string>)

  // ---------------------------------------------------------------------------------
  // The commands, on values.

  function SessionMetadata(corpusId: string, handle: Handle, cql: string, hits: seq<Hit>, now: string): Metadata {
    Metadata(handle, cql, now, None, |hits|, corpusId, None, SessionForm)
  }

  function Inserted(s: Store, corpusId: string, handle: Handle, cql: string, hits: seq<Hit>, now: string): Store {
    s.(results := s.results[handle := Entry(cql, hits, SessionMetadata(corpusId, handle, cql, hits, now))])
  }

  function Promoted(e: Entry, name: Name): Entry {
    e.(metadata := e.metadata.(name := Some(name), form := QueryBacked))
  }

  function RecordOf(handle: Handle, e: Entry): Record {
    Record(handle, e.cql, e.metadata.hitCount, e.metadata.createdAt)
  }

  // Names and results after a successful save.
  function Saved(s: Store, handle: Handle, name: Name, file: Option<string>): Store
    requires handle in s.results
  {
    Store(s.named[name := RecordOf(handle, s.results[handle])], s.results[handle := Promoted(s.results[handle], name)],
      file)
  }

  function SaveRefusal(s: Store, handle: Handle, name: Name, fault: Fault): Option<Error> {
    if name in s.named then Some(NameTaken)
    else if handle !in s.results then Some(HandleInvalid)
    else if !fault.NoFault? then Some(PersistFailure)
    else None
  }

  function MaterializeRefusal(s: Store, name: Name): Option<Error> {
    if name !in s.named then Some(NameNotFound)
    else if s.named[name].handle !in s.results then Some(HandleInvalid)
    else if s.results[s.named[name].handle].metadata.form.Materialized? then Some(AlreadyMaterialized)
    else None
  }

  function MaterializedEntry(e: Entry, now: string): Entry {
    e.(metadata := e.metadata.(form := Materialized, materializedAt := Some(now)))
  }

  function AfterMaterialize(s: Store, name: Name, now: string): Store {
    if MaterializeRefusal(s, name).Some? then s
    else
      var h := s.named[name].handle;
      s.(results := s.results[h := MaterializedEntry(s.results[h], now)])
  }

  function Loading(s: Store, name: Name): Reply<LoadOutcome> {
    if name !in s.named then Refused(NameNotFound)
    else
      var r := s.named[name];
      if r.handle in s.results then Done(Realized(s.results[r.handle].metadata))
      else Done(Pending(r.handle, r.cql, r.createdAt))
  }

  function Installed(s: Store, e: Entry): Store {
    s.(results := s.results[e.metadata.handle := e])
  }

  function Deleted(s: Store, name: Name, file: Option<string>): Store
    requires name in s.named
  {
    Store(s.named - {name}, s.results - {s.named[name].handle}, file)
  }

  function Discarded(s: Store, handle: Handle): Store {
    if handle in s.results && s.results[handle].metadata.form.SessionForm? then s.(results := s.results - {handle})
      else s
  }

  function Restarted(j: Json, s: Store): Store {
    Store(Replayed(j, s.file), map[], s.file)
  }

  // What list_named says of a name.
  function Listed(s: Store, corpusId: string, name: Name): Metadata
    requires name in s.named
  {
    var r := s.named[name];
    if r.handle in s.results then s.results[r.handle].metadata else MetadataOf(corpusId, name, r)
  }

  // ---------------------------------------------------------------------------------

  class State {
    const json: Json
    const corpusId: string
    const disk: Disk
    var named: Records
    var results: Results

    ghost function View(): Store
      reads this, disk
    {
      Store(named, results, disk.main)
    }

    // A daemon that starts, or starts again: names come from the file, results are gone.
    constructor (json: Json, corpusId: string, disk: Disk)
      ensures this.json == json && this.corpusId == corpusId && this.disk == disk
      ensures View() == Restarted(json, Store(map[], map[], disk.main))
    {
      this.json, this.corpusId, this.disk := json, corpusId, disk;
      results := map[];
      named := map[];
      new;
      var replayed := LoadNamedResults(json, disk.main);
      named := replayed;
    }

    method InsertResult(handle: Handle, cql: string, hits: seq<Hit>, now: string) returns (m: Metadata)
      modifies this
      ensures View() == Inserted(old(View()), corpusId, handle, cql, hits, now)
      ensures FreshHandle(old(View()), handle) ==> Step(json, corpusId, old(View()), View())
      ensures m == SessionMetadata(corpusId, handle, cql, hits, now)
    {
      m := SessionMetadata(corpusId, handle, cql, hits, now);
      results := results[handle := Entry(cql, hits, m)];
    }

    method SaveResult(handle: Handle, name: Name, fault: Fault) returns (r: Reply<Metadata>)
      modifies this, disk
      ensures var refusal := SaveRefusal(old(View()), handle, name, fault);
        && (refusal.Some? ==> r == Refused(refusal.value) && View() == old(View()))
        && (refusal.None? ==>
          && handle in results && r == Done(results[handle].metadata)
          && View() == Saved(old(View()), handle, name, disk.main)
          && Written(json, corpusId, disk.main, named))
      ensures Step(json, corpusId, old(View()), View())
    {
      if name in named {
        return Refused(NameTaken);
      }
      if handle !in results {
        return Refused(HandleInvalid);
      }
      var promoted := Promoted(results[handle], name);
      var record := Record(handle, promoted.cql, promoted.metadata.hitCount, promoted.metadata.createdAt);
      var ok := disk.Persist(json, corpusId, named, Some((name, record)), fault);
      if !ok {
        return Refused(PersistFailure);
      }
      results := results[handle := promoted];
      named := named[name := record];
      r := Done(promoted.metadata);
    }

    method MaterializeResult(name: Name, now: string) returns (r: Reply<Metadata>)
      modifies this
      ensures View() == AfterMaterialize(old(View()), name, now)
      ensures Step(json, corpusId, old(View()), View())
      ensures var refusal := MaterializeRefusal(old(View()), name);
        if refusal.Some? then r == Refused(refusal.value) else r == Done(results[named[name].handle].metadata)
    {
      if name !in named {
        return Refused(NameNotFound);
      }
      var handle := named[name].handle;
      if handle !in results {
        return Refused(HandleInvalid);
      }
      var existing := results[handle];
      if existing.metadata.form.Materialized? {
        return Refused(AlreadyMaterialized);
      }
      var promoted := existing.(metadata := existing.metadata.(form := Materialized, materializedAt := Some(now)));
      results := results[handle := promoted];
      r := Done(promoted.metadata);
    }

    method LoadNamed(name: Name) returns (r: Reply<LoadOutcome>)
      ensures r == Loading(View(), name)
    {
      if name !in named {
        return Refused(NameNotFound);
      }
      var record := named[name];
      if record.handle in results {
        return Done(Realized(results[record.handle].metadata));
      }
      r := Done(Pending(record.handle, record.cql, record.createdAt));
    }

    method InstallReplayed(e: Entry)
      modifies this
      ensures View() == Installed(old(View()), e)
      ensures e.metadata.form.QueryBacked? ==> Step(json, corpusId, old(View()), View())
    {
      results := results[e.metadata.handle := e];
    }

    method DeleteNamed(name: Name, fault: Fault) returns (r: Reply<bool>)
      modifies this, disk
      ensures name !in old(named) ==> r == Refused(NameNotFound) && View() == old(View())
      ensures name in old(named) && !fault.NoFault? ==> r == Refused(PersistFailure) && View() == old(View())
      ensures name in old(named) && fault.NoFault? ==>
        && r == Done(true) && View() == Deleted(old(View()), name, disk.main)
        && Written(json, corpusId, disk.main, named)
      ensures Step(json, corpusId, old(View()), View())
    {
      if name !in named {
        return Refused(NameNotFound);
      }
      var handle := named[name].handle;
      var ok := disk.Persist(json, corpusId, named - {name}, None, fault);
      if !ok {
        return Refused(PersistFailure);
      }
      named := named - {name};
      results := results - {handle};
      r := Done(true);
    }

    method DiscardHandle(handle: Handle)
      modifies this
      ensures View() == Discarded(old(View()), handle)
      ensures Step(json, corpusId, old(View()), View())
    {
      if handle !in results {
        return;
      }
      if results[handle].metadata.form.SessionForm? {
        results := results - {handle};
      }
    }
  }

  // ---------------------------------------------------------------------------------
  // What every run keeps.

  // Replaying the file gives the names in memory, and a result that a name refers to is not a
  // session result.
  ghost predicate Sound(j: Json, s: Store) {
    && Replayed(j, s.file) == s.named
    && (forall h :: h in s.results ==> s.results[h].metadata.handle == h)
    && forall n :: n in s.named ==> Kept(s, s.named[n].handle)
  }

  ghost predicate Kept(s: Store, h: Handle) {
    h in s.results ==> !s.results[h].metadata.form.SessionForm?
  }

  ghost predicate NameOf(s: Store, n: Name, h: Handle) {
    n in s.named && s.named[n].handle == h
  }

  // A result that a name refers to carries one of the names of its handle.
  ghost predicate Labelled(s: Store) {
    forall n :: n in s.named ==> CarriesName(s, s.named[n].handle)
  }

  ghost predicate CarriesName(s: Store, h: Handle) {
    h in s.results ==> s.results[h].metadata.name.Some? && NameOf(s, s.results[h].metadata.name.value, h)
  }

  // Handles are drawn at random: a new one is not in use.
  ghost predicate FreshHandle(s: Store, h: Handle) {
    h !in s.results && forall n :: n in s.named ==> s.named[n].handle != h
  }

  // A replayed result arrives before its name is gone, if another name shares the handle.
  ghost predicate Timely(s: Store, e: Entry) {
    forall n :: n in s.named && s.named[n].handle == e.metadata.handle ==>
      e.metadata.name.Some? && NameOf(s, e.metadata.name.value, e.metadata.handle)
  }

  ghost predicate SaveStep(j: Json, corpusId: string, s: Store, t: Store) {
    exists h, n :: h in s.results && n !in s.named && t == Saved(s, h, n, t.file) &&
      Written(j, corpusId, t.file, t.named)
  }

  ghost predicate DeleteStep(j: Json, corpusId: string, s: Store, t: Store) {
    exists n :: n in s.named && t == Deleted(s, n, t.file) && Written(j, corpusId, t.file, t.named)
  }

  // The daemon dies, possibly while it replaces the file: the file is the old one, or the one
  // it was about to become; then it starts again.
  ghost predicate CrashStep(j: Json, corpusId: string, s: Store, t: Store) {
    && t == Restarted(j, Store(map[], map[], t.file))
    && (t.file == s.file || exists u: Store ::
      (SaveStep(j, corpusId, s, u) || DeleteStep(j, corpusId, s, u)) && t.file == u.file)
  }

  // One command, a failed one, or a crash.
  ghost predicate Step(j: Json, corpusId: string, s: Store, t: Store) {
    || t == s
    || QuietStep(corpusId, s, t)
    || SaveStep(j, corpusId, s, t)
    || (exists n, now :: t == AfterMaterialize(s, n, now))
    || DeleteStep(j, corpusId, s, t)
    || CrashStep(j, corpusId, s, t)
  }

  // The steps that leave names and file alone.
  ghost predicate QuietStep(corpusId: string, s: Store, t: Store) {
    || (exists h, cql, hits, now :: FreshHandle(s, h) && t == Inserted(s, corpusId, h, cql, hits, now))
    || (exists e: Entry :: e.metadata.form.QueryBacked? && t == Installed(s, e))
    || (exists h :: t == Discarded(s, h))
  }

  lemma SaveKeeps(j: Json, corpusId: string, s: Store, t: Store)
    requires ValidJson(j) && Sound(j, s) && SaveStep(j, corpusId, s, t)
    ensures Sound(j, t)
  {
    var h, n :| h in s.results && n !in s.named && t == Saved(s, h, n, t.file) && Written(j, corpusId, t.file, t.named);
    WrittenReplays(j, corpusId, t.file, t.named);
    forall m | m in t.named
      ensures Kept(t, t.named[m].handle)
    {
      if m != n {
        assert Kept(s, s.named[m].handle);
      }
    }
  }

  lemma DeleteKeeps(j: Json, corpusId: string, s: Store, t: Store)
    requires ValidJson(j) && Sound(j, s) && DeleteStep(j, corpusId, s, t)
    ensures Sound(j, t)
  {
    var n :| n in s.named && t == Deleted(s, n, t.file) && Written(j, corpusId, t.file, t.named);
    WrittenReplays(j, corpusId, t.file, t.named);
    forall m | m in t.named
      ensures Kept(t, t.named[m].handle)
    {
      assert Kept(s, s.named[m].handle);
    }
  }

  lemma MaterializeKeeps(j: Json, s: Store, n: Name, now: string)
    requires Sound(j, s)
    ensures Sound(j, AfterMaterialize(s, n, now))
  {
    var t := AfterMaterialize(s, n, now);
    forall m | m in t.named
      ensures Kept(t, t.named[m].handle)
    {
      assert Kept(s, s.named[m].handle);
    }
  }

  lemma ResultsKeep(j: Json, s: Store, t: Store)
    requires Sound(j, s) && t.named == s.named && t.file == s.file
    requires forall h :: h in t.results ==> t.results[h].metadata.handle == h
    requires forall n :: n in s.named ==>
      var h := s.named[n].handle; h in t.results ==> (h in s.results && t.results[h] == s.results[h]) || Kept(t, h)
    ensures Sound(j, t)
  {
    forall n | n in t.named
      ensures Kept(t, t.named[n].handle)
    {
      assert Kept(s, s.named[n].handle);
    }
  }

  // Discarding never removes a result that a name refers to.
  lemma DiscardSpares(j: Json, s: Store, h: Handle, n: Name)
    requires Sound(j, s) && n in s.named && s.named[n].handle in s.results
    ensures s.named[n].handle in Discarded(s, h).results
    ensures Discarded(s, h).results[s.named[n].handle] == s.results[s.named[n].handle]
    ensures Discarded(s, h).named == s.named
  {
    assert Kept(s, s.named[n].handle);
  }

  // Every step keeps the file and the memory in agreement; a crash in the middle of a save or
  // a deletion leaves the names as they were before or as they would have been after.
  lemma QuietKeeps(j: Json, corpusId: string, s: Store, t: Store)
    requires Sound(j, s) && QuietStep(corpusId, s, t)
    ensures Sound(j, t)
  {
    if h, cql, hits, now :| FreshHandle(s, h) && t == Inserted(s, corpusId, h, cql, hits, now) {
      ResultsKeep(j, s, t);
    } else if e: Entry :| e.metadata.form.QueryBacked? && t == Installed(s, e) {
      ResultsKeep(j, s, t);
    } else if h :| t == Discarded(s, h) {
      ResultsKeep(j, s, t);
    }
  }

  lemma StepKeeps(j: Json, corpusId: string, s: Store, t: Store)
    requires ValidJson(j) && Sound(j, s) && Step(j, corpusId, s, t)
    ensures Sound(j, t)
  {
    if SaveStep(j, corpusId, s, t) {
      SaveKeeps(j, corpusId, s, t);
    } else if DeleteStep(j, corpusId, s, t) {
      DeleteKeeps(j, corpusId, s, t);
    } else if n, now :| t == AfterMaterialize(s, n, now) {
      MaterializeKeeps(j, s, n, now);
    } else if QuietStep(corpusId, s, t) {
      QuietKeeps(j, corpusId, s, t);
    }
  }

  lemma {:induction false} RunSound(j: Json, corpusId: string, run: seq<Store>, n: nat)
    requires ValidJson(j) && n < |run| && run[0] == Restarted(j, run[0])
    requires forall i :: 0 <= i < |run| - 1 ==> Step(j, corpusId, run[i], run[i + 1])
    ensures Sound(j, run[n]) && Replayed(j, run[n].file) == run[n].named
  {
    if n > 0 {
      RunSound(j, corpusId, run, n - 1);
      StepKeeps(j, corpusId, run[n - 1], run[n]);
    }
  }

  // What a crash leaves is what the interrupted command started from or was going to reach.
  lemma CrashIsAtomic(j: Json, corpusId: string, s: Store, t: Store)
    requires ValidJson(j) && Sound(j, s) && CrashStep(j, corpusId, s, t)
    ensures t.named == s.named || exists u: Store ::
      (SaveStep(j, corpusId, s, u) || DeleteStep(j, corpusId, s, u)) && t.named == u.named
  {
    if t.file != s.file {
      var u: Store :| (SaveStep(j, corpusId, s, u) || DeleteStep(j, corpusId, s, u)) && t.file == u.file;
      if SaveStep(j, corpusId, s, u) {
        SaveKeeps(j, corpusId, s, u);
      } else {
        DeleteKeeps(j, corpusId, s, u);
      }
    }
  }

  // ---------------------------------------------------------------------------------
  // One handle under several names.

  // Deleting a name leaves the result of another name alone if and only if the two do not
  // share a result in memory.
  lemma DeleteSparesIff(s: Store, a: Name, b: Name, file: Option<string>)
    requires a in s.named && b in s.named && a != b
    ensures Loading(Deleted(s, a, file), b) == Loading(s, b) <==>
      s.named[a].handle != s.named[b].handle || s.named[b].handle !in s.results
  {
  }

  // It happens: one result saved under two names, one name deleted, and the result that the
  // other name refers to is gone from memory.
  lemma DeleteCanDropOther(j: Json, corpusId: string, hits: seq<Hit>)
    requires ValidJson(j)
    ensures exists s, a, b, file ::
      && Sound(j, s) && a in s.named && b in s.named && a != b
      && Loading(s, b).Done? && Loading(s, b).value.Realized?
      && Loading(Deleted(s, a, file), b).Done? && Loading(Deleted(s, a, file), b).value.Pending?
  {
    var empty := Store(map[], map[], None);
    var s0 := Inserted(empty, corpusId, "r", "[]", hits, "t");
    var s1, order1 := SaveOne(j, corpusId, s0, "r", "a", []);
    var s2, order2 := SaveOne(j, corpusId, s1, "r", "b", order1);
    assert Sound(j, empty);
    ResultsKeep(j, empty, s0);
    SaveKeeps(j, corpusId, s0, s1);
    SaveKeeps(j, corpusId, s1, s2);
    assert Loading(s2, "b").value.Realized?;
    assert Loading(Deleted(s2, "a", s2.file), "b").value.Pending?;
  }

  lemma SaveOne(j: Json, corpusId: string, s: Store, h: Handle, n: Name, order: seq<Name>)
    returns (t: Store, order': seq<Name>)
    requires h in s.results && n !in s.named && Covers(order, s.named)
    ensures t == Saved(s, h, n, t.file) && SaveStep(j, corpusId, s, t) && Covers(order', t.named)
  {
    order' := order + [n];
    var named := s.named[n := RecordOf(h, s.results[h])];
    t := Saved(s, h, n, Some(Text(j, corpusId, named, order')));
    assert Covers(order', named);
    assert Written(j, corpusId, t.file, t.named);
  }

  // The names that list_named reports.
  ghost predicate Reports(s: Store, corpusId: string, n: Name) {
    exists m :: m in s.named && Listed(s, corpusId, m).name == Some(n)
  }

  // Two names share a result that is in memory.
  ghost predicate Sharing(s: Store) {
    exists a, b :: a in s.named && b in s.named && a != b && s.named[a].handle == s.named[b].handle &&
      s.named[a].handle in s.results
  }

  // Listing reports exactly the names if and only if no two of them share a result in memory.
  lemma ListsAllNamesIff(corpusId: string, s: Store)
    requires Labelled(s)
    ensures (forall n :: Reports(s, corpusId, n) <==> n in s.named) <==> !Sharing(s)
  {
    if Sharing(s) {
      var a, b :| a in s.named && b in s.named && a != b && s.named[a].handle == s.named[b].handle &&
        s.named[a].handle in s.results;
      var h := s.named[a].handle;
      assert CarriesName(s, h);
      var m := s.results[h].metadata.name.value;
      NotReported(corpusId, s, if m == a then b else a, h);
    } else {
      forall n
        ensures Reports(s, corpusId, n) <==> n in s.named
      {
        if n in s.named {
          assert CarriesName(s, s.named[n].handle);
          assert Listed(s, corpusId, n).name == Some(n);
        }
        if m :| m in s.named && Listed(s, corpusId, m).name == Some(n) {
          assert CarriesName(s, s.named[m].handle);
        }
      }
    }
  }

  lemma NotReported(corpusId: string, s: Store, n: Name, h: Handle)
    requires Labelled(s) && NameOf(s, n, h) && h in s.results && s.results[h].metadata.name != Some(n)
    ensures n in s.named && !Reports(s, corpusId, n)
  {
    forall m | m in s.named
      ensures Listed(s, corpusId, m).name != Some(n)
    {
      assert CarriesName(s, s.named[m].handle);
    }
  }

  // Installing a replayed result keeps the labels if and only if the name it carries still
  // refers to it, or no name does.
  lemma InstalledLabelledIff(s: Store, e: Entry)
    requires Labelled(s)
    ensures Labelled(Installed(s, e)) <==> Timely(s, e)
  {
    var t, h := Installed(s, e), e.metadata.handle;
    assert h in t.results && t.results[h] == e;
    forall n | n in s.named && s.named[n].handle != h
      ensures CarriesName(t, t.named[n].handle)
    {
      assert CarriesName(s, s.named[n].handle);
    }
    forall n | n in s.named && s.named[n].handle == h
      ensures CarriesName(t, t.named[n].handle) <==> e.metadata.name.Some? && NameOf(s, e.metadata.name.value, h)
    {
    }
  }

  lemma QuietLabelled(corpusId: string, s: Store, t: Store)
    requires Labelled(s) && QuietStep(corpusId, s, t)
    requires forall e: Entry :: e.metadata.form.QueryBacked? && t == Installed(s, e) ==> Timely(s, e)
    ensures Labelled(t)
  {
    if h, cql, hits, now :| FreshHandle(s, h) && t == Inserted(s, corpusId, h, cql, hits, now) {
      ResultsLabelled(s, t);
    } else if e: Entry :| e.metadata.form.QueryBacked? && t == Installed(s, e) {
      InstalledLabelledIff(s, e);
    } else if h :| t == Discarded(s, h) {
      ResultsLabelled(s, t);
    }
  }

  // Every step but a late replay keeps the labels.
  lemma StepLabelled(j: Json, corpusId: string, s: Store, t: Store)
    requires Labelled(s) && Step(j, corpusId, s, t)
    requires forall e: Entry :: e.metadata.form.QueryBacked? && t == Installed(s, e) ==> Timely(s, e)
    ensures Labelled(t)
  {
    if SaveStep(j, corpusId, s, t) {
      SaveLabelled(j, corpusId, s, t);
    } else if DeleteStep(j, corpusId, s, t) {
      DeleteLabelled(j, corpusId, s, t);
    } else if n, now :| t == AfterMaterialize(s, n, now) {
      ResultsLabelled(s, t);
    } else if QuietStep(corpusId, s, t) {
      QuietLabelled(corpusId, s, t);
    }
  }

  lemma ResultsLabelled(s: Store, t: Store)
    requires Labelled(s) && t.named == s.named
    requires forall n :: n in s.named ==>
      var h := s.named[n].handle;
      h in t.results ==>
        (h in s.results && t.results[h].metadata.name == s.results[h].metadata.name) || CarriesName(t, h)
    ensures Labelled(t)
  {
    forall n | n in t.named
      ensures CarriesName(t, t.named[n].handle)
    {
      assert CarriesName(s, s.named[n].handle);
    }
  }

  lemma SaveLabelled(j: Json, corpusId: string, s: Store, t: Store)
    requires Labelled(s) && SaveStep(j, corpusId, s, t)
    ensures Labelled(t)
  {
    forall n | n in t.named
      ensures CarriesName(t, t.named[n].handle)
    {
      if n in s.named {
        assert CarriesName(s, s.named[n].handle);
      }
    }
  }

  lemma DeleteLabelled(j: Json, corpusId: string, s: Store, t: Store)
    requires Labelled(s) && DeleteStep(j, corpusId, s, t)
    ensures Labelled(t)
  {
    forall n | n in t.named
      ensures CarriesName(t, t.named[n].handle)
    {
      assert CarriesName(s, s.named[n].handle);
    }
  }

  // A replay that arrives after its name was deleted labels the result that another name
  // refers to with the deleted name, and listing then reports it.
  lemma LateReplayMislabels(j: Json, corpusId: string, s: Store, e: Entry, b: Name)
    requires Sound(j, s) && b in s.named && s.named[b].handle == e.metadata.handle
    requires e.metadata.form.QueryBacked? && e.metadata.name.Some? && e.metadata.name.value !in s.named
    ensures Sound(j, Installed(s, e)) && Reports(Installed(s, e), corpusId, e.metadata.name.value)
    ensures e.metadata.name.value !in Installed(s, e).named
  {
    ResultsKeep(j, s, Installed(s, e));
    assert Listed(Installed(s, e), corpusId, b).name == e.metadata.name;
  }

  lemma DeleteOne(j: Json, corpusId: string, s: Store, n: Name, order: seq<Name>) returns (t: Store)
    requires n in s.named && Covers(order, s.named - {n})
    ensures t == Deleted(s, n, t.file) && DeleteStep(j, corpusId, s, t)
  {
    t := Deleted(s, n, Some(Text(j, corpusId, s.named - {n}, order)));
  }

  lemma SavedTwice(j: Json, corpusId: string, hits: seq<Hit>) returns (s: Store)
    requires ValidJson(j)
    ensures Sound(j, s) && s.named == map["a" := Record("r", "[]", |hits|, "t"), "b" := Record("r", "[]", |hits|, "t")]
  {
    var empty := Store(map[], map[], None);
    var s0 := Inserted(empty, corpusId, "r", "[]", hits, "t");
    var s1, order1 := SaveOne(j, corpusId, s0, "r", "a", []);
    var s2, order2 := SaveOne(j, corpusId, s1, "r", "b", order1);
    ResultsKeep(j, empty, s0);
    SaveKeeps(j, corpusId, s0, s1);
    SaveKeeps(j, corpusId, s1, s2);
    s := s2;
  }

  // It happens: a result saved as a and b, a restart, a replay of a begun, a deleted, and the
  // replay installed.
  lemma LateReplayHappens(j: Json, corpusId: string, hits: seq<Hit>) returns (s: Store, t: Store, e: Entry)
    requires ValidJson(j)
    ensures Sound(j, s) && Loading(s, "a") == Done(Pending(e.metadata.handle, e.cql, e.metadata.createdAt))
    ensures DeleteStep(j, corpusId, s, t) && Step(j, corpusId, t, Installed(t, e))
    ensures "a" !in t.named && Reports(Installed(t, e), corpusId, "a")
  {
    var twice := SavedTwice(j, corpusId, hits);
    s := Restarted(j, twice);
    assert s.named == twice.named;
    e := Entry("[]", hits, MetadataOf(corpusId, "a", s.named["a"]));
    assert s.named - {"a"} == map["b" := s.named["b"]];
    t := DeleteOne(j, corpusId, s, "a", ["b"]);
    DeleteKeeps(j, corpusId, s, t);
    LateReplayMislabels(j, corpusId, t, e, "b");
    assert QuietStep(corpusId, t, Installed(t, e));
  }
}
