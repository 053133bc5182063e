// crates/montre-daemon/src/state.rs: what becomes of a saved result, through materialization,
// crashes and restarts.
module SavedNames {
  import opened Core
  import opened ResultFile
  import opened NamedResults

  // A save that is not refused, written to the file.
  ghost predicate SavesAs(j: Json, corpusId: string, s: Store, h: Handle, n: Name, t: Store) {
    && SaveRefusal(s, h, n, NoFault).None?
    && t == Saved(s, h, n, t.file) && Written(j, corpusId, t.file, t.named)
  }

  // Saved, loading gives the same result under its name; after a restart it gives the query, the
  // handle and the date, to be replayed. The hits are as before.
  lemma SavedLoads(j: Json, corpusId: string, s: Store, h: Handle, n: Name, t: Store)
    requires ValidJson(j) && SavesAs(j, corpusId, s, h, n, t)
    ensures var e := s.results[h];
      && Loading(t, n) == Done(Realized(e.metadata.(name := Some(n), form := QueryBacked)))
      && Loading(Restarted(j, t), n) == Done(Pending(h, e.cql, e.metadata.createdAt))
      && t.results[h].hits == e.hits && t.results[h].cql == e.cql
  {
    WrittenReplays(j, corpusId, t.file, t.named);
  }

  // A query result that is saved is listed after a restart with its query, its date and the number
  // of its hits.
  lemma InsertedIsListed(j: Json, corpusId: string, s: Store, h: Handle, cql: string, hits: seq<Hit>, now: string,
      n: Name, t: Store)
    requires ValidJson(j) && SavesAs(j, corpusId, Inserted(s, corpusId, h, cql, hits, now), h, n, t)
    ensures n in Restarted(j, t).named
    ensures Listed(Restarted(j, t), corpusId, n) ==
      Metadata(h, cql, now, None, |hits|, corpusId, Some(n), QueryBacked)
    ensures Listed(t, corpusId, n) == Listed(Restarted(j, t), corpusId, n) && t.results[h].hits == hits
  {
    WrittenReplays(j, corpusId, t.file, t.named);
  }

  // A name that is saved cannot be saved again, before a restart or after.
  lemma SavedOnce(j: Json, corpusId: string, s: Store, h: Handle, n: Name, t: Store, other: Handle, fault: Fault)
    requires ValidJson(j) && SavesAs(j, corpusId, s, h, n, t)
    ensures SaveRefusal(t, other, n, fault) == Some(NameTaken)
    ensures SaveRefusal(Restarted(j, t), other, n, fault) == Some(NameTaken)
  {
    WrittenReplays(j, corpusId, t.file, t.named);
  }

  // Materializing dates the result and leaves its query and hits; the second time it is refused,
  // and the first date stays.
  lemma MaterializedOnce(s: Store, n: Name, now: string, later: string)
    requires MaterializeRefusal(s, n).None?
    ensures var t, h := AfterMaterialize(s, n, now), s.named[n].handle;
      && MaterializeRefusal(t, n) == Some(AlreadyMaterialized) && AfterMaterialize(t, n, later) == t
      && t.results[h] == s.results[h].(metadata := s.results[h].metadata.(form := Materialized,
                                                                          materializedAt := Some(now)))
      && t.named == s.named && t.file == s.file
  {
  }

  // ---------------------------------------------------------------------------------
  // Over whole runs.

  // What both stores have under the name is the same.
  ghost predicate SameRecord(s: Store, t: Store, n: Name) {
    n in s.named && n in t.named ==> t.named[n] == s.named[n]
  }

  lemma UpdateSame(j: Json, corpusId: string, s: Store, u: Store, n: Name)
    requires ValidJson(j) && (SaveStep(j, corpusId, s, u) || DeleteStep(j, corpusId, s, u))
    ensures SameRecord(s, u, n) && Replayed(j, u.file) == u.named
  {
    WrittenReplays(j, corpusId, u.file, u.named);
  }

  // No step puts another result under a name that it keeps.
  lemma StepSameRecord(j: Json, corpusId: string, s: Store, t: Store, n: Name)
    requires ValidJson(j) && Sound(j, s) && Step(j, corpusId, s, t)
    ensures SameRecord(s, t, n)
  {
    if SaveStep(j, corpusId, s, t) || DeleteStep(j, corpusId, s, t) {
      UpdateSame(j, corpusId, s, t, n);
    } else if CrashStep(j, corpusId, s, t) && t.file != s.file {
      var u: Store :| (SaveStep(j, corpusId, s, u) || DeleteStep(j, corpusId, s, u)) && t.file == u.file;
      UpdateSame(j, corpusId, s, u, n);
    }
  }

  // A run of steps, each command's outcome or a crash.
  ghost predicate Steps(j: Json, corpusId: string, run: seq<Store>) {
    forall i :: 0 <= i < |run| - 1 ==> Step(j, corpusId, run[i], run[i + 1])
  }

  lemma {:induction false} RecordKept(j: Json, corpusId: string, run: seq<Store>, a: nat, b: nat, n: Name, r: Record)
    requires ValidJson(j) && a <= b < |run| && Sound(j, run[a]) && Steps(j, corpusId, run)
    requires (forall i :: a <= i <= b ==> n in run[i].named) && run[a].named[n] == r
    ensures Sound(j, run[b]) && run[b].named[n] == r
    decreases b
  {
    if a < b {
      RecordKept(j, corpusId, run, a, b - 1, n, r);
      assert Step(j, corpusId, run[b - 1], run[b - 1 + 1]);
      StepKeeps(j, corpusId, run[b - 1], run[b]);
      StepSameRecord(j, corpusId, run[b - 1], run[b], n);
    }
  }

  lemma ReplayedLoads(j: Json, s: Store, n: Name)
    requires Sound(j, s) && n in s.named
    ensures var r := s.named[n];
      Loading(Restarted(j, s), n) == Done(Pending(r.handle, r.cql, r.createdAt))
  {
  }

  // As long as a name is there, it stands for the result that was saved under it: whatever the
  // commands, failures and crashes between, loading it after a restart gives the saved query.
  lemma RecordStays(j: Json, corpusId: string, run: seq<Store>, a: nat, b: nat, n: Name)
    requires ValidJson(j) && a <= b < |run| && Sound(j, run[a]) && Steps(j, corpusId, run)
    requires forall i :: a <= i <= b ==> n in run[i].named
    ensures Sound(j, run[b]) && run[b].named[n] == run[a].named[n]
    ensures var r := run[a].named[n];
      Loading(Restarted(j, run[b]), n) == Done(Pending(r.handle, r.cql, r.createdAt))
  {
    RecordKept(j, corpusId, run, a, b, n, run[a].named[n]);
    ReplayedLoads(j, run[b], n);
  }

  lemma SavedStays(j: Json, corpusId: string, s: Store, h: Handle, n: Name, run: seq<Store>, b: nat)
    requires ValidJson(j) && Sound(j, s) && b < |run| && SavesAs(j, corpusId, s, h, n, run[0])
    requires Steps(j, corpusId, run) && forall i :: 0 <= i <= b ==> n in run[i].named
    ensures var e := s.results[h];
      Loading(Restarted(j, run[b]), n) == Done(Pending(h, e.cql, e.metadata.createdAt))
  {
    assert SaveStep(j, corpusId, s, run[0]);
    SaveKeeps(j, corpusId, s, run[0]);
    RecordStays(j, corpusId, run, 0, b, n);
  }
}
