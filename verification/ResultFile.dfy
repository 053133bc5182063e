// crates/montre-daemon/src/storage.rs: the file of named results, one JSON object per line,
// replaced as a whole.
module ResultFile {
  import opened Core

  type Handle = string
  type Name = string

  datatype Form = SessionForm | QueryBacked | Materialized

  datatype Metadata = Metadata(
    handle: Handle, query: string, createdAt: string, materializedAt: Option<string>,
    hitCount: nat, corpusId: string, name: Option<Name>, form: Form)

  datatype Record = Record(handle: Handle, cql: string, hitCount: nat, createdAt: string)

  // One line of JSON and back; parse also covers trimming, and is None for blank and malformed lines.
  datatype Json = Json(write: Metadata -> string, parse: string -> Option<Metadata>)

  ghost predicate ValidJson(j: Json) {
    forall m :: j.parse(j.write(m)) == Some(m) && '\n' !in j.write(m) && '\r' !in j.write(m)
  }

  // ---------------------------------------------------------------------------------
  // The text of the file.

  function MetadataOf(corpusId: string, n: Name, r: Record): Metadata {
    Metadata(r.handle, r.cql, r.createdAt, None, r.hitCount, corpusId, Some(n), QueryBacked)
  }

  function Line(j: Json, corpusId: string, n: Name, r: Record): string {
    j.write(MetadataOf(corpusId, n, r))
  }

  type Records = map<Name, Record>

  function Text(j: Json, corpusId: string, records: Records, order: seq<Name>): string
    requires forall n :: n in order ==> n in records
  {
    if order == [] then []
    else Line(j, corpusId, order[0], records[order[0]]) + "\n" + Text(j, corpusId, records, order[1..])
  }

  function LineEnd(s: string): (i: nat)
    ensures i <= |s| && (i < |s| ==> s[i] == '\n')
    ensures forall k :: 0 <= k < i ==> s[k] != '\n'
  {
    if s == [] || s[0] == '\n' then 0 else 1 + LineEnd(s[1..])
  }

  // Lines end in a line feed, or in a carriage return and a line feed.
  function Lines(s: string): seq<string>
    decreases |s|
  {
    if s == [] then []
    else
      var i := LineEnd(s);
      if i == |s| then [s]
      else [if i > 0 && s[i - 1] == '\r' then s[..i - 1] else s[..i]] + Lines(s[i + 1..])
  }

  // What one line adds.
  function Insert(j: Json, out: Records, line: string): Records {
    var m := j.parse(line);
    if m.None? || m.value.name.None? then out
    else out[m.value.name.value := Record(m.value.handle, m.value.query, m.value.hitCount, m.value.createdAt)]
  }

  function Loaded(j: Json, out: Records, lines: seq<string>): Records
    decreases |lines|
  {
    if lines == [] then out else Loaded(j, Insert(j, out, lines[0]), lines[1..])
  }

  // What replaying the file gives; a missing file gives nothing.
  function Replayed(j: Json, file: Option<string>): Records {
    if file.None? then map[] else Loaded(j, map[], Lines(file.value))
  }

  // load_named_results
  method LoadNamedResults(j: Json, file: Option<string>) returns (out: Records)
    ensures out == Replayed(j, file)
  {
    out := map[];
    if file.None? {
      return;
    }
    var lines := Lines(file.value);
    assert lines[0..] == lines;
    for i := 0 to |lines|
      invariant Loaded(j, map[], lines) == Loaded(j, out, lines[i..])
    {
      assert lines[i..][1..] == lines[i + 1..];
      var m := j.parse(lines[i]);
      if m.Some? && m.value.name.Some? {
        out := out[m.value.name.value := Record(m.value.handle, m.value.query, m.value.hitCount, m.value.createdAt)];
      }
    }
  }

  // ---------------------------------------------------------------------------------
  // Writing and replaying.

  ghost predicate Covers(order: seq<Name>, records: Records) {
    NoDup(order) && forall n :: n in order <==> n in records
  }

  // The file holds these records, in some order.
  ghost predicate Written(j: Json, corpusId: string, file: Option<string>, records: Records) {
    exists order :: Covers(order, records) && file == Some(Text(j, corpusId, records, order))
  }

  lemma LineEndAt(line: string, rest: string)
    requires '\n' !in line
    ensures LineEnd(line + "\n" + rest) == |line|
  {
    var s := line + "\n" + rest;
    assert s[|line|] == '\n';
    assert forall k :: 0 <= k < |line| ==> s[k] == line[k];
  }

  lemma FirstLine(line: string, rest: string)
    requires '\n' !in line && '\r' !in line
    ensures Lines(line + "\n" + rest) == [line] + Lines(rest)
  {
    var s := line + "\n" + rest;
    LineEndAt(line, rest);
    assert s[..|line|] == line && s[|line| + 1..] == rest;
    assert |line| > 0 ==> s[|line| - 1] == line[|line| - 1];
  }

  function WrittenLines(j: Json, corpusId: string, records: Records, order: seq<Name>): seq<string>
    requires forall n :: n in order ==> n in records
  {
    if order == [] then []
    else [Line(j, corpusId, order[0], records[order[0]])] + WrittenLines(j, corpusId, records, order[1..])
  }

  lemma {:induction false} TextLines(j: Json, corpusId: string, records: Records, order: seq<Name>)
    requires ValidJson(j) && forall n :: n in order ==> n in records
    ensures Lines(Text(j, corpusId, records, order)) == WrittenLines(j, corpusId, records, order)
  {
    if order != [] {
      TextLines(j, corpusId, records, order[1..]);
      FirstLine(Line(j, corpusId, order[0], records[order[0]]), Text(j, corpusId, records, order[1..]));
    }
  }

  // out with the records of these names put over it.
  function Over(out: Records, records: Records, order: seq<Name>): (r: Records)
    requires forall n :: n in order ==> n in records
    ensures forall n :: n in r <==> n in out || n in order
    ensures forall n :: n in r ==> r[n] == if n in order then records[n] else out[n]
    decreases |order|
  {
    if order == [] then out else Over(out[order[0] := records[order[0]]], records, order[1..])
  }

  lemma {:induction false} LinesLoad(j: Json, corpusId: string, records: Records, order: seq<Name>, out: Records)
    requires ValidJson(j) && forall n :: n in order ==> n in records
    ensures Loaded(j, out, WrittenLines(j, corpusId, records, order)) == Over(out, records, order)
    decreases |order|
  {
    if order != [] {
      var n := order[0];
      var lines := WrittenLines(j, corpusId, records, order);
      LinesLoad(j, corpusId, records, order[1..], out[n := records[n]]);
      assert lines[1..] == WrittenLines(j, corpusId, records, order[1..]);
      assert Insert(j, out, lines[0]) == out[n := records[n]];
    }
  }

  // Replaying a written file gives back exactly the records, whatever order they were written in.
  lemma WrittenReplays(j: Json, corpusId: string, file: Option<string>, records: Records)
    requires ValidJson(j) && Written(j, corpusId, file, records)
    ensures Replayed(j, file) == records
  {
    var order :| Covers(order, records) && file == Some(Text(j, corpusId, records, order));
    TextLines(j, corpusId, records, order);
    LinesLoad(j, corpusId, records, order, map[]);
    OverAll(records, order);
  }

  lemma OverAll(records: Records, order: seq<Name>)
    requires Covers(order, records)
    ensures Over(map[], records, order) == records
  {
  }

  // ---------------------------------------------------------------------------------
  // write_atomic

  // The step at which writing fails, if it does; a failed write may leave part of the bytes.
  datatype Fault = NoFault | CreateFails | WriteFails(written: nat) | SyncFails | RenameFails

  class Disk {
    var main: Option<string>
    var temporary: Option<string>

    constructor ()
      ensures main == None && temporary == None
    {
      main, temporary := None, None;
    }

    // The file is replaced as a whole or not at all.
    method WriteAtomic(bytes: string, fault: Fault) returns (ok: bool)
      modifies this
      ensures ok <==> fault.NoFault?
      ensures main == if ok then Some(bytes) else old(main)
    {
      if fault.CreateFails? {
        return false;
      }
      temporary := Some("");
      if fault.WriteFails? {
        temporary := Some(if fault.written <= |bytes| then bytes[..fault.written] else bytes);
        return false;
      }
      temporary := Some(bytes);
      if fault.SyncFails? || fault.RenameFails? {
        return false;
      }
      main := temporary;
      temporary := None;
      ok := true;
    }

    // persist_named_results: the records in the order of a hash map, then one more if given.
    method Persist(j: Json, corpusId: string, records: Records, extra: Option<(Name, Record)>, fault: Fault)
      returns (ok: bool)
      requires extra.Some? ==> extra.value.0 !in records
      modifies this
      ensures ok <==> fault.NoFault?
      ensures !ok ==> main == old(main)
      ensures ok ==> Written(j, corpusId, main, WithExtra(records, extra))
    {
      var content, order := Render(j, corpusId, records);
      ghost var all, names := WithExtra(records, extra), order;
      if extra.Some? {
        content := content + Line(j, corpusId, extra.value.0, extra.value.1) + "\n";
        names := order + [extra.value.0];
        RenderedMore(j, corpusId, records, all, order, extra.value.0);
      }
      assert Covers(names, all) && content == Text(j, corpusId, all, names);
      ok := WriteAtomic(content, fault);
    }
  }

  function WithExtra(records: Records, extra: Option<(Name, Record)>): Records {
    if extra.Some? then records[extra.value.0 := extra.value.1] else records
  }

  lemma {:induction false} RenderedMore(j: Json, corpusId: string, records: Records, all: Records, order: seq<Name>,
      n: Name)
    requires n in all && forall m :: m in order ==> m in records && m in all && all[m] == records[m]
    ensures forall m :: m in order + [n] ==> m in all
    ensures Text(j, corpusId, all, order + [n]) ==
      Text(j, corpusId, records, order) + Line(j, corpusId, n, all[n]) + "\n"
  {
    if order == [] {
      assert (order + [n])[1..] == [];
    } else {
      RenderedMore(j, corpusId, records, all, order[1..], n);
      assert (order + [n])[1..] == order[1..] + [n];
      var head := Line(j, corpusId, order[0], all[order[0]]) + "\n";
      var mid, tail := Text(j, corpusId, records, order[1..]), Line(j, corpusId, n, all[n]) + "\n";
      assert head + (mid + tail) == (head + mid) + tail;
      assert mid + Line(j, corpusId, n, all[n]) + "\n" == mid + tail;
      assert (head + mid) + Line(j, corpusId, n, all[n]) + "\n" == (head + mid) + tail;
    }
  }

  method Render(j: Json, corpusId: string, records: Records) returns (content: string, ghost order: seq<Name>)
    ensures Covers(order, records) && content == Text(j, corpusId, records, order)
  {
    content, order := "", [];
    var rest := records.Keys;
    while rest != {}
      invariant NoDup(order) && forall n :: n in records <==> n in order || n in rest
      invariant forall n :: n in rest ==> n !in order
      invariant content == Text(j, corpusId, records, order)
      decreases |rest|
    {
      var n :| n in rest;
      RenderedMore(j, corpusId, records, records, order, n);
      content := content + Line(j, corpusId, n, records[n]) + "\n";
      order, rest := order + [n], rest - {n};
    }
  }
}
