// crates/montre-index/src/corpus.rs (surface_text) and crates/montre-daemon/src/handlers/text.rs
// (build_surface_with_tokens): two ways to put the running text of a range together. Texts are
// bytes in UTF-8, and offsets count bytes.
module Surface {
  import opened Core
  import opened Bytes
  import opened Mwt

  const SPACE: Buffer := [32]

  // Multiword tokens, the word of every position, and where no space follows.
  datatype Text = Text(mwts: seq<Entry>, word: nat -> Option<Buffer>, tight: nat -> bool)

  datatype Piece = Piece(text: Buffer, noSpaceAfter: bool)

  // Pieces with a space between neighbours, unless the first of the two forbids it.
  function Line(ps: seq<Piece>): Buffer
    decreases |ps|, 0
  {
    if ps == [] then [] else ps[0].text + After(ps[0].noSpaceAfter, ps[1..])
  }

  function After(noSpace: bool, ps: seq<Piece>): Buffer
    decreases |ps|, 1
  {
    if ps == [] then [] else (if noSpace then [] else SPACE) + Line(ps)
  }

  // ---------------------------------------------------------------------------------
  // What the two functions put together.

  // The multiword token that starts at a position, from index i on.
  function StartingAt(es: seq<Entry>, pos: nat): (r: Option<Entry>)
    ensures r.Some? ==> r.value in es && r.value.start == pos
    ensures r.None? ==> forall e :: e in es ==> e.start != pos
  {
    if es == [] then None else if es[0].start == pos then Some(es[0]) else StartingAt(es[1..], pos)
  }

  predicate InsideAny(es: seq<Entry>, pos: nat) {
    exists i :: 0 <= i < |es| && es[i].start < pos < es[i].end
  }

  function WordPiece(t: Text, pos: nat): Piece {
    Piece(if t.word(pos).Some? then t.word(pos).value else [], t.tight(pos))
  }

  // surface_text: a multiword token stands for its whole range even where that runs over the
  // end, and the rest of one that began earlier is left out.
  ghost function LoosePieces(t: Text, pos: nat, end: nat): seq<Piece>
    requires Sorted(t.mwts)
    decreases end - pos
  {
    if pos >= end then []
    else
      var m := StartingAt(t.mwts, pos);
      if m.Some? then
        StartIsBefore(t.mwts, m.value);
        [Piece(m.value.form, m.value.noSpaceAfter)] + LoosePieces(t, m.value.end, end)
      else if InsideAny(t.mwts, pos) then LoosePieces(t, pos + 1, end)
      else [WordPiece(t, pos)] + LoosePieces(t, pos + 1, end)
  }

  // build_surface_with_tokens: a multiword token stands only where it is whole in the range.
  predicate WholeAt(t: Text, pos: nat, end: nat) {
    StartingAt(t.mwts, pos).Some? && StartingAt(t.mwts, pos).value.end <= end
  }

  function PieceAt(t: Text, pos: nat, end: nat): Piece {
    if WholeAt(t, pos, end) then
      var m := StartingAt(t.mwts, pos).value;
      Piece(m.form, m.noSpaceAfter)
    else WordPiece(t, pos)
  }

  ghost function EndAt(t: Text, pos: nat, end: nat): (r: nat)
    requires Sorted(t.mwts) && pos < end
    ensures pos < r <= end
  {
    if WholeAt(t, pos, end) then
      StartIsBefore(t.mwts, StartingAt(t.mwts, pos).value);
      StartingAt(t.mwts, pos).value.end
    else pos + 1
  }

  ghost function StrictPieces(t: Text, pos: nat, end: nat): seq<Piece>
    requires Sorted(t.mwts)
    decreases end - pos
  {
    if pos >= end then [] else [PieceAt(t, pos, end)] + StrictPieces(t, EndAt(t, pos, end), end)
  }

  lemma StartIsBefore(es: seq<Entry>, e: Entry)
    requires Sorted(es) && e in es
    ensures e.start < e.end
  {
  }

  lemma StartUnique(es: seq<Entry>, e: Entry, pos: nat)
    requires Sorted(es) && e in es && Contains(e, pos) && StartingAt(es, pos).Some?
    ensures StartingAt(es, pos).value == e
  {
    var m := StartingAt(es, pos).value;
    var i :| 0 <= i < |es| && es[i] == e;
    var j :| 0 <= j < |es| && es[j] == m;
    assert !(i < j) && !(j < i);
  }

  // ---------------------------------------------------------------------------------
  // surface_text

  lemma SameStart(es: seq<Entry>, part: seq<Entry>, start: nat, end: nat, lo: nat, hi: nat, pos: nat)
    requires Sorted(es) && start <= pos < end && IsOverlap(es, part, start, end, lo, hi)
    ensures StartingAt(part, pos) == StartingAt(es, pos)
  {
    var m, n := StartingAt(part, pos), StartingAt(es, pos);
    if n.Some? {
      var i :| 0 <= i < |es| && es[i] == n.value;
      assert Overlaps(es[i], start, end);
      assert part[i - lo] == es[i];
      assert m.Some?;
    }
    if m.Some? {
      StartIsBefore(es, m.value);
      StartUnique(es, m.value, pos);
    }
  }

  lemma SameInside(es: seq<Entry>, part: seq<Entry>, start: nat, end: nat, lo: nat, hi: nat, pos: nat)
    requires start <= pos < end && IsOverlap(es, part, start, end, lo, hi)
    ensures InsideAny(part, pos) <==> InsideAny(es, pos)
  {
    if i :| 0 <= i < |es| && es[i].start < pos < es[i].end {
      assert Overlaps(es[i], start, end);
      assert part[i - lo] == es[i];
    }
    if i :| 0 <= i < |part| && part[i].start < pos < part[i].end {
      assert es[lo + i] == part[i];
    }
  }

  // Looking only at the entries that overlap the range makes no difference inside it.
  lemma SubRange(es: seq<Entry>, part: seq<Entry>, start: nat, end: nat, pos: nat)
    requires Sorted(es) && start <= pos < end && exists lo, hi :: IsOverlap(es, part, start, end, lo, hi)
    ensures StartingAt(part, pos) == StartingAt(es, pos)
    ensures InsideAny(part, pos) <==> InsideAny(es, pos)
  {
    var lo, hi :| IsOverlap(es, part, start, end, lo, hi);
    SameStart(es, part, start, end, lo, hi, pos);
    SameInside(es, part, start, end, lo, hi, pos);
  }

  method WritePiece(result: Buffer, suppressSpace: bool, text: Buffer) returns (r: Buffer)
    ensures r == (if suppressSpace then result else result + SPACE) + text
  {
    r := result;
    if !suppressSpace {
      r := r + SPACE;
    }
    r := r + text;
  }

  method SurfaceText(t: Text, start: nat, end: nat) returns (result: Buffer)
    requires Sorted(t.mwts)
    ensures result == Line(LoosePieces(t, start, end))
  {
    var mwts := InRange(t.mwts, start, end);
    result := [];
    var suppressSpace := true;
    var pos := start;
    ghost var whole := Line(LoosePieces(t, start, end));
    FirstPiece(LoosePieces(t, start, end));
    while pos < end
      invariant start <= pos
      invariant whole == result + After(suppressSpace, LoosePieces(t, pos, end))
      decreases end - pos
    {
      SubRange(t.mwts, mwts, start, end, pos);
      var m := StartingAt(mwts, pos);
      if m.Some? {
        StartIsBefore(t.mwts, m.value);
        NextPiece(result, suppressSpace, Piece(m.value.form, m.value.noSpaceAfter), LoosePieces(t, m.value.end, end));
        result := WritePiece(result, suppressSpace, m.value.form);
        suppressSpace := m.value.noSpaceAfter;
        pos := m.value.end;
      } else if InsideAny(mwts, pos) {
        pos := pos + 1;
      } else {
        NextPiece(result, suppressSpace, WordPiece(t, pos), LoosePieces(t, pos + 1, end));
        var word := t.word(pos);
        result := WritePiece(result, suppressSpace, if word.Some? then word.value else []);
        suppressSpace := t.tight(pos);
        pos := pos + 1;
      }
    }
    assert result + [] == result;
  }

  lemma FirstPiece(ps: seq<Piece>)
    ensures [] + After(true, ps) == Line(ps)
  {
  }

  // Writing one more piece, with its space in front.
  lemma NextPiece(before: Buffer, suppress: bool, p: Piece, rest: seq<Piece>)
    ensures before + After(suppress, [p] + rest) ==
      ((if suppress then before else before + SPACE) + p.text) + After(p.noSpaceAfter, rest)
  {
    assert ([p] + rest)[1..] == rest;
    var tail := After(p.noSpaceAfter, rest);
    assert Line([p] + rest) == p.text + tail;
    if suppress {
      assert before + ([] + (p.text + tail)) == (before + p.text) + tail;
    } else {
      assert before + (SPACE + (p.text + tail)) == ((before + SPACE) + p.text) + tail;
    }
  }

  // ---------------------------------------------------------------------------------
  // build_surface_with_tokens

  datatype Row = Row(position: nat, surfaceStart: nat, surfaceEnd: nat, emitted: bool)

  // Inside a multiword token that is whole in the range, but not its first word.
  ghost predicate Silent(t: Text, start: nat, end: nat, pos: nat) {
    exists i :: 0 <= i < |t.mwts| && start <= t.mwts[i].start < pos < t.mwts[i].end <= end
  }

  // One row per position, offsets that never go back, and slices that are the words and forms.
  ghost predicate RowsOk(t: Text, start: nat, pos: nat, end: nat, surface: Buffer, rows: seq<Row>)
    requires Sorted(t.mwts)
  {
    && start + |rows| == pos
    && (forall i :: 0 <= i < |rows| ==> RowOk(t, start, end, surface, rows, i))
    && (forall i :: 0 <= i < |rows| - 1 ==> rows[i].surfaceEnd <= rows[i + 1].surfaceStart)
  }

  ghost predicate RowOk(t: Text, start: nat, end: nat, surface: Buffer, rows: seq<Row>, i: nat)
    requires Sorted(t.mwts) && i < |rows|
  {
    && rows[i].position == start + i
    && rows[i].surfaceStart <= rows[i].surfaceEnd <= |surface|
    && (rows[i].emitted <==> !Silent(t, start, end, start + i))
    && surface[rows[i].surfaceStart..rows[i].surfaceEnd] == if rows[i].emitted then PieceAt(t, start + i, end).text
      else []
  }

  lemma RowsGrow(t: Text, start: nat, pos: nat, end: nat, surface: Buffer, more: Buffer, rows: seq<Row>)
    requires Sorted(t.mwts) && RowsOk(t, start, pos, end, surface, rows)
    ensures RowsOk(t, start, pos, end, surface + more, rows)
  {
    forall i | 0 <= i < |rows|
      ensures RowOk(t, start, end, surface + more, rows, i)
    {
      assert RowOk(t, start, end, surface, rows, i);
      assert (surface + more)[rows[i].surfaceStart..rows[i].surfaceEnd] ==
        surface[rows[i].surfaceStart..rows[i].surfaceEnd];
    }
  }

  lemma RowsNext(t: Text, start: nat, pos: nat, end: nat, surface: Buffer, rows: seq<Row>, row: Row)
    requires Sorted(t.mwts) && RowsOk(t, start, pos, end, surface, rows)
    requires row.position == pos && row.surfaceStart <= row.surfaceEnd <= |surface|
    requires row.emitted <==> !Silent(t, start, end, pos)
    requires surface[row.surfaceStart..row.surfaceEnd] == if row.emitted then PieceAt(t, pos, end).text else []
    requires rows != [] ==> rows[|rows| - 1].surfaceEnd <= row.surfaceStart
    ensures RowsOk(t, start, pos + 1, end, surface, rows + [row])
  {
    forall i | 0 <= i < |rows| + 1
      ensures RowOk(t, start, end, surface, rows + [row], i)
    {
      assert i < |rows| ==> RowOk(t, start, end, surface, rows, i);
    }
  }

  // Rows of the later words of a multiword token: present, but with nothing of their own.
  method SilentRows(t: Text, start: nat, pos: nat, last: nat, end: nat, surface: Buffer, rows: seq<Row>)
    returns (r: seq<Row>)
    requires Sorted(t.mwts) && RowsOk(t, start, pos, end, surface, rows) && pos <= last
    requires forall q :: pos <= q < last ==> Silent(t, start, end, q)
    requires rows != [] && rows[|rows| - 1].surfaceEnd == |surface|
    ensures RowsOk(t, start, last, end, surface, r)
    ensures r != [] && r[|r| - 1].surfaceEnd == |surface|
  {
    r := rows;
    for p := pos to last
      invariant RowsOk(t, start, p, end, surface, r)
      invariant r != [] && r[|r| - 1].surfaceEnd == |surface|
    {
      var row := Row(p, |surface|, |surface|, false);
      assert surface[|surface|..|surface|] == [];
      RowsNext(t, start, p, end, surface, r, row);
      r := r + [row];
    }
  }

  // An emitted row and its text.
  method EmitRow(t: Text, start: nat, pos: nat, end: nat, surface: Buffer, rows: seq<Row>, text: Buffer)
    returns (surface': Buffer, rows': seq<Row>)
    requires Sorted(t.mwts) && RowsOk(t, start, pos, end, surface, rows) && text == PieceAt(t, pos, end).text
    requires !Silent(t, start, end, pos)
    requires rows != [] ==> rows[|rows| - 1].surfaceEnd <= |surface|
    ensures surface' == surface + text && RowsOk(t, start, pos + 1, end, surface', rows')
    ensures rows' != [] && rows'[|rows'| - 1].surfaceEnd == |surface'|
  {
    surface' := surface + text;
    var row := Row(pos, |surface|, |surface'|, true);
    RowsGrow(t, start, pos, end, surface, text, rows);
    assert surface'[|surface|..|surface'|] == text;
    RowsNext(t, start, pos, end, surface', rows, row);
    rows' := rows + [row];
  }

  // A multiword token that is whole in the range, with the rows of all its positions.
  method EmitMwt(t: Text, start: nat, end: nat, surface: Buffer, rows: seq<Row>, m: Entry)
    returns (surface': Buffer, rows': seq<Row>)
    requires Sorted(t.mwts) && start <= m.start < m.end <= end && StartingAt(t.mwts, m.start) == Some(m)
    requires RowsOk(t, start, m.start, end, surface, rows) && !Silent(t, start, end, m.start)
    requires rows != [] ==> rows[|rows| - 1].surfaceEnd <= |surface|
    ensures surface' == surface + m.form && RowsOk(t, start, m.end, end, surface', rows')
    ensures rows' != [] && rows'[|rows'| - 1].surfaceEnd == |surface'|
  {
    surface', rows' := EmitRow(t, start, m.start, end, surface, rows, m.form);
    var i :| 0 <= i < |t.mwts| && t.mwts[i] == m;
    forall q | m.start + 1 <= q < m.end
      ensures Silent(t, start, end, q)
    {
      assert t.mwts[i].start < q < t.mwts[i].end;
    }
    rows' := SilentRows(t, start, m.start + 1, m.end, end, surface', rows');
  }

  // After a whole multiword token, or a word, nothing whole is left half done.
  lemma NotSilentAfter(t: Text, start: nat, end: nat, m: Entry)
    requires Sorted(t.mwts) && m in t.mwts
    ensures !Silent(t, start, end, m.end)
  {
    var i :| 0 <= i < |t.mwts| && t.mwts[i] == m;
    forall j | 0 <= j < |t.mwts|
      ensures !(t.mwts[j].start < m.end < t.mwts[j].end)
    {
      assert j < i ==> t.mwts[j].end <= t.mwts[i].start;
      assert i < j ==> t.mwts[i].end <= t.mwts[j].start;
    }
  }

  lemma NotSilentNext(t: Text, start: nat, end: nat, pos: nat)
    requires Sorted(t.mwts) && !WholeAt(t, pos, end) && !Silent(t, start, end, pos)
    ensures !Silent(t, start, end, pos + 1)
  {
    if i :| 0 <= i < |t.mwts| && start <= t.mwts[i].start < pos + 1 < t.mwts[i].end <= end {
      var m := t.mwts[i];
      if m.start == pos {
        assert Contains(m, pos);
        StartUnique(t.mwts, m, pos);
      }
    }
  }

  // One turn of the loop, but for the space: one piece, with the rows of all its positions.
  method EmitPiece(t: Text, start: nat, position: nat, end: nat, surface: Buffer, rows: seq<Row>)
    returns (surface': Buffer, rows': seq<Row>, next: nat, noSpaceAfter: bool)
    requires Sorted(t.mwts) && start <= position < end && RowsOk(t, start, position, end, surface, rows)
    requires !Silent(t, start, end, position)
    requires rows != [] ==> rows[|rows| - 1].surfaceEnd <= |surface|
    ensures next == EndAt(t, position, end)
    ensures surface' == surface + PieceAt(t, position, end).text &&
      noSpaceAfter == PieceAt(t, position, end).noSpaceAfter
    ensures RowsOk(t, start, next, end, surface', rows') && !Silent(t, start, end, next)
    ensures rows' != [] && rows'[|rows'| - 1].surfaceEnd == |surface'|
  {
    var mwt := Covering(t.mwts, position);
    CoveringStart(t.mwts, mwt, position);
    if mwt.Some? && mwt.value.start == position && mwt.value.end <= end {
      surface', rows' := EmitMwt(t, start, end, surface, rows, mwt.value);
      next, noSpaceAfter := mwt.value.end, mwt.value.noSpaceAfter;
      NotSilentAfter(t, start, end, mwt.value);
    } else {
      var word := t.word(position);
      surface', rows' := EmitRow(t, start, position, end, surface, rows, if word.Some? then word.value else []);
      next, noSpaceAfter := position + 1, t.tight(position);
      NotSilentNext(t, start, end, position);
    }
  }

  method BuildSurfaceWithTokens(t: Text, start: nat, end: nat) returns (surface: Buffer, rows: seq<Row>)
    requires Sorted(t.mwts) && start <= end
    ensures surface == Line(StrictPieces(t, start, end))
    ensures RowsOk(t, start, end, end, surface, rows)
  {
    surface, rows := [], [];
    var position := start;
    ghost var whole := Line(StrictPieces(t, start, end));
    while position < end
      invariant start <= position <= end
      invariant whole == surface + Line(StrictPieces(t, position, end))
      invariant RowsOk(t, start, position, end, surface, rows) && !Silent(t, start, end, position)
      invariant rows != [] ==> rows[|rows| - 1].surfaceEnd <= |surface|
      decreases end - position
    {
      ghost var before := surface;
      var noSpaceAfter;
      ghost var p := PieceAt(t, position, end);
      surface, rows, position, noSpaceAfter := EmitPiece(t, start, position, end, surface, rows);
      LineNext(before, p, StrictPieces(t, position, end));
      PiecesLeft(t, position, end);
      SpaceNext(surface, noSpaceAfter, StrictPieces(t, position, end));
      if position < end && !noSpaceAfter {
        RowsGrow(t, start, position, end, surface, SPACE, rows);
        surface := surface + SPACE;
      }
    }
    assert surface + [] == surface;
  }

  lemma SpaceNext(surface: Buffer, noSpace: bool, rest: seq<Piece>)
    ensures surface + After(noSpace, rest) == (if rest != [] && !noSpace then surface + SPACE else surface) + Line(rest)
  {
    assert (surface + SPACE) + Line(rest) == surface + (SPACE + Line(rest));
    assert surface + ([] + Line(rest)) == surface + Line(rest);
  }

  // The covering entry starts here exactly when an entry starts here.
  lemma CoveringStart(es: seq<Entry>, m: Option<Entry>, pos: nat)
    requires Sorted(es)
    requires m.Some? ==> m.value in es && Contains(m.value, pos)
    requires m.None? ==> forall e :: e in es ==> !Contains(e, pos)
    ensures (m.Some? && m.value.start == pos) <==> StartingAt(es, pos).Some?
    ensures m.Some? && m.value.start == pos ==> StartingAt(es, pos) == m && m.value.end > pos
  {
    if StartingAt(es, pos).Some? {
      var s := StartingAt(es, pos).value;
      StartIsBefore(es, s);
      assert Contains(s, pos);
      StartUnique(es, m.value, pos);
    }
  }

  lemma LineNext(before: Buffer, p: Piece, rest: seq<Piece>)
    ensures before + Line([p] + rest) == (before + p.text) + After(p.noSpaceAfter, rest)
  {
    assert ([p] + rest)[1..] == rest;
    assert before + (p.text + After(p.noSpaceAfter, rest)) == (before + p.text) + After(p.noSpaceAfter, rest);
  }

  lemma PiecesLeft(t: Text, pos: nat, end: nat)
    requires Sorted(t.mwts)
    ensures StrictPieces(t, pos, end) == [] <==> pos >= end
  {
  }

  // ---------------------------------------------------------------------------------
  // The two agree where the range cuts no multiword token.

  ghost predicate Cuts(es: seq<Entry>, pos: nat) {
    exists i :: 0 <= i < |es| && es[i].start < pos < es[i].end
  }

  lemma {:induction false} PiecesAgree(t: Text, pos: nat, end: nat)
    requires Sorted(t.mwts) && !Cuts(t.mwts, pos) && !Cuts(t.mwts, end)
    ensures LoosePieces(t, pos, end) == StrictPieces(t, pos, end)
    decreases end - pos
  {
    if pos < end {
      var m := StartingAt(t.mwts, pos);
      if m.Some? {
        StartIsBefore(t.mwts, m.value);
        WholeHere(t.mwts, m.value, end);
        PiecesAgree(t, m.value.end, end);
        assert WholeAt(t, pos, end);
      } else {
        NextUncut(t.mwts, pos);
        PiecesAgree(t, pos + 1, end);
      }
    }
  }

  lemma WholeHere(es: seq<Entry>, e: Entry, end: nat)
    requires Sorted(es) && e in es && e.start < end && !Cuts(es, end)
    ensures e.end <= end && !Cuts(es, e.end)
  {
    var i :| 0 <= i < |es| && es[i] == e;
    assert !(es[i].start < end < es[i].end);
    forall j | 0 <= j < |es|
      ensures !(es[j].start < e.end < es[j].end)
    {
      assert j < i ==> es[j].end <= es[i].start;
      assert i < j ==> es[i].end <= es[j].start;
    }
  }

  lemma NextUncut(es: seq<Entry>, pos: nat)
    requires Sorted(es) && !Cuts(es, pos) && StartingAt(es, pos).None?
    ensures !Cuts(es, pos + 1)
  {
    forall i | 0 <= i < |es|
      ensures !(es[i].start < pos + 1 < es[i].end)
    {
      assert es[i] in es && es[i].start != pos;
      assert !(es[i].start < pos < es[i].end);
    }
  }

  // Both functions return the same text for a range that cuts no multiword token.
  lemma SurfacesAgree(t: Text, start: nat, end: nat)
    requires Sorted(t.mwts) && !Cuts(t.mwts, start) && !Cuts(t.mwts, end)
    ensures Line(LoosePieces(t, start, end)) == Line(StrictPieces(t, start, end))
  {
    PiecesAgree(t, start, end);
  }

  // ---------------------------------------------------------------------------------
  // On every other range some words make them differ: surface_text leaves out the rest of a
  // multiword token cut at the start and writes the whole form of one cut at the end.

  ghost predicate AgreeOnAllWords(es: seq<Entry>, start: nat, end: nat)
    requires Sorted(es)
  {
    forall word: nat -> Option<Buffer>, tight: nat -> bool ::
      Line(LoosePieces(Text(es, word, tight), start, end)) == Line(StrictPieces(Text(es, word, tight), start, end))
  }

  // surface_text never looks at the words below a multiword token.
  lemma {:induction false} LooseIgnores(t: Text, u: Text, m: Entry, q: nat, pos: nat, end: nat)
    requires Sorted(t.mwts) && u.mwts == t.mwts && m in t.mwts && Contains(m, q)
    requires forall p: nat :: p != q ==> WordPiece(u, p) == WordPiece(t, p)
    ensures LoosePieces(u, pos, end) == LoosePieces(t, pos, end)
    decreases end - pos
  {
    if pos < end {
      var s := StartingAt(t.mwts, pos);
      if s.Some? {
        StartIsBefore(t.mwts, s.value);
        LooseIgnores(t, u, m, q, s.value.end, end);
      } else {
        NotPlain(t.mwts, m, pos);
        LooseIgnores(t, u, m, q, pos + 1, end);
      }
    }
  }

  lemma NotPlain(es: seq<Entry>, m: Entry, pos: nat)
    requires m in es && StartingAt(es, pos).None?
    ensures Contains(m, pos) ==> InsideAny(es, pos)
  {
    var i :| 0 <= i < |es| && es[i] == m;
    assert es[i].start != pos;
  }

  lemma PieceInLine(p: Piece, rest: seq<Piece>)
    ensures |Line([p] + rest)| >= |p.text| && |Line([p] + rest)| >= |Line(rest)|
  {
    LineNext([], p, rest);
    assert [] + Line([p] + rest) == Line([p] + rest);
  }

  // build_surface_with_tokens writes the word at q, which begins a cut multiword token or is
  // where the range begins.
  lemma {:induction false} StrictWrites(t: Text, pos: nat, end: nat, q: nat)
    requires Sorted(t.mwts) && pos <= q < end && !WholeAt(t, q, end)
    requires pos < q ==> StartingAt(t.mwts, q).Some?
    ensures |Line(StrictPieces(t, pos, end))| >= |PieceAt(t, q, end).text|
    decreases q - pos
  {
    var next := EndAt(t, pos, end);
    PieceInLine(PieceAt(t, pos, end), StrictPieces(t, next, end));
    if pos < q {
      if WholeAt(t, pos, end) {
        Disjoint(t.mwts, StartingAt(t.mwts, pos).value, StartingAt(t.mwts, q).value);
      }
      StrictWrites(t, next, end, q);
    }
  }

  lemma Disjoint(es: seq<Entry>, a: Entry, b: Entry)
    requires Sorted(es) && a in es && b in es && a.start < b.start
    ensures a.end <= b.start
  {
    var i :| 0 <= i < |es| && es[i] == a;
    var j :| 0 <= j < |es| && es[j] == b;
    assert i != j;
  }

  // The word that only the second function writes.
  lemma CutWord(es: seq<Entry>, start: nat, end: nat) returns (q: nat, m: Entry)
    requires Sorted(es) && start < end && (Cuts(es, start) || Cuts(es, end))
    ensures start <= q < end && m in es && Contains(m, q)
    ensures start < q ==> StartingAt(es, q).Some?
    ensures StartingAt(es, q).Some? ==> StartingAt(es, q).value.end > end
  {
    if i :| 0 <= i < |es| && es[i].start < start < es[i].end {
      q, m := start, es[i];
      if StartingAt(es, q).Some? {
        StartUnique(es, m, q);
      }
    } else {
      var i :| 0 <= i < |es| && es[i].start < end < es[i].end;
      q, m := es[i].start, es[i];
      assert m in es;
      assert StartingAt(es, q).Some?;
      StartUnique(es, m, q);
    }
  }

  // u differs from t in one word only, but that word is long.
  lemma LongWordShows(t: Text, u: Text, start: nat, end: nat, m: Entry, q: nat)
    requires Sorted(t.mwts) && u.mwts == t.mwts && m in t.mwts && Contains(m, q)
    requires start <= q < end && !WholeAt(t, q, end) && (start < q ==> StartingAt(t.mwts, q).Some?)
    requires forall p: nat :: p != q ==> WordPiece(u, p) == WordPiece(t, p)
    requires |WordPiece(u, q).text| > |Line(LoosePieces(t, start, end))|
    ensures Line(LoosePieces(u, start, end)) != Line(StrictPieces(u, start, end))
  {
    LooseIgnores(t, u, m, q, start, end);
    StrictWrites(u, start, end, q);
    assert !WholeAt(u, q, end);
  }

  function OnlyWord(q: nat, w: Buffer): nat -> Option<Buffer> {
    p => if p == q then Some(w) else None
  }

  function AlwaysTight(): nat -> bool {
    _ => true
  }

  lemma CutWordShows(es: seq<Entry>, start: nat, end: nat)
    requires Sorted(es) && start < end && (Cuts(es, start) || Cuts(es, end))
    ensures !AgreeOnAllWords(es, start, end)
  {
    var q, m := CutWord(es, start, end);
    var t := Text(es, OnlyWord(q, []), AlwaysTight());
    var size := |Line(LoosePieces(t, start, end))|;
    var long: Buffer := seq(size + 1, _ => 120);
    var u := Text(es, OnlyWord(q, long), AlwaysTight());
    LongWordShows(t, u, start, end, m, q);
  }

  // The two functions agree, whatever the words, exactly on the ranges that cut nothing.
  lemma AgreeIffUncut(es: seq<Entry>, start: nat, end: nat)
    requires Sorted(es)
    ensures AgreeOnAllWords(es, start, end) <==> start >= end || (!Cuts(es, start) && !Cuts(es, end))
  {
    if start >= end {
    } else if Cuts(es, start) || Cuts(es, end) {
      CutWordShows(es, start, end);
    } else {
      forall word: nat -> Option<Buffer>, tight: nat -> bool
        ensures Line(LoosePieces(Text(es, word, tight), start, end)) ==
          Line(StrictPieces(Text(es, word, tight), start, end))
      {
        SurfacesAgree(Text(es, word, tight), start, end);
      }
    }
  }
}
