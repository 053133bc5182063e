// crates/montre-index/src/corpus.rs (surface_text): what the text of a range says, read off the
// words, the multiword tokens and the spacing directly, and off the input documents where the
// index is a built one.
module RunningText {
  import opened Core
  import opened Bytes
  import opened Mwt
  import opened Surface
  import Inputs
  import opened Layers
  import Mapped
  import opened RoundTrip
  import S = Sink
  import SinkFacts
  import Stored

  // ---------------------------------------------------------------------------------
  // Texts join where no multiword token is cut.

  function Gap(tight: bool): Buffer {
    if tight then [] else SPACE
  }

  // No space belongs before position q.
  ghost predicate TightBefore(t: Text, q: nat)
    requires q > 0
  {
    || (exists e :: e in t.mwts && e.end == q && e.noSpaceAfter)
    || ((forall e :: e in t.mwts ==> e.end != q) && t.tight(q - 1))
  }

  lemma LineStep(p: Piece, rest: seq<Piece>)
    requires rest != []
    ensures Line([p] + rest) == p.text + Gap(p.noSpaceAfter) + Line(rest)
  {
    LineOf(p, rest);
    AppendAssoc(p.text, Gap(p.noSpaceAfter), Line(rest));
  }

  lemma LineOf(p: Piece, rest: seq<Piece>)
    ensures Line([p] + rest) == p.text + After(p.noSpaceAfter, rest)
  {
    assert ([p] + rest)[1..] == rest && ([p] + rest)[0] == p;
  }

  lemma Regrouped(a: Buffer, b: Buffer, c: Buffer, d: Buffer, e: Buffer)
    ensures a + b + (c + d + e) == (a + b + c) + d + e
  {
  }

  lemma {:induction false} LinesJoin(a: seq<Piece>, b: seq<Piece>)
    requires a != [] && b != []
    ensures Line(a + b) == Line(a) + Gap(a[|a| - 1].noSpaceAfter) + Line(b)
  {
    var p, rest := a[0], a[1..];
    assert a == [p] + rest && a + b == [p] + (rest + b);
    LineStep(p, rest + b);
    if rest == [] {
      assert rest + b == b;
      LineNext([], p, []);
    } else {
      LinesJoin(rest, b);
      LineStep(p, rest);
      Regrouped(p.text, Gap(p.noSpaceAfter), Line(rest), Gap(a[|a| - 1].noSpaceAfter), Line(b));
    }
  }

  // The pieces of one turn of surface_text, and where the next turn begins.
  ghost function Turn(t: Text, pos: nat): (r: (seq<Piece>, nat))
    requires Sorted(t.mwts)
    ensures pos < r.1
  {
    var m := StartingAt(t.mwts, pos);
    if m.Some? then
      StartIsBefore(t.mwts, m.value);
      ([Piece(m.value.form, m.value.noSpaceAfter)], m.value.end)
    else (if InsideAny(t.mwts, pos) then [] else [WordPiece(t, pos)], pos + 1)
  }

  lemma LooseTurn(t: Text, pos: nat, end: nat)
    requires Sorted(t.mwts) && pos < end
    ensures LoosePieces(t, pos, end) == Turn(t, pos).0 + LoosePieces(t, Turn(t, pos).1, end)
  {
  }

  lemma TurnFits(t: Text, pos: nat, q: nat)
    requires Sorted(t.mwts) && pos < q && !Surface.Cuts(t.mwts, q)
    ensures Turn(t, pos).1 <= q
  {
    var m := StartingAt(t.mwts, pos);
    if m.Some? {
      WholeHere(t.mwts, m.value, q);
    }
  }

  lemma {:induction false} PiecesSplit(t: Text, start: nat, q: nat, end: nat)
    requires Sorted(t.mwts) && start <= q <= end && !Surface.Cuts(t.mwts, q)
    ensures LoosePieces(t, start, end) == LoosePieces(t, start, q) + LoosePieces(t, q, end)
    decreases q - start
  {
    if start < q {
      var turn := Turn(t, start);
      LooseTurn(t, start, end);
      LooseTurn(t, start, q);
      TurnFits(t, start, q);
      PiecesSplit(t, turn.1, q, end);
      var a, b := LoosePieces(t, turn.1, q), LoosePieces(t, q, end);
      AppendAssoc(turn.0, a, b);
    }
  }

  lemma UncutBegins(t: Text, start: nat, end: nat)
    requires Sorted(t.mwts) && start < end && !Surface.Cuts(t.mwts, start)
    ensures LoosePieces(t, start, end) != []
  {
  }

  lemma EndsTight(t: Text, e: Entry)
    requires Sorted(t.mwts) && e in t.mwts
    ensures e.end > 0 && (TightBefore(t, e.end) <==> e.noSpaceAfter)
  {
    StartIsBefore(t.mwts, e);
    forall x | x in t.mwts && x.end == e.end
      ensures x == e
    {
      var i :| 0 <= i < |t.mwts| && t.mwts[i] == x;
      var j :| 0 <= j < |t.mwts| && t.mwts[j] == e;
      assert !(i < j) && !(j < i);
    }
  }

  lemma NoneEnds(es: seq<Entry>, pos: nat)
    requires Sorted(es) && !Surface.Cuts(es, pos) && StartingAt(es, pos).None?
    ensures forall e :: e in es ==> e.end != pos + 1
  {
    forall e | e in es
      ensures e.end != pos + 1
    {
      var i :| 0 <= i < |es| && es[i] == e;
      assert !(es[i].start < pos < es[i].end) && e.start != pos && e.start < e.end;
    }
  }

  // A turn that begins at no cut writes one piece, ends at no cut, and knows the space after it.
  lemma TurnUncut(t: Text, pos: nat, q: nat)
    requires Sorted(t.mwts) && pos < q && !Surface.Cuts(t.mwts, pos) && !Surface.Cuts(t.mwts, q)
    ensures var (ps, next) := Turn(t, pos);
      |ps| == 1 && next <= q && !Surface.Cuts(t.mwts, next) && (ps[0].noSpaceAfter <==> TightBefore(t, next))
  {
    var m := StartingAt(t.mwts, pos);
    if m.Some? {
      WholeHere(t.mwts, m.value, q);
      EndsTight(t, m.value);
    } else {
      NextUncut(t.mwts, pos);
      NoneEnds(t.mwts, pos);
    }
  }

  // The last piece of a range says whether a space belongs after it.
  lemma {:induction false} LastPiece(t: Text, start: nat, q: nat)
    requires Sorted(t.mwts) && start < q && !Surface.Cuts(t.mwts, start) && !Surface.Cuts(t.mwts, q)
    ensures var ps := LoosePieces(t, start, q);
      ps != [] && (ps[|ps| - 1].noSpaceAfter <==> TightBefore(t, q))
    decreases q - start
  {
    LooseTurn(t, start, q);
    TurnUncut(t, start, q);
    var next := Turn(t, start).1;
    if next < q {
      LastPiece(t, next, q);
    } else {
      assert LoosePieces(t, next, q) == [];
    }
  }

  // The text of a range is the texts of its two parts, with a space between them unless the
  // word or the multiword token before forbids it.
  lemma TextJoins(t: Text, start: nat, q: nat, end: nat)
    requires Sorted(t.mwts) && start < q < end && !Surface.Cuts(t.mwts, start) && !Surface.Cuts(t.mwts, q)
    ensures Line(LoosePieces(t, start, end)) ==
      Line(LoosePieces(t, start, q)) + Gap(TightBefore(t, q)) + Line(LoosePieces(t, q, end))
  {
    PiecesSplit(t, start, q, end);
    LastPiece(t, start, q);
    UncutBegins(t, q, end);
    LinesJoin(LoosePieces(t, start, q), LoosePieces(t, q, end));
  }

  // The text of a multiword token is its form.
  lemma FormText(t: Text, e: Entry)
    requires Sorted(t.mwts) && e in t.mwts
    ensures Line(LoosePieces(t, e.start, e.end)) == e.form
  {
    StartIsBefore(t.mwts, e);
    StartUnique(t.mwts, e, e.start);
    LineNext([], Piece(e.form, e.noSpaceAfter), []);
    assert [Piece(e.form, e.noSpaceAfter)] + [] == [Piece(e.form, e.noSpaceAfter)];
    assert LoosePieces(t, e.end, e.end) == [];
  }

  // ---------------------------------------------------------------------------------
  // Ranges without multiword tokens.

  ghost predicate Free(es: seq<Entry>, start: nat, end: nat) {
    forall e :: e in es ==> !Overlaps(e, start, end)
  }

  function OrNothing(w: Option<Buffer>): Buffer {
    if w.Some? then w.value else []
  }

  // The words one after the other, read from the end.
  function Words(t: Text, start: nat, end: nat): Buffer
    requires start <= end
    decreases end
  {
    if start == end then []
    else
      var word := OrNothing(t.word(end - 1));
      if start == end - 1 then word
      else Words(t, start, end - 1) + Gap(t.tight(end - 2)) + word
  }

  // The pieces of the words.
  function Plain(t: Text, start: nat, end: nat): (r: seq<Piece>)
    requires start <= end
    ensures |r| == end - start
    decreases end
  {
    if start == end then [] else Plain(t, start, end - 1) + [WordPiece(t, end - 1)]
  }

  lemma FreeHere(es: seq<Entry>, start: nat, pos: nat, end: nat)
    requires Sorted(es) && start <= pos < end && Free(es, start, end)
    ensures StartingAt(es, pos).None? && !InsideAny(es, pos)
  {
    if StartingAt(es, pos).Some? {
      StartIsBefore(es, StartingAt(es, pos).value);
    }
    forall i | 0 <= i < |es|
      ensures !(es[i].start < pos < es[i].end)
    {
      assert es[i] in es;
    }
  }

  // surface_text writes the words one by one, from any position of the range on.
  lemma {:induction false} LooseIsPlain(t: Text, start: nat, pos: nat, end: nat)
    requires Sorted(t.mwts) && start <= pos <= end && Free(t.mwts, start, end)
    ensures Plain(t, start, pos) + LoosePieces(t, pos, end) == Plain(t, start, end)
    decreases end - pos
  {
    if pos < end {
      FreeHere(t.mwts, start, pos, end);
      LooseIsPlain(t, start, pos + 1, end);
      AppendAssoc(Plain(t, start, pos), [WordPiece(t, pos)], LoosePieces(t, pos + 1, end));
    } else {
      AppendNothing(Plain(t, start, end));
    }
  }

  lemma LastPlain(t: Text, start: nat, end: nat)
    requires start < end
    ensures Plain(t, start, end)[end - start - 1].noSpaceAfter == t.tight(end - 1)
  {
  }

  lemma PlainStep(t: Text, start: nat, end: nat)
    requires start < end - 1
    ensures Line(Plain(t, start, end)) ==
      Line(Plain(t, start, end - 1)) + Gap(t.tight(end - 2)) + OrNothing(t.word(end - 1))
  {
    LastPlain(t, start, end - 1);
    LinesJoin(Plain(t, start, end - 1), [WordPiece(t, end - 1)]);
    LineOne(WordPiece(t, end - 1));
  }

  lemma {:induction false} PlainLine(t: Text, start: nat, end: nat)
    requires start <= end
    ensures Line(Plain(t, start, end)) == Words(t, start, end)
    decreases end
  {
    if start < end - 1 {
      PlainLine(t, start, end - 1);
      PlainStep(t, start, end);
    } else if start < end {
      AppendNothing([WordPiece(t, start)]);
      LineOne(WordPiece(t, start));
    }
  }

  lemma LineOne(p: Piece)
    ensures Line([p]) == p.text
  {
    AppendNothing(p.text);
  }

  lemma UncutEnds(es: seq<Entry>, start: nat, end: nat)
    requires Sorted(es) && start < end && Free(es, start, end)
    ensures !Surface.Cuts(es, start) && !Surface.Cuts(es, end)
  {
    forall i | 0 <= i < |es|
      ensures !(es[i].start < start < es[i].end) && !(es[i].start < end < es[i].end)
    {
      assert es[i] in es;
    }
  }

  // Both functions write the words, with a space between two of them unless the first forbids it.
  lemma PlainText(t: Text, start: nat, end: nat)
    requires Sorted(t.mwts) && start <= end && Free(t.mwts, start, end)
    ensures Line(LoosePieces(t, start, end)) == Words(t, start, end)
    ensures Line(StrictPieces(t, start, end)) == Words(t, start, end)
  {
    LooseIsPlain(t, start, start, end);
    AppendNothing(LoosePieces(t, start, end));
    PlainLine(t, start, end);
    if start < end {
      UncutEnds(t.mwts, start, end);
      SurfacesAgree(t, start, end);
    }
  }

  // ---------------------------------------------------------------------------------
  // The text of a built index.

  // What the corpus of a written index hands to surface_text.
  ghost function TextOfBuilt(k: Codec, e: Order, m: Mapped.MappedForward, s: S.Index): Text {
    Text(s.mwts, p => Mapped.GetStr(k, e, m, p, S.WORD), p => p in s.spacing)
  }

  // The words of the tokens from start to end, a space after each but the last and those that
  // say there is none.
  function Spoken(ts: seq<S.Token>, start: nat, end: nat): Buffer
    requires start <= end <= |ts|
    decreases end
  {
    if start == end then []
    else if start == end - 1 then ts[start].word
    else Spoken(ts, start, end - 1) + Gap(ts[end - 2].spaceAfterNo) + ts[end - 1].word
  }

  // t has the words and the spacing of these tokens.
  ghost predicate Says(t: Text, ts: seq<S.Token>) {
    forall p: nat {:trigger t.word(p)} :: p < |ts| ==>
      OrNothing(t.word(p)) == ts[p].word && t.tight(p) == ts[p].spaceAfterNo
  }

  // One word more on both sides.
  lemma SameNext(a: Buffer, b: Buffer, tight: bool, tight': bool, word: Buffer, word': Buffer)
    requires a == b && tight == tight' && word == word'
    ensures a + Gap(tight) + word == b + Gap(tight') + word'
  {
  }

  lemma {:induction false} WordsAreSpoken(t: Text, ts: seq<S.Token>, start: nat, end: nat)
    requires start <= end <= |ts| && Says(t, ts)
    ensures Words(t, start, end) == Spoken(ts, start, end)
    decreases end
  {
    if start == end {
    } else if start == end - 1 {
      SaidAt(t, ts, start);
    } else {
      WordsAreSpoken(t, ts, start, end - 1);
      SaidAt(t, ts, end - 2);
      SaidAt(t, ts, end - 1);
      SameNext(Words(t, start, end - 1), Spoken(ts, start, end - 1), t.tight(end - 2), ts[end - 2].spaceAfterNo,
        OrNothing(t.word(end - 1)), ts[end - 1].word);
    }
  }

  lemma SaidAt(t: Text, ts: seq<S.Token>, p: nat)
    requires p < |ts| && Says(t, ts)
    ensures OrNothing(t.word(p)) == ts[p].word && t.tight(p) == ts[p].spaceAfterNo
  {
  }

  lemma WordCell(decompose: bool, ts: seq<S.Token>, p: nat)
    requires p < |ts|
    ensures OrNothing(Stored.TextOf(Stored.CellOf(decompose, ts, S.WORD, p))) == ts[p].word
  {
    Stored.ColumnCell(decompose, ts, S.WORD, p);
  }

  lemma BuiltWord(k: Codec, e: Order, o: S.Options, ds: seq<S.Document>, m: Mapped.MappedForward,
      names: seq<Buffer>, p: nat)
    requires p < U32 && p < |SinkFacts.TokensOf(ds)| && ValidCodec(k) && Stored.OpenedDirect(k, e, o, ds, m, names)
    ensures OrNothing(Mapped.GetStr(k, e, m, p, S.WORD)) == SinkFacts.TokensOf(ds)[p].word
  {
    Stored.WrittenReads(k, e, o, ds, S.WORD, m, names, p);
    WordCell(o.decompose, SinkFacts.TokensOf(ds), p);
  }

  lemma BuiltSays(k: Codec, e: Order, o: S.Options, ds: seq<S.Document>, m: Mapped.MappedForward,
      names: seq<Buffer>, s: S.Index)
    requires ValidCodec(k) && Stored.OpenedDirect(k, e, o, ds, m, names) && |SinkFacts.TokensOf(ds)| <= U32
    requires s.spacing == Inputs.TightTokens(SinkFacts.TokensOf(ds))
    ensures Says(TextOfBuilt(k, e, m, s), SinkFacts.TokensOf(ds))
  {
    var t, ts := TextOfBuilt(k, e, m, s), SinkFacts.TokensOf(ds);
    forall p: nat | p < |ts|
      ensures OrNothing(t.word(p)) == ts[p].word && t.tight(p) == ts[p].spaceAfterNo
    {
      BuiltWord(k, e, o, ds, m, names, p);
    }
  }

  // Documents built, written and opened: the text of a range without multiword tokens is the
  // words of its tokens, with spaces except where the input says that there is none.
  lemma BuiltText(k: Codec, e: Order, o: S.Options, ds: seq<S.Document>, m: Mapped.MappedForward,
      names: seq<Buffer>, start: nat, end: nat)
    requires ValidCodec(k) && Stored.OpenedDirect(k, e, o, ds, m, names)
    requires forall i :: 0 <= i < |ds| ==> SinkFacts.ReadWell(ds[i])
    requires start <= end <= |SinkFacts.TokensOf(ds)| <= U32 && Free(Inputs.EntriesOf(ds, |ds|), start, end)
    ensures var s := S.Built(o, S.Empty(true), ds);
      && Sorted(s.mwts)
      && Line(LoosePieces(TextOfBuilt(k, e, m, s), start, end)) == Spoken(SinkFacts.TokensOf(ds), start, end)
  {
    var s, ts := S.Built(o, S.Empty(true), ds), SinkFacts.TokensOf(ds);
    var t := TextOfBuilt(k, e, m, s);
    SinkFacts.BuiltMwtsSorted(o, true, ds);
    Inputs.BuiltHolds(o, true, ds);
    Inputs.BuiltSpacing(o, true, ds);
    PlainText(t, start, end);
    BuiltSays(k, e, o, ds, m, names, s);
    WordsAreSpoken(t, ts, start, end);
  }

  // The text of a multiword token of the input is its form.
  lemma BuiltForm(k: Codec, e: Order, o: S.Options, ds: seq<S.Document>, m: Mapped.MappedForward, x: Entry)
    requires forall i :: 0 <= i < |ds| ==> SinkFacts.ReadWell(ds[i])
    requires x in Inputs.EntriesOf(ds, |ds|)
    ensures var s := S.Built(o, S.Empty(true), ds);
      Sorted(s.mwts) && Line(LoosePieces(TextOfBuilt(k, e, m, s), x.start, x.end)) == x.form
  {
    var s := S.Built(o, S.Empty(true), ds);
    SinkFacts.BuiltMwtsSorted(o, true, ds);
    Inputs.BuiltHolds(o, true, ds);
    FormText(TextOfBuilt(k, e, m, s), x);
  }
}
