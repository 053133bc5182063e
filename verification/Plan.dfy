// Query plans (crates/montre-query/src/planner.rs: PlanNode), the corpus they run on, and
// what a plan means: the set of spans it selects, or nothing when it must fail.
module Plan {
  import opened Core
  import opened Runs
  import opened Sequence
  import opened Engine
  import opened Labelled
  import opened Align
  import opened Ast

  datatype SequenceStep = SequenceStep(node: PlanNode, min: nat, max: Option<nat>, capture: Option<string>)

  datatype PlanNode =
    | ScanLiteral(layer: string, value: string)
    | ScanRegex(layer: string, pattern: string)
    | ScanAll
    | Intersect(nodes: seq<PlanNode>)
    | Union(nodes: seq<PlanNode>)
    | Difference(base: PlanNode, subtract: PlanNode)
    | FilterBySpan(inner: PlanNode, spanLayer: string)
    | FilterByComponent(inner: PlanNode, components: seq<string>)
    | FilterByDocument(inner: PlanNode, documents: seq<string>)
    | ProjectAlignment(inner: PlanNode, alignment: string)
    | SequenceScan(steps: seq<SequenceStep>)
    | GlobalConstraintFilter(inner: PlanNode, constraints: seq<GlobalConstraint>)

  datatype AlignmentMeta = AlignmentMeta(name: string, sourceComponent: string, targetComponent: string,
                                         sourceLayer: string, targetLayer: string)

  // The index as the executor reads it. Bitmaps are finite sets of positions; regex
  // compilation is a parameter that may fail.
  datatype Corpus = Corpus(
    tokenCount: nat,
    inverted: map<string, map<string, set<nat>>>,
    attribute: (nat, string) -> Option<string>,
    spans: map<string, seq<Span>>,
    documentNames: seq<string>,
    components: seq<Component>,
    alignments: seq<AlignmentMeta>,
    edges: map<string, seq<Edge>>,
    compile: string -> Option<string -> bool>)

  ghost predicate ValidCorpus(c: Corpus) {
    && (forall layer, value, p :: layer in c.inverted && value in c.inverted[layer] && p in c.inverted[layer][value]
          ==> p < c.tokenCount)
    && (forall layer :: layer in c.spans ==> Ordered(c.spans[layer]))
    && ("document" in c.spans ==> Tiles(c.spans["document"], c.tokenCount))
  }

  function Bitmap(c: Corpus, layer: string, value: string): set<nat> {
    if layer in c.inverted && value in c.inverted[layer] then c.inverted[layer][value] else {}
  }

  // Positions of the layer whose value the matcher accepts.
  ghost function RegexSet(c: Corpus, layer: string, matcher: string -> bool): (r: set<nat>)
    ensures forall p :: p in r <==>
      exists v :: layer in c.inverted && v in c.inverted[layer] && matcher(v) && p in c.inverted[layer][v]
  {
    set v, p | layer in c.inverted && v in c.inverted[layer] && matcher(v) && p in c.inverted[layer][v] :: p
  }

  function Singleton(p: nat): Span {
    Span(p, p + 1)
  }

  ghost function Singletons(ps: set<nat>): (r: set<Span>)
    ensures forall s :: s in r <==> s.start in ps && s.end == s.start + 1
  {
    set p | p in ps :: Singleton(p)
  }

  ghost function Starts(spans: set<Span>): (r: set<nat>)
    ensures forall s :: s in spans ==> s.start in r
  {
    set s | s in spans :: s.start
  }

  function FindComponent(cs: seq<Component>, name: string): (r: Option<Component>)
    ensures r.Some? ==> r.value in cs && r.value.name == name
    ensures r.None? ==> forall c :: c in cs ==> c.name != name
  {
    if cs == [] then None else if cs[0].name == name then Some(cs[0]) else FindComponent(cs[1..], name)
  }

  // The first of that name.
  lemma {:induction false} ComponentIs(cs: seq<Component>, name: string, k: nat)
    requires k < |cs| && cs[k].name == name && forall j :: 0 <= j < k ==> cs[j].name != name
    ensures FindComponent(cs, name) == Some(cs[k])
  {
    if k > 0 {
      ComponentIs(cs[1..], name, k - 1);
    }
  }

  function FindAlignment(ms: seq<AlignmentMeta>, name: string): (r: Option<AlignmentMeta>)
    ensures r.Some? ==> r.value in ms && r.value.name == name
    ensures r.None? ==> forall m :: m in ms ==> m.name != name
  {
    if ms == [] then None else if ms[0].name == name then Some(ms[0]) else FindAlignment(ms[1..], name)
  }

  lemma {:induction false} AlignmentIs(ms: seq<AlignmentMeta>, name: string, k: nat)
    requires k < |ms| && ms[k].name == name && forall j :: 0 <= j < k ==> ms[j].name != name
    ensures FindAlignment(ms, name) == Some(ms[k])
  {
    if k > 0 {
      AlignmentIs(ms[1..], name, k - 1);
    }
  }

  // The span lies inside one span of the list.
  ghost predicate InsideOne(spans: seq<Span>, s: Span) {
    exists i :: 0 <= i < |spans| && spans[i].start <= s.start < spans[i].end && s.end <= spans[i].end
  }

  ghost predicate InsideDocument(c: Corpus, s: Span, d: nat)
    requires "document" in c.spans
  {
    var docs := c.spans["document"];
    d < |docs| && docs[d].start <= s.start < docs[d].end && s.end <= docs[d].end
  }

  ghost predicate InComponents(c: Corpus, s: Span, names: seq<string>) {
    && "document" in c.spans
    && exists d: nat, name :: InsideDocument(c, s, d) && name in names && FindComponent(c.components, name).Some?
         && FindComponent(c.components, name).value.first <= d < FindComponent(c.components, name).value.last
  }

  ghost predicate InDocuments(c: Corpus, s: Span, names: seq<string>) {
    && "document" in c.spans
    && exists d: nat :: InsideDocument(c, s, d) && d < |c.documentNames| && c.documentNames[d] in names
  }

  // The setting of a projection, or None where projection is an error.
  function Projection(c: Corpus, alignment: string): Option<AlignmentMeta> {
    if alignment !in c.edges then None else
    var meta := FindAlignment(c.alignments, alignment);
    if meta.None? then None
    else if FindComponent(c.components, meta.value.sourceComponent).None? then None
    else if FindComponent(c.components, meta.value.targetComponent).None? then None
    else meta
  }

  predicate HasProjectionLayers(c: Corpus, m: AlignmentMeta) {
    "document" in c.spans && m.sourceLayer in c.spans && m.targetLayer in c.spans
  }

  function ProjectionSetting(c: Corpus, alignment: string): Setting
    requires Projection(c, alignment).Some?
    requires HasProjectionLayers(c, Projection(c, alignment).value)
  {
    var m := Projection(c, alignment).value;
    Setting(c.spans["document"], c.spans[m.sourceLayer], c.spans[m.targetLayer],
            FindComponent(c.components, m.sourceComponent).value,
            FindComponent(c.components, m.targetComponent).value,
            c.edges[alignment])
  }

  ghost function ProjectionImage(g: Setting, from: set<Span>): (r: set<Span>)
    ensures forall x :: x in r <==> exists s :: s in from && Aligned(g, s, x)
  {
    var r := set x | x in g.targetSents && exists s :: s in from && Aligned(g, s, x);
    assert forall s, x :: Aligned(g, s, x) ==> x in g.targetSents;
    r
  }

  predicate BenefitsFromParallel(steps: seq<SequenceStep>) {
    exists i :: 0 <= i < |steps| && StepBenefits(steps[i])
  }

  predicate StepBenefits(s: SequenceStep) {
    || s.min != 1
    || s.max != Some(1)
    || s.node.ScanAll?
    || (s.node.Difference? && s.node.base.ScanAll?)
  }

  predicate PerDocument(c: Corpus, steps: seq<SequenceStep>) {
    "document" in c.spans && |c.spans["document"]| > 1 && BenefitsFromParallel(steps)
  }

  function EngineStep(s: SequenceStep): Step {
    Step(s.min, s.max, s.node.ScanAll?, s.capture)
  }

  function EngineSteps(steps: seq<SequenceStep>): (r: seq<Step>)
    ensures |r| == |steps|
    ensures forall i :: 0 <= i < |steps| ==> r[i] == EngineStep(steps[i])
  {
    seq(|steps|, i requires 0 <= i < |steps| => EngineStep(steps[i]))
  }

  // The spans the engine selects when every step is restricted to [lo, hi).
  ghost function SpansIn(pieces: seq<Piece>, lo: nat, hi: nat): (r: set<Span>)
    ensures forall s: nat, e: nat :: Span(s, e) in r <==> SeededMatch(Restrict(pieces, lo, hi), s, e)
  {
    var r := set s, e | s in RangeSet(lo, hi + 1) && e in RangeSet(lo, hi + 1) &&
      SeededMatch(Restrict(pieces, lo, hi), s, e) :: Span(s, e);
    forall s: nat, e: nat
      ensures Span(s, e) in r <==> SeededMatch(Restrict(pieces, lo, hi), s, e)
    {
      if SeededMatch(Restrict(pieces, lo, hi), s, e) {
        ReachInside(Restrict(pieces, lo, hi), |pieces|, lo, hi);
      }
    }
    r
  }

  ghost function SequenceSpans(c: Corpus, steps: seq<SequenceStep>, pieces: seq<Piece>): set<Span> {
    if PerDocument(c, steps) then
      set d, x | 0 <= d < |c.spans["document"]| &&
        x in SpansIn(pieces, c.spans["document"][d].start, c.spans["document"][d].end) :: x
    else SpansIn(pieces, 0, c.tokenCount)
  }

  // What the scans of the first n documents select.
  ghost function PerDocumentSpans(c: Corpus, pieces: seq<Piece>, n: nat): (r: set<Span>)
    requires "document" in c.spans && n <= |c.spans["document"]|
  {
    set d, x | 0 <= d < n && x in SpansIn(pieces, c.spans["document"][d].start, c.spans["document"][d].end) :: x
  }

  // A step whose node fails contributes no positions.
  ghost function PositionsOf(m: Option<set<Span>>): set<nat> {
    if m.None? then {} else Starts(m.value)
  }

  // What a plan node selects. None stands for an error.
  ghost function Meaning(node: PlanNode, c: Corpus): Option<set<Span>>
    decreases node
  {
    match node
    case ScanLiteral(layer, value) => Some(Singletons(Bitmap(c, layer, value)))
    case ScanRegex(layer, pattern) =>
      var re := c.compile(pattern);
      if re.None? then None
      else Some(Singletons(RegexSet(c, layer, re.value)))
    case ScanAll => Some(Singletons(RangeSet(0, c.tokenCount)))
    case Intersect(nodes) =>
      if exists i :: 0 <= i < |nodes| && Meaning(nodes[i], c).None? then None
      else if nodes == [] then Some({})
      else Some(Singletons(set p | p in Starts(Meaning(nodes[0], c).value)
        && forall i :: 0 <= i < |nodes| ==> p in Starts(Meaning(nodes[i], c).value)))
    case Union(nodes) =>
      if exists i :: 0 <= i < |nodes| && Meaning(nodes[i], c).None? then None
      else Some(Singletons(set i, p | 0 <= i < |nodes| && p in Starts(Meaning(nodes[i], c).value) :: p))
    case Difference(base, subtract) =>
      if Meaning(base, c).None? || Meaning(subtract, c).None? then None
      else Some(set s | s in Meaning(base, c).value && s.start !in Starts(Meaning(subtract, c).value))
    case FilterBySpan(inner, layer) =>
      if Meaning(inner, c).None? || layer !in c.spans then Meaning(inner, c)
      else Some(set s | s in Meaning(inner, c).value && InsideOne(c.spans[layer], s))
    case FilterByComponent(inner, names) =>
      if Meaning(inner, c).None? then None
      else Some(set s | s in Meaning(inner, c).value && InComponents(c, s, names))
    case FilterByDocument(inner, names) =>
      if Meaning(inner, c).None? then None
      else Some(set s | s in Meaning(inner, c).value && InDocuments(c, s, names))
    case ProjectAlignment(inner, alignment) =>
      if Meaning(inner, c).None? || Projection(c, alignment).None? then None
      else if !HasProjectionLayers(c, Projection(c, alignment).value) then Some({})
      else Some(ProjectionImage(ProjectionSetting(c, alignment), Meaning(inner, c).value))
    case SequenceScan(steps) =>
      var pieces := seq(|steps|, i requires 0 <= i < |steps| =>
        Piece(PositionsOf(Meaning(steps[i].node, c)), steps[i].min, steps[i].max));
      Some(SequenceSpans(c, steps, pieces))
    case GlobalConstraintFilter(inner, _) => Meaning(inner, c)
  }

  ghost function PiecesOf(steps: seq<SequenceStep>, c: Corpus): (r: seq<Piece>)
    ensures |r| == |steps|
    ensures forall i :: 0 <= i < |steps| ==>
      r[i] == Piece(PositionsOf(Meaning(steps[i].node, c)), steps[i].min, steps[i].max)
  {
    seq(|steps|, i requires 0 <= i < |steps| =>
      Piece(PositionsOf(Meaning(steps[i].node, c)), steps[i].min, steps[i].max))
  }

  lemma MeaningOfSequence(steps: seq<SequenceStep>, c: Corpus)
    ensures Meaning(SequenceScan(steps), c) == Some(SequenceSpans(c, steps, PiecesOf(steps, c)))
  {
    assert seq(|steps|, i requires 0 <= i < |steps| =>
        Piece(PositionsOf(Meaning(steps[i].node, c)), steps[i].min, steps[i].max)) == PiecesOf(steps, c);
  }

  // No attribute constraint anywhere: the selected set does not depend on which captures
  // the labelled path happens to keep.
  predicate Pure(node: PlanNode)
    decreases node
  {
    match node
    case Intersect(nodes) => forall i :: 0 <= i < |nodes| ==> Pure(nodes[i])
    case Union(nodes) => forall i :: 0 <= i < |nodes| ==> Pure(nodes[i])
    case Difference(base, subtract) => Pure(base) && Pure(subtract)
    case FilterBySpan(inner, _) => Pure(inner)
    case FilterByComponent(inner, _) => Pure(inner)
    case FilterByDocument(inner, _) => Pure(inner)
    case ProjectAlignment(inner, _) => Pure(inner)
    case SequenceScan(steps) => forall i :: 0 <= i < |steps| ==> Pure(steps[i].node)
    case GlobalConstraintFilter(_, _) => false
    case _ => true
  }

  // The hits of the node carry no captures.
  predicate Unlabelled(node: PlanNode)
    decreases node
  {
    match node
    case Difference(base, _) => Unlabelled(base)
    case Intersect(_) => true
    case Union(_) => true
    case ProjectAlignment(_, _) => true
    case _ => node.ScanLiteral? || node.ScanRegex? || node.ScanAll?
  }
}
