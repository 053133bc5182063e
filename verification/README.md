# Montre, modelled and proved

Montre indexes annotated corpora, answers queries over them, and shares them between
processes through a daemon. This project models its four cores in Dafny and proves what they
are for.

**The query engine** (`Core`, `Runs`, `Sequence`, `Engine`, `Labelled`, `Determined`, `Verdict`,
`Align`, `Ast`, `Plan`, `Hits`, `Outcomes`, `Constraints`, `Executor`, `Execute`, `Witness`,
`Filtered`, `Count`, `Dispatch`, `Boundaries`, `Group`, `EdgeCases`, `QueryMeaning`, `Implements`,
`Planner`, `Query`, `Readings`, `CommonQueries`). A query is planned into set operations and
sequence scans. A scan compresses positions into runs and pushes an active set of (end, starts)
through quantified steps. There is a fast path, a path with captures, a counting path and a
per-document path. Each is proved against one declarative meaning: choose cut points such that
every piece lies in the positions of its step and has a length between `min` and the smaller of
`max` and 100. Hash sets and hash maps are walked in an arbitrary order. `Query` ties it all
together: planning and executing, or counting, a query against what the query denotes. `Readings`
and `CommonQueries` say the same position by position: which tokens a sequence, a repetition, an
optional part, a label, a distance, an equation of attributes, a filter or a projection finds.

**The index** (`Bytes`, `Layers`, `FlatFile`, `Mapped`, `RoundTrip`, `Forward`, `TempFile`,
`Streaming`, `Sink`, `SinkFacts`, `SinkLayers`, `Inverse`, `SinkMerge`, `Stored`, `Indexed`,
`Builder`, `Mwt`, `Surface`, `Inputs`, `Features`, `BuiltCorpora`, `RunningText`). The forward
file is modelled byte by byte, in both byte orders: written directly or by streaming chunks, opened,
and read back as the plain map from positions to values.
The builder is modelled document by document, with the merge of per-file sinks, and its inverted
index is compared with the forward values in memory and in the written file. `Stored` goes from
the tokens of the documents through building, streaming, opening and looking up, back to the
tokens. `Indexed` opens a built index as a corpus and goes from documents to the hits of a query.
Two ways to put the running text of a range together are compared. `Inputs`, `Features`,
`BuiltCorpora` and `RunningText` say of the documents alone what a built index holds, what feature
strings give, what filters keep and how its text reads.

**The daemon** (`Couplers`, `Interests`, `Sessions`, `Histories`, `ResultFile`, `NamedResults`,
`SavedNames`, `Connections`, `DaemonAlign`). The state thread, its coupler graph, what couplers
tell their followers, the named results with the file that makes them durable, connections that
register through one command queue, and the daemon's own alignment projection. `Histories` reads
the state off the commands that led to it.

**The client** (`ClientRace`). Requests and the reader thread share a map of pending senders
and a flag; every interleaving of their atomic steps is covered.

`dafny verify dfyconfig.toml` checks the whole project.

## How to read it

Code that works step by step is a method, or a class with the source's fields, whose contract
ties the new state to a function of the old one; what the code is for is then proved about that
function. Protocols are state machines: a `Step` relation, an invariant, and theorems about
every run.

`QueryMeaning.Denotation` is what a query means without any plan, and `QueryMeaning.Assured` what is
sure to be found whichever captures are kept; `QueryMeaning.Reported` is what is found where
captures play no part, whatever the quantifiers. `Plan.Meaning` is what a plan without constraints
selects. `Outcomes.Yields` is every list of hits that executing a plan may return, whatever hash
order and unstable sorting did; `Outcomes.PureYields` ties it to the meaning. `Sequence.Matches`
is the cut-point meaning; `Sequence.SeededMatch` adds where the engine begins. `Sink.Built` is the
index of a list of documents. `Interests.Told` is what a coupler makes of an interest.
`RoundTrip.StrAt` and `RoundTrip.IntAt` are what a stored layer must read back as.

## What turned out not to hold everywhere

Each of these is kept as the code has it, with the condition that decides it. Where more than one
member is named, the later ones show inputs for which the property fails.

- With more than one step and a first step that may be empty, the empty first piece is tried
  only where a run of the second step begins. Matches are missed unless the quantifiers are
  safe (`Sequence.CompleteIffSafe`, `Sequence.UnsafeWitness`). The same check decides whether
  scanning document by document finds the same matches as scanning the corpus
  (`Dispatch.LocalIffSafe`).
- A match lies inside one document, as docs/DEVELOPMENT.md:38 and docs/DEVELOPMENT.md:740 have it,
  for sequences of one step and for those with a step that makes the executor scan per document
  (`Boundaries.BenefitsNeverCross`). Where every step looks a value or a pattern up, it holds on
  every corpus only for these (`Boundaries.NeverCrossesIff`): `w w` crosses a boundary and `w w+`
  does not (`Boundaries.BoundaryCrossed`).
- A scan with captures keeps one cut per span, whichever hash order and an unstable sort put
  first, and a constraint filter looks at that one only. The captures of a span are the same for
  all its cuts, whatever the position sets, if and only if some step admits no length or every
  labelled step has both its boundaries at a fixed distance from the start or the end of the match
  (`Determined.SameIffFixed`, `Determined.FreeWitness`). A filter reads less than all captures: the
  start of a label for an attribute, the end of one label and the start of another for a distance.
  A filtered query has one result, and its count is the number of hits, where the quantifiers fix
  these (`Witness.OneOutcome`, `Count.CountIsHitCount`, `Query.RunQuery`, `Query.CountQuery`); in
  any case it reports only spans that can satisfy the constraints, and those that must, wherever in
  the query the constraints stand (`Implements.ConstraintImplements`). For
  steps that take any token that is exact, for given constraints (`Filtered.FilterIffFixed`,
  `Count.CountIffFixed`) and for all constraints between declared labels
  (`Filtered.EveryFilterIff`, `Count.EveryCountIff`). Two results and two counts of one plan are
  shown by `Filtered.ResultDependsOnWitness` and `Count.CountCanDiffer`, captures that differ and
  no filter can tell by `Filtered.LastEndUnread`.
- A group used as a step is read as a set of one-token positions. That changes nothing, whatever
  the position sets, if and only if its quantifiers admit one token at most
  (`Group.KeptIffOneToken`, `Group.LongWitness`).
- A plan reports an invalid regular expression, or an alignment that is not there, if and only if
  no sequence stands above it (`EdgeCases.FailsIff`). Inside a sequence the step just matches
  nowhere (`EdgeCases.FailedStep`, `EdgeCases.BadRegexInSequence`).
- A filter by span passes everything when the layer is missing (`EdgeCases.SpanFilterIff`,
  `EdgeCases.UnknownLayerKeeps`).
- The forward index fills gaps with the empty string, and the written file has no empty strings.
  For every other value inverted index, forward index and file agree (`Inverse.ColumnsInverse`).
  For the empty value the forward index agrees if and only if no token without a value comes before
  one with a value (`Inverse.EmptyInverseIff`, `Inverse.GapWitness`), and the file if and only if no
  token has an empty value (`Inverse.FileInverseIff`).
- A feature key given twice is indexed under both values and stored with the last
  (`Inverse.FeaturesInverseIff`, `Inverse.TwiceWitness`).
- Merging two sinks that both collect forward values makes a second column for every layer that is
  new, and later values go there unseen (`SinkMerge.PartsStraightIff`, `SinkMerge.LaterValueLost`,
  `SinkMerge.NewLayerWitness`). The builds take the forward values out first.
- The streaming writer takes the numeric flag of a layer from the first chunk that carries it
  (`Streaming.ReadAlikeIff`). So a streaming build keeps the heads of all tokens if and only if the
  first file with tokens has a head, or no token has one (`Stored.HeadsKeptIff`,
  `Stored.HeadLost`). Its temporary files store string lengths in 16
  bits (`TempFile.TempRoundTrip`). Layers that occur only in chunks without tokens get lost
  (`Streaming.AllMergedNames`).
- Numbers are stored in 32 bits without sign (`RoundTrip.IntegerSurvives`).
- Positions are cut to 32 bits when a sparse layer is read (`RoundTrip.ReadRightIff`,
  `RoundTrip.AliasRead`).
- The two surface functions differ on ranges that cut a multiword token
  (`Surface.AgreeIffUncut`).
- The daemon does not check that the sentence an edge leads to belongs to the target document. Its
  reply is the engine's projection if and only if every edge of the unit leads to a sentence of its
  document (`DaemonAlign.SameReplyIff`, `DaemonAlign.OvershootingReply`).
- Process ids wrap at 2^32; the daemon's promises hold up to there (`Sessions.RunSound`) and
  beyond under the condition of `Sessions.RegisteredSoundIff`, which a run can fail
  (`Sessions.WrappedRun`).
- One result can be saved under two names. Deleting one name then drops the result of the other
  from memory (`NamedResults.DeleteSparesIff`, `NamedResults.DeleteCanDropOther`), and listing
  reports a name twice and another not at all (`NamedResults.ListsAllNamesIff`).
- A replay that finishes after its name was deleted labels a shared result with the deleted
  name (`NamedResults.InstalledLabelledIff`, `NamedResults.LateReplayMislabels`,
  `NamedResults.LateReplayHappens`).

## Model

| member | source | states |
|---|---|---|
| Core.SpanContaining | crates/montre-core/src/lib.rs:40-52 | The span that covers a position is found, and None means that no span covers it. |
| Runs.FromPositions | crates/montre-query/src/executor.rs:877-910 | One pass turns any list of positions, in any order and with repetitions, into maximal runs: non-empty, separated by gaps, covering exactly these positions. |
| Runs.SpansForQuantifier | crates/montre-query/src/executor.rs:926-949 | The non-empty pieces offered for a quantified step are exactly the spans made of the step's positions whose length is permitted, in order and once each. |
| Runs.ContinuationsAt | crates/montre-query/src/executor.rs:951-972 | The ends offered from a position are exactly those of pieces that fit there; length 0 is offered only from inside a run. |
| Runs.SpansForScanAll | crates/montre-query/src/executor.rs:842-856 | For a step that matches every token the ends are exactly those of permitted length up to the end of the range. |
| Sequence.SeededIsMatch | crates/montre-query/src/executor.rs:670-740 | Soundness for all steps: a span that the engine reaches can be cut into pieces that each lie in the positions of their step and have a permitted length. |
| Sequence.MatchIsSeeded | crates/montre-query/src/executor.rs:691-695 | With a first step that needs a token, or with one step only, every match is reached. |
| Sequence.CompleteIffSafe | crates/montre-query/src/executor.rs:691-695 | The engine misses no match, whatever the position sets, if and only if the quantifiers pass a check: one step, or a first step with min at least 1, or a step that admits no length, or later steps that can take no token. |
| Sequence.UnsafeWitness | crates/montre-query/src/executor.rs:691-695 | For every other list of quantifiers: concrete position sets and a match that the engine does not reach. |
| Sequence.MatchesInRange | crates/montre-query/src/executor.rs:567-608 | Restricting all steps to a range keeps exactly the matches inside the range. |
| Sequence.SeededIffExplored | crates/montre-query/src/executor.rs:691-699 | What the engine reaches, without its steps: the non-empty spans with a cut into fitting pieces whose first piece takes a token, or, with more than one step, that begin at a position of the second step which is 0 or has none of the second step before it. |
| Sequence.ExploredInRange | crates/montre-query/src/executor.rs:647-699 | The same for the scan of a range, where a stretch also begins where the range does. |
| Engine.SeedActive | crates/montre-query/src/executor.rs:682-699 | The initial active set holds the first pieces, and an empty first piece exactly at the run starts of the second step. |
| Engine.Extensions | crates/montre-query/src/executor.rs:706-722 | The ends that a step can reach from an end, by scan-all or by runs, with the empty piece of an optional step, are those of the pieces that fit. |
| Engine.Advance | crates/montre-query/src/executor.rs:711-729 | One entry of the active set is pushed through a step: the new pairs are the old starts joined with the ends of fitting pieces, and nothing else is lost or added. |
| Engine.StepActive | crates/montre-query/src/executor.rs:701-737 | After k steps the active set holds exactly the pairs reachable in k pieces, for every iteration order of the hash map; starts are not repeated. |
| Engine.RunUnlabeled | crates/montre-query/src/executor.rs:670-740 | The fast path returns exactly the (end, start) pairs with a seeded cut into all pieces, each once; for non-empty spans these are the cuts whose first piece takes a token, or which begin where a stretch of positions of the second step begins. |
| Labelled.CollapseByStart | crates/montre-query/src/executor.rs:831-834 | Sorting and removing equal starts keeps one partial match for every start, out of those given; which one is left open. |
| Labelled.SeedLabelled | crates/montre-query/src/executor.rs:757-781 | The labelled initial set holds a justified partial match for each pair the first step reaches. |
| Labelled.AdvanceLabelled | crates/montre-query/src/executor.rs:797-829 | An entry is pushed through a step with the capture of its piece appended, for every fitting piece and for no other. |
| Labelled.StepLabelled | crates/montre-query/src/executor.rs:787-837 | The invariant of the labelled path: all pairs reachable in k pieces are present, and every partial match carries the captures of a genuine cut. |
| Labelled.RunLabelled | crates/montre-query/src/executor.rs:745-840 | The capture path reaches the same pairs as the fast path, each once, with the same direct condition on the cut, and the captures of each are, in step order, the pieces of one genuine cut for that pair. |
| Determined.SameIffFixed | crates/montre-query/src/executor.rs:797-829 | The captures of a span are the same for all its cuts, whatever the position sets, if and only if the quantifiers and labels pass a check: some step admits no length, or each labelled step has both its boundaries at a fixed distance from the start or from the end of the match. |
| Determined.FreeWitness | crates/montre-query/src/executor.rs:797-829 | For every other list of steps: a number of tokens, position sets that hold all of them, and two cuts of them with different captures. |
| Verdict.FixedVerdict | crates/montre-query/src/executor.rs:473-518 | Where the quantifiers fix the starts of the labels whose attributes are compared, and both ends of the gaps that are measured, two cuts of a span satisfy the constraints both or neither; the end of a label that only an attribute reads, or of the last label, does not matter. |
| Align.FindDocAndSent | crates/montre-query/src/executor.rs:1096-1127 | Finds the document of the component and the rank of the first sentence that hold a span; None means there is no such unit. |
| Align.ResolveTargetSpan | crates/montre-query/src/executor.rs:1129-1154 | Finds the sentence with a given rank among the complete sentences of a document; None means there is none. |
| Align.BuildEdgeMap | crates/montre-query/src/executor.rs:1086-1094 | The edge map lists for every source unit exactly its targets. |
| Align.ProjectSpans | crates/montre-query/src/executor.rs:405-434 | The projected spans are the relational image of the located source units under the edges, without repetition. |
| Align.LocatesUnique | crates/montre-query/src/executor.rs:1096-1127 | A span is located in at most one unit. |
| Align.ResolvesInjective | crates/montre-query/src/executor.rs:1129-1154 | Two units never resolve to the same sentence. |
| Align.ResolveOfLocate | crates/montre-query/src/executor.rs:1096-1154 | Locating a span and resolving its unit gives the sentence back if and only if that sentence ends inside its document. |
| Align.LocateOfResolve | crates/montre-query/src/executor.rs:1096-1154 | Resolving a unit and locating the sentence gives the unit back if and only if its document belongs to the component. |
| Constraints.CollectAttrKeys | crates/montre-query/src/executor.rs:452-470 | Each attribute key that some constraint mentions is collected, once. |
| Constraints.EvaluationIsDirect | crates/montre-query/src/executor.rs:472-536 | Comparing attribute values by key index is the direct reading of each constraint on the captures: attribute values found and equal or found and different, and a distance as an order of the end of the one capture and the start of the other. |
| Constraints.DistanceOrder | crates/montre-query/src/executor.rs:501-536 | Two captures have one distance, the only number that equality keeps, and every other operator keeps what stands in that order to it. |
| Constraints.DistanceReads | crates/montre-query/src/executor.rs:501-525 | A distance constraint reads the first capture of either name: it holds when the start of the second stands to the end of the first, not counting below 0, as the operator says. |
| Constraints.AttrsRead | crates/montre-query/src/executor.rs:472-499 | An attribute constraint reads the layer at the starts of the first captures of the two names: equal values, or two different ones. |
| Hits.DeliversCount | crates/montre-query/src/executor.rs:167-450 | A sorted hit list without repetitions is as long as the set of its spans. |
| Hits.DeliversUnique | crates/montre-query/src/executor.rs:167-450 | Two hit lists that deliver the same spans agree position by position. |
| Outcomes.PureYields | crates/montre-query/src/executor.rs:167-450 | Every list of hits that executing a plan without constraint filters may return is the meaning of the plan, sorted and without repetition, each hit with captures of a genuine cut. |
| Outcomes.FoundWith | crates/montre-query/src/executor.rs:831-834 | Any seeded cut of a selected span may be the one that a scan keeps. |
| Executor.RegexPositions | crates/montre-query/src/executor.rs:182-205 | The positions of all values that a matcher accepts, united in any order. |
| Executor.FilterSpans | crates/montre-query/src/executor.rs:279-296 | Keeps exactly the hits that start in a span of the layer and end there too; without the layer nothing is filtered. |
| Executor.FilterComponents | crates/montre-query/src/executor.rs:298-330 | Keeps exactly the hits inside a document of one of the named components. |
| Executor.FilterDocuments | crates/montre-query/src/executor.rs:332-364 | Keeps exactly the hits inside a document with one of the names. |
| Executor.ProjectHits | crates/montre-query/src/executor.rs:366-436 | The projected hits are the sorted image of the inner spans; a missing alignment or component is an error, a missing layer gives no hits. |
| Executor.FilterConstraints | crates/montre-query/src/executor.rs:440-450 | Keeps exactly the hits whose captures satisfy all constraints, read directly, in order. |
| Executor.CollectUnlabelled | crates/montre-query/src/executor.rs:593-606 | One hit without captures for each non-empty pair of the active set. |
| Executor.CollectLabelled | crates/montre-query/src/executor.rs:574-591 | One hit for each non-empty labelled match, with its captures. |
| Executor.CountActive | crates/montre-query/src/executor.rs:622-642 | The count path counts each non-empty pair once. |
| Execute.ExecuteNode | crates/montre-query/src/executor.rs:167-450 | For every plan: an error exactly where the meaning has none, and otherwise one of the outcomes of the plan, built up node by node; for a plan without constraint filters that is its meaning. |
| Execute.ExecuteIntersect | crates/montre-query/src/executor.rs:215-241 | Intersection: one-token hits at the starts that an outcome of every operand has; no operands give no hits; for all plans. |
| Execute.ExecuteUnion | crates/montre-query/src/executor.rs:243-262 | Union: one-token hits at the starts that an outcome of some operand has; for all plans. |
| Execute.ExecuteDifference | crates/montre-query/src/executor.rs:264-277 | Difference: the hits of an outcome of the base whose start an outcome of the other operand does not have; for all plans. |
| Execute.ExecuteSequence | crates/montre-query/src/executor.rs:547-561 | One scan of the corpus, or one per document when some step gains from it; every step is given the starts of an outcome of its node. |
| Execute.ExecutePerDocument | crates/montre-query/src/executor.rs:547-561 | The concatenated results of all documents are sorted, and each document's part is the result of its scan. |
| Execute.ExecuteSequenceInRange | crates/montre-query/src/executor.rs:567-608 | The scan of a range gives the spans with a seeded cut into pieces restricted to the range, sorted, each with the captures of such a cut. |
| Execute.BuildRunIndices | crates/montre-query/src/executor.rs:647-667 | The runs of every step represent, inside the range, the starts of an outcome of its node; a node that fails matches nowhere. |
| Execute.GetMatchingPositionsInRange | crates/montre-query/src/executor.rs:984-1084 | Looking positions up inside a range gives the starts, inside the range, of something that executing the node may return, and fails exactly when that does; for all plans, by induction over nodes. |
| Execute.MatchUnion | crates/montre-query/src/executor.rs:1030-1040 | Looking a union up inside a range gives the starts, inside the range, of something that executing the union may return. |
| Execute.MatchIntersect | crates/montre-query/src/executor.rs:1042-1060 | The same for intersections. |
| Execute.MatchDifference | crates/montre-query/src/executor.rs:1062-1073 | The same for differences. |
| Count.CountNode | crates/montre-query/src/executor.rs:117-165 | For every plan: an error exactly where executing gives one, and otherwise the number of hits of something that executing may return, through every shortcut: bitmap length, union of matching bitmaps, token count, token count minus a literal, and the unlabelled sequence scan. |
| Count.CountComplement | crates/montre-query/src/executor.rs:144-158 | All tokens but those of a literal: the difference of two counts is the number of hits. |
| Count.CountSequence | crates/montre-query/src/executor.rs:610-645 | Counting a sequence never builds captures, serially or per document, and is the number of hits of an outcome of the sequence. |
| Count.CountIsHitCount | crates/montre-query/src/executor.rs:108-165 | What execute_count reports and what execute returns fail together, and the count is the number of hits wherever the quantifiers below every constraint filter fix what its constraints read, so always without one. |
| Count.PureIsOneSpans | crates/montre-query/src/executor.rs:440-450 | A plan without a constraint filter is one of these. |
| Count.CountIsMeaning | crates/montre-query/src/executor.rs:108-165 | Without constraint filters the count is the number of spans of the meaning of the plan. |
| Count.CountIsKept | crates/montre-query/src/executor.rs:108-165 | Under a constraint filter whose constraints read only what the quantifiers fix, the count is the number of selected spans whose captures satisfy the constraints. |
| Count.CountIffFixed | crates/montre-query/src/executor.rs:108-165 | For steps that take any token and any constraints: execute_count agrees with the number of hits on every corpus, under these constraints and under all that read no more, if and only if the quantifiers fix the starts and gaps that the constraints read. |
| Count.EveryCountIff | crates/montre-query/src/executor.rs:108-165 | For such steps: count and number of hits agree on every corpus under all constraints between declared labels if and only if some step admits no length, or every labelled step begins at a fixed distance from an end of the match and also ends at one when a later step is labelled. |
| Count.CountCanDiffer | crates/montre-query/src/executor.rs:108-165 | Where what they read is not fixed, a count and a list of hits of the same plan on the same corpus can differ by one. |
| Dispatch.RangeIsLocal | crates/montre-query/src/executor.rs:567-608 | Under the safety check, the scan of a range finds the whole-corpus matches that lie inside it. |
| Dispatch.LocalIffSafe | crates/montre-query/src/executor.rs:547-608 | Scanning a range is local for all position sets and ranges if and only if the quantifiers are safe. |
| Dispatch.PerDocumentIsFiltered | crates/montre-query/src/executor.rs:547-561 | With safe quantifiers and documents that tile the corpus, the per-document results are the whole-corpus matches inside one document. |
| Dispatch.WithinDocumentAgrees | crates/montre-query/src/executor.rs:547-561 | Serial and per-document scanning select the same spans under a filter by document. |
| Planner.PlanToken | crates/montre-query/src/planner.rs:248-296 | The plan of a token pattern selects, on every corpus, the positions that meet every positive and no negative constraint, and fails when one of its regular expressions does. |
| Planner.CollectDeclaredLabels | crates/montre-query/src/planner.rs:194-218 | The labels that a query declares, collected through all of its parts. |
| Planner.ReferencedLabels | crates/montre-query/src/planner.rs:220-235 | The labels that the constraints mention. |
| Planner.PlanPart | crates/montre-query/src/planner.rs:81-86 | A part of a sequence becomes a step with its quantifier, the label pulled out of a capture on either side of the repetition. |
| Planner.PlanSteps | crates/montre-query/src/planner.rs:92-119 | A sequence is planned exactly when its parts are, part by part. |
| Planner.PlanAlternation | crates/montre-query/src/planner.rs:134-137 | An alternation becomes a union, which implements it. |
| Planner.PlanConstrained | crates/montre-query/src/planner.rs:183-190 | Constraints are planned only when every label they mention is declared in the query, and the filter implements them. |
| Planner.PlanQuery | crates/montre-query/src/planner.rs:88-192 | Planning fails exactly on undeclared labels, and the plan of any query, with constraints at any place, implements it: executing fails exactly where the denotation does, gives nothing that the query does not denote, where the engine misses nothing all that is sure to be found, and where the quantifiers fix what is read exactly what is reported for the query. |
| Implements.PiecesGivenFor | crates/montre-query/src/executor.rs:647-667 | Whatever the nodes of the steps may return, the pieces that a scan is given lie within those of what the parts denote, around those of what is sure to be found for them where the engine misses nothing of the parts, and are exactly those of what is reported for them where the quantifiers fix what is read. |
| Implements.SequenceImplements | crates/montre-query/src/planner.rs:88-157 | A planned sequence of any parts implements the declarative denotation by cut points: every hit is such a match with captures of its cut; where the engine misses nothing, every match whose pieces are sure to be found is hit; and where the quantifiers fix what is read, the hits are exactly the matches that the engine explores. |
| Implements.WrapImplements | crates/montre-query/src/planner.rs:139-182 | Filters and projection keep what the inner plan achieves. |
| Implements.AlternationImplements | crates/montre-query/src/planner.rs:134-137 | A union of plans implements the alternation of their queries. |
| Implements.ConstraintImplements | crates/montre-query/src/planner.rs:183-190 | A constraint filter, wherever it stands, reports only spans some of whose captures satisfy the constraints, and every span sure to be found all of whose captures do. |
| QueryMeaning.HasCut | crates/montre-query/src/executor.rs:797-829 | Every span that a query denotes has captures, those of a cut into its parts that satisfy the constraints below. |
| QueryMeaning.FixedIsAssured | crates/montre-query/src/executor.rs:473-518 | Where the quantifiers fix what each constraint reads, all that a query denotes is sure to be found. |
| Query.RunQuery | crates/montre-daemon/src/handlers/query.rs:39-52 | Planning and executing against the query itself, with constraints at any place: an error exactly where a label is undeclared or the denotation is an error; sorted hits, each span once, none outside the denotation, each with captures of the query; with safe quantifiers every span that is sure to be found; where the quantifiers fix what the constraints read exactly what is reported for the query, safe or not, and where they are safe too exactly the denotation. |
| Query.CountQuery | crates/montre-daemon/src/handlers/query.rs:64-78 | Planning and counting: never more than the spans of the denotation, with safe quantifiers at least those that are sure to be found, and where what the constraints read is fixed exactly the number of those reported. |
| Readings.SequenceReads | crates/montre-query/src/planner.rs:92-119 | The denotation of a sequence read off the positions: its parts taken one after the other, one token for a part without a quantifier and as many as it permits, at most a hundred, for one with a quantifier; inside one document where some part has a quantifier or asks for no word and there are several documents. |
| Readings.SequenceLabels | crates/montre-query/src/planner.rs:92-119 | The captures of a hit of a sequence are the names of the labelled parts with the tokens that these take. |
| Readings.SequenceFinds | crates/montre-query/src/executor.rs:670-699 | What is reported for a sequence whose quantifiers may be unsafe, read off the positions. |
| CommonQueries.PlainSequenceFound | crates/montre-daemon/src/handlers/query.rs:39-52 | Running a sequence of token patterns finds exactly the places where tokens that match them stand one after the other. |
| CommonQueries.RepetitionFound | crates/montre-daemon/src/handlers/query.rs:39-52 | Running a repeated pattern finds exactly the stretches of matching tokens of permitted length, at most a hundred. |
| CommonQueries.LabelFound | crates/montre-query/src/planner.rs:157-167 | The label of a pattern, repeated or not, names the whole hit. |
| CommonQueries.LabelsFound | crates/montre-query/src/planner.rs:92-119 | Every hit of a sequence comes with a way to go through its parts on which its captures are what the labelled parts take. |
| CommonQueries.OptionalFound | crates/montre-query/src/executor.rs:691-695 | Running p? q finds every p with the q after it, and every q alone that begins a stretch of them in the corpus or in its document. |
| CommonQueries.OptionalInOne | crates/montre-query/src/executor.rs:691-695 | In a corpus of one document, p? q finds exactly the pairs of a p and a q after it, and the q that are first or have no q before them. |
| CommonQueries.GapFound | crates/montre-query/src/executor.rs:440-450 | A constraint between the labels of two tokens with a repetition between them keeps exactly the places whose two labels satisfy it. |
| CommonQueries.DistanceFound | crates/montre-query/src/executor.rs:501-536 | Under a distance the hits are exactly those with so many tokens between the two labels: fewer than k for <, at most k for <=, and so on. |
| CommonQueries.AttributesFound | crates/montre-query/src/executor.rs:472-499 | Under an equation between attributes the hits are exactly those where both tokens have the same value, under an inequation those where they have two different ones. |
| CommonQueries.AlternationFound | crates/montre-query/src/executor.rs:243-260 | An alternation finds single tokens only: exactly those where a hit of some alternative begins. |
| CommonQueries.ComponentsFound | crates/montre-query/src/executor.rs:298-330 | A filter by components keeps exactly what lies in the documents of the components with these names. |
| CommonQueries.ProjectFound | crates/montre-query/src/executor.rs:366-438 | A projection gives exactly the sentences of the target component that an edge of the alignment leads to from the sentence of the source component that holds a hit. |
| Query.PlanFinds | crates/montre-query/src/planner.rs:88-192 | The same from any plan of the query and anything that executing it may return. |
| Query.UnconstrainedIsFixed | crates/montre-query/src/planner.rs:88-192 | A query without constraints can always be planned and leaves nothing open, so with safe quantifiers it gives exactly its denotation. |
| Filtered.ResultDependsOnWitness | crates/montre-query/src/executor.rs:831-834 | For two repeated parts of any tokens and a constraint between their labels, on a corpus of three tokens: two results that executing may give, one with the whole span and one without, so also two counts. |
| Witness.OneOutcome | crates/montre-query/src/executor.rs:440-450 | For every plan and corpus: where the quantifiers below each constraint filter fix what its constraints read, executing gives one set of spans, whatever was kept; where those of the plan fix all captures, one list of hits; and a filter above a plan has one result where that plan fixes what the filter reads. |
| Filtered.OneListIffFixed | crates/montre-query/src/executor.rs:831-834 | For sequences of steps that take any token: executing gives one list of hits on every corpus if and only if the check on quantifiers and labels passes. |
| Filtered.TwoResults | crates/montre-query/src/executor.rs:440-450 | For such sequences: whenever a scan may keep a cut of a span that satisfies the constraints, or one that does not, the filtered plan has a result with the span and one without it, of which the first has one hit more. |
| Filtered.FilterIffFixed | crates/montre-query/src/executor.rs:440-518 | For steps that take any token and any constraints: the filtered plan has one result on every corpus, under these constraints and under all that read no more, if and only if the quantifiers fix the starts and gaps that the constraints read. |
| Filtered.EveryFilterIff | crates/montre-query/src/executor.rs:440-518 | For such steps: every filter between declared labels has one result on every corpus if and only if some step admits no length, or every labelled step begins at a fixed distance from an end of the match and also ends at one when a later step is labelled. |
| Filtered.LastEndUnread | crates/montre-query/src/executor.rs:473-511 | A label on the first of two repeated parts has captures that are not determined, and yet no constraint can tell them apart: every filter has one result. |
| Witness.ConstrainedBounds | crates/montre-query/src/executor.rs:440-450 | Every hit that passes a constraint filter is a selected span with captures of a genuine cut that satisfy the constraints, and a selected span is reported when all its genuine captures satisfy them. |
| Witness.ConstrainedExact | crates/montre-query/src/executor.rs:440-450 | Where the quantifiers fix what the constraints read, the filter reports exactly the selected spans whose captures satisfy them, and as many hits. |
| Group.KeptIffOneToken | crates/montre-query/src/executor.rs:1075-1082 | Reading a group as one-token positions keeps its matches, whatever the position sets, if and only if the largest total length of its steps is at most 1 or some step admits none. |
| Group.LongWitness | crates/montre-query/src/executor.rs:1075-1082 | For every other list of quantifiers: with all tokens permitted everywhere, the group matches more than one token. |
| Group.GroupStepMeaning | crates/montre-query/src/executor.rs:1075-1082 | A sequence used as a step contributes the starts of its hits, as single tokens. |
| Group.GroupKeepsMeaning | crates/montre-query/src/executor.rs:1075-1082 | So a group whose quantifiers admit one token at most means the same as a step and on its own, on every corpus. |
| EdgeCases.FailedStep | crates/montre-query/src/executor.rs:647-667 | A sequence never fails: with a failing step that needs a token it selects nothing. |
| EdgeCases.BadRegexInSequence | crates/montre-query/src/executor.rs:182-205 | The same invalid regular expression is an error alone and selects nothing as a step. |
| EdgeCases.FailsIff | crates/montre-query/src/executor.rs:182-205 | A plan fails on a corpus if and only if a node that is not below any sequence is at fault: a pattern that does not compile, or a projection along an alignment or from a component that is not there. |
| EdgeCases.SpanFilterIff | crates/montre-query/src/executor.rs:279-296 | What a span filter keeps lies inside spans of the layer if and only if there is such a layer, or nothing to keep. |
| EdgeCases.UnknownLayerKeeps | crates/montre-query/src/executor.rs:279-296 | With no span layer at all, the filter keeps the only token. |
| Boundaries.PerDocumentInside | crates/montre-query/src/executor.rs:547-561 | Where the scan goes document by document, every selected span lies inside one document. |
| Boundaries.BenefitsNeverCross | crates/montre-query/src/executor.rs:538-561 | A sequence of one step, or with a step that makes the executor scan per document, selects only spans inside one document, on every corpus and for steps of any kind. |
| Boundaries.NeverCrossesIff | crates/montre-query/src/executor.rs:538-561 | For steps that look a value or a pattern up, that is exact: every selected span lies inside one document, on every corpus, if and only if some step has a quantifier or the sequence has one step. |
| Boundaries.BoundaryCrossed | crates/montre-query/src/executor.rs:538-561 | The query w w selects two tokens of different documents; the query w w+, which permits more, never leaves a document. |
| Bytes.EncodeRoundTrip | crates/montre-index/src/forward_flat.rs:416-437 | Little- and big-endian numbers of any width read back, for every value that fits the width. |
| Bytes.EncodedByte | crates/montre-index/src/forward_flat.rs:416-437 | The byte that stands for a power of 256 in an encoded number, counted from the left in little-endian order and from the right in big-endian order. |
| Bytes.AlignIsMultiple | crates/montre-index/src/lib.rs:73-75 | Rounding up to 8 gives the least multiple of 8 that is not below. |
| Layers.ScanValues | crates/montre-index/src/forward_flat.rs:38-49 | The bitmap holds the positions of the non-empty strings, cut to 32 bits, and the strings are listed in position order. |
| Layers.BuildTermTable | crates/montre-index/src/forward_flat.rs:55-65 | String offsets are the running sums of the lengths, with a closing one, and the strings follow one another. |
| Layers.EncodeIds | crates/montre-index/src/forward_flat.rs:63-77 | Each present value is written as the rank of its string among the sorted distinct strings, in 1, 2 or 4 bytes. |
| Layers.BuildDictEncodedLayer | crates/montre-index/src/forward_flat.rs:35-93 | The three passes together build the dictionary-coded layer of the specification. |
| Layers.BuildDenseNumericLayer | crates/montre-index/src/forward_flat.rs:95-116 | A numeric layer holds the low 32 bits of the number at each position, 0 where there is none. |
| Layers.SameDictLayer | crates/montre-index/src/forward_flat.rs:35-93 | Two columns with the same present strings are encoded alike. |
| FlatFile.EntryRoundTrip | crates/montre-index/src/forward_flat.rs:258-274 | A directory entry is read as it was written, for every field in range. |
| FlatFile.PlaceSections | crates/montre-index/src/forward_flat.rs:162-186 | The offsets of all sections, computed before anything is written. |
| FlatFile.WriteMfwd | crates/montre-index/src/forward_flat.rs:149-235 | The file that the cursor writes, section after section with padding, is the image of the specification. |
| FlatFile.AnnouncedIsReal | crates/montre-index/src/forward_flat.rs:149-243 | The precomputed offsets are the real cursor: directory entry, name, term table, bitmap and data of every layer stand in the file where the directory says. |
| FlatFile.SectionsOfLayer | crates/montre-index/src/forward_flat.rs:162-186 | The sections of a layer are 8-aligned and do not overlap. |
| FlatFile.LayersDisjoint | crates/montre-index/src/forward_flat.rs:162-186 | Layers follow one another without overlap, after the name pool and inside the file. |
| Mapped.Open | crates/montre-index/src/forward_flat.rs:313-391 | A file opens exactly when its header and all its directory entries can be read, and then holds the layers of the entries, the last one under each name; the program stops instead of returning an error exactly when the first unreadable entry announces a bitmap beyond the end of the file. |
| Mapped.RankIsIndex | crates/montre-index/src/forward_flat.rs:457-461 | The rank of a position in the bitmap is the index of its string. |
| Mapped.DenseIsIndex | crates/montre-index/src/forward_flat.rs:451-456 | Where every position is present, the position itself is that index: the fast path agrees with the rank path. |
| Mapped.IdReadsBack | crates/montre-index/src/forward_flat.rs:416-437 | The id stored at an index is the id of the string there, at all three widths. |
| Mapped.TermReadsBack | crates/montre-index/src/forward_flat.rs:393-414 | The term table gives the string of every id. |
| RoundTrip.SourceReadsBack | crates/montre-index/src/forward_flat.rs:313-391 | Every directory entry of a written file reads back as the layer it was written from, with its bitmap and offsets. |
| RoundTrip.WrittenFileOpens | crates/montre-index/src/forward_flat.rs:149-391 | Every written file opens, with its layer count and token count. |
| RoundTrip.StoredIsRead | crates/montre-index/src/forward_flat.rs:445-486 | The main round trip: for any list of layers and any position, get_str gives the string v exactly when v is non-empty and was stored there, and get_int the number stored there, 0 where absent. |
| RoundTrip.ReadRightIff | crates/montre-index/src/forward_flat.rs:445-486 | For any position whatever: get_int reads right, and get_str does if and only if the position has 32 bits, or every token has a string, or the position cut to 32 bits has none. |
| RoundTrip.AliasRead | crates/montre-index/src/forward_flat.rs:451-461 | In a file of two tokens, a position 2^32 beyond the first token reads as the first token. |
| RoundTrip.UnknownIsAbsent | crates/montre-index/src/forward_flat.rs:445-486 | A name that was not written reads as absent everywhere. |
| RoundTrip.IntegerSurvives | crates/montre-index/src/forward_flat.rs:95-116 | A stored integer comes back if and only if it is an unsigned 32-bit value. |
| RoundTrip.OtherOrderRefused | crates/montre-index/src/forward_flat.rs:245-256 | A file written in one byte order is refused by a reader of the other. |
| Forward.InMemoryForward.constructor | crates/montre-index/src/forward.rs:19-25 | A new index has no layers. |
| Forward.InMemoryForward.AddLayer | crates/montre-index/src/forward.rs:27-31 | A layer is appended, empty, and its index returned. |
| Forward.InMemoryForward.Set | crates/montre-index/src/forward.rs:33-41 | One cell is set, with the column grown by absent values as needed; every other column stays. |
| Forward.InMemoryForward.MergeFrom | crates/montre-index/src/forward.rs:43-60 | Merging lays every column of the other index over the first column of that name at the offset, creating the missing ones. |
| Forward.MergedReads | crates/montre-index/src/forward.rs:43-60 | After a merge, a position reads as the other index where that one has a cell, and as before elsewhere. |
| Forward.PickEncodings | crates/montre-index/src/forward_flat.rs:126-147 | A layer is written densely exactly when it holds a number. |
| Forward.WriteFlatForward | crates/montre-index/src/forward_flat.rs:126-147 | The direct file is the image of the columns, each with its own encoding. |
| TempFile.ReadTempLayer | crates/montre-build/src/streaming_forward.rs:141-181 | Reading a temporary layer file, record by record, with its errors. |
| TempFile.TempRoundTrip | crates/montre-build/src/streaming_forward.rs:122-181 | A column survives its temporary file if and only if each of its strings is shorter than 65536 bytes, what the length prefix can say. |
| Streaming.PadAbsent | crates/montre-build/src/streaming_forward.rs:115-120 | A gap is filled with absent records. |
| Streaming.StreamingForwardWriter.GetOrCreateLayer | crates/montre-build/src/streaming_forward.rs:87-106 | A new layer takes its numeric flag from this call; an old one keeps its own. |
| Streaming.StreamingForwardWriter.AppendLayer | crates/montre-build/src/streaming_forward.rs:52-60 | Padding and appending makes the layer's file that of the column with the chunk laid over it. |
| Streaming.StreamingForwardWriter.AppendFrom | crates/montre-build/src/streaming_forward.rs:40-65 | After a chunk the files are those of the merged columns; flags come from the first chunk that carries the layer; an empty chunk changes nothing. |
| Streaming.StreamingForwardWriter.Finalize | crates/montre-build/src/streaming_forward.rs:67-85 | All files are padded, read back, encoded and written. |
| Streaming.StreamChunks | crates/montre-build/src/builder.rs:392-400 | All chunks in order and then finalize: the result is determined by the merged columns and the flags of the first chunks, and with stable kinds it is the file that merging in memory and writing directly gives. |
| Streaming.StreamedFile | crates/montre-build/src/streaming_forward.rs:67-85 | A finished stream is, byte for byte, the direct file of the merged columns with the chosen encodings. |
| Streaming.StreamedIsFlat | crates/montre-build/src/streaming_forward.rs:40-85 | With layer kinds stable from the first chunk, it is the file that merging in memory and writing directly gives. |
| Streaming.StreamedReads | crates/montre-build/src/streaming_forward.rs:40-85 | Opening a finished stream and looking a position up gives the merged value there. |
| Streaming.ReadAlikeIff | crates/montre-build/src/streaming_forward.rs:52-53 | The streamed and the direct file read alike in a layer if and only if a number anywhere in the layer means a number in the first chunk that carries it. |
| Streaming.AllMergedReads | crates/montre-build/src/streaming_forward.rs:40-44 | Merging all chunks, with those that hold layers but no tokens, gives the same value at every position as the stream's chunks. |
| Streaming.AllMergedNames | crates/montre-build/src/streaming_forward.rs:40-44 | But the layers of the stream are those of chunks with tokens only, where merging all chunks has every layer. |
| Sink.DocumentCommutes | crates/montre-build/src/builder.rs:103-236 | Merging an index that got one more document is adding the document to the merged index. |
| Sink.BuiltInParts | crates/montre-build/src/builder.rs:103-236 | Building is a homomorphism: adding documents to an index is merging it with the index that these documents have on their own, in inverted index, lexicon, layers, spans, sentence ids, multiword tokens, spacing and empty nodes. |
| Sink.MergeInvertedNext | crates/montre-index/src/inverted.rs:28-54 | Merging after one insertion is inserting at the shifted position after merging. |
| Sink.MergeLexiconNext | crates/montre-index/src/lexicon.rs:24-44 | The same for the terms of a lexicon. |
| SinkFacts.SentenceSpans | crates/montre-build/src/builder.rs:143-236 | What a sentence adds: as many positions as tokens, one span and one id unless it is empty, its multiword tokens moved to where it begins. |
| SinkFacts.DocumentTiled | crates/montre-build/src/builder.rs:143-236 | Adding a document keeps the tiling of the positions by document and by sentence spans. |
| SinkFacts.BuiltTiled | crates/montre-build/src/builder.rs:143-236 | Document and sentence spans of every built index tile all positions and go with their names and ids. |
| SinkFacts.FilesMerge | crates/montre-build/src/builder.rs:103-137 | Indexing every document on its own and merging gives the index of all documents. |
| SinkFacts.DroppedDocument | crates/montre-build/src/builder.rs:73-96 | Whether forward values are collected makes no difference to the rest of the index. |
| SinkFacts.DroppedBuilt | crates/montre-build/src/builder.rs:73-96 | So the index built with forward values is, without them, the index built without. |
| SinkFacts.BuiltFromTokens | crates/montre-build/src/builder.rs:143-236 | Inverted index, lexicon, forward columns, layers and spacing of a built index are those of its tokens alone, however they are grouped. |
| SinkFacts.BuiltMwtsSorted | crates/montre-build/src/builder.rs:193-203 | The multiword tokens of a built index are sorted, disjoint and not empty, as the searches over them expect, when the reader delivers them so per sentence. |
| Inputs.BuiltSpacing | crates/montre-build/src/builder.rs:186-190 | The spacing bitmap of a built index holds exactly the tokens of the documents that no space follows. |
| Inputs.BuiltHolds | crates/montre-build/src/builder.rs:143-236 | Said of the documents alone: the sentences with tokens with their spans and ids, the documents with tokens with their spans and names, the empty nodes under the number of their sentence, and the multiword tokens of a built index, in order. |
| Inputs.BuiltTerms | crates/montre-build/src/builder.rs:259-270 | The lexicon of a built index lists, for each indexed layer, each text that some token gives to it, once. |
| Inputs.TermsKeepNumbers | crates/montre-index/src/lexicon.rs:24-35 | Adding a document keeps the numbers of the terms that are there. |
| SinkLayers.BuiltRecords | crates/montre-build/src/builder.rs:143-270 | Any layer of any built index: the inverted index has a position under a value exactly where the token was given it, and the column holds the last value given, blank in gaps. |
| SinkLayers.BuiltWellFormed | crates/montre-build/src/builder.rs:143-270 | The forward columns of a built index have one column per layer, none longer than the number of tokens. |
| Inverse.ColumnsInverse | crates/montre-build/src/builder.rs:150-191 | In the layers of the token columns, for every value but the empty one: the positions indexed under it are exactly those where the forward index reads it, and those where the written file reads it. |
| Inverse.EmptyInverseIff | crates/montre-index/src/forward.rs:33-41 | For the empty value, the forward index agrees with the inverted one if and only if no token without a value in the layer comes before one with a value. |
| Inverse.GapWitness | crates/montre-index/src/forward.rs:33-41 | Two tokens, of which only the second has a lemma: the forward index reads the empty lemma at the first, the inverted index does not have it there. |
| Inverse.FileInverseIff | crates/montre-index/src/forward_flat.rs:38-49 | The written file agrees with the inverted index on all values if and only if no token has an empty value in the layer. |
| Inverse.FeaturesInverseIff | crates/montre-build/src/builder.rs:238-246 | For a decomposed feature key and all values but the empty one: inverted and forward index agree if and only if in every token the last value given for the key is the only one that is not empty. |
| Inverse.TwiceWitness | crates/montre-build/src/builder.rs:238-246 | A token with the features K=1 and K=2 is indexed under both, and its forward value is one of them. |
| Inverse.FeatureGives | crates/montre-build/src/builder.rs:238-246 | A feature layer gets from a token the values of its key, in the order of the feature string, and nothing else. |
| Features.SplitJoins | crates/montre-build/src/builder.rs:238-246 | Splitting a text at a separator gives parts without it, and joining them gives the text back. |
| Features.JoinSplits | crates/montre-build/src/builder.rs:238-246 | Joining texts without the separator and splitting again gives them back. |
| Features.FeaturesRead | crates/montre-build/src/builder.rs:238-246 | A token whose feature string was written from a list of features gives to the layer of a key exactly the values of that key, in order. |
| SinkMerge.MergedBuilt | crates/montre-build/src/builder.rs:103-137 | Two sinks with forward values, built apart and merged, agree with the sink of all the documents in every forward value and in everything but the list of columns. |
| SinkMerge.PartsStraightIff | crates/montre-build/src/builder.rs:248-257 | Merging them keeps one column per layer if and only if every layer that the second part writes is a base layer or written by the first. |
| SinkMerge.LaterValueLost | crates/montre-build/src/builder.rs:259-270 | Otherwise a later value for a new layer goes to its second column, and what a lookup by name reads does not change. |
| SinkMerge.NewLayerWitness | crates/montre-build/src/builder.rs:103-137 | A document without features merged with one whose token has a feature: the new layer has two columns. |
| Stored.WrittenReads | crates/montre-build/src/builder.rs:143-270 | Building documents, writing the forward values, opening the file and looking a token up gives, in every layer whatever, the last value that this token was given there, as text, none if it has none or an empty one, within the sizes that the format can express. |
| Stored.FeatureCell | crates/montre-build/src/builder.rs:234-242 | In the layer of a feature key the value that comes back is the last one of that key in the feature string of the token. |
| Stored.DepsCell | crates/montre-build/src/builder.rs:143-190 | In the layer of enhanced dependencies it is those of the token. |
| Stored.WrittenHeads | crates/montre-build/src/builder.rs:173-176 | Looking the head up as a number gives that of the token, 0 where it has none, if some token has a head, and nothing otherwise. |
| Stored.StreamedReadsBack | crates/montre-build/src/builder.rs:386-402 | The same for the streaming build, in every layer whatever: every file indexed on its own, its forward values appended to the stream, the stream finished, opened and looked up; values must fit the records of the temporary files. |
| Stored.StreamedHeads | crates/montre-build/src/streaming_forward.rs:40-65 | In a streaming build the heads are there as numbers if and only if the first file with tokens has one. |
| Stored.HeadsKeptIff | crates/montre-build/src/streaming_forward.rs:40-65 | So a streaming build keeps all heads if and only if the first file with tokens has a head, or no token has one. |
| Stored.HeadLost | crates/montre-build/src/streaming_forward.rs:40-65 | Two files of one token, of which only the second has a head: the condition fails. |
| Stored.StreamedInverse | crates/montre-build/src/builder.rs:386-402 | So the inverted index of the combined sink and the finished stream tell the same of every value but the empty one. |
| Stored.FilesInOrder | crates/montre-build/src/builder.rs:392-400 | The chunks of a streaming build come in order and well formed, as the stream expects. |
| Indexed.BuiltIsValid | crates/montre-build/src/builder.rs:93-232 | Every built index, opened as a corpus, is fit for the query engine: bitmaps lie inside the corpus, spans are ordered, documents tile it. |
| Indexed.LiteralFinds | crates/montre-build/src/builder.rs:180-266 | The bitmap of a value in a token column of a built index holds exactly the tokens that have the value. |
| Indexed.QueryValue | crates/montre-query/src/executor.rs:167-180 | From documents to hits: planning and executing a query for a value on the corpus of a built index finds exactly the tokens of the documents that have it. |
| BuiltCorpora.WithinSentence | crates/montre-query/src/executor.rs:279-296 | From documents to hits: a filter by sentence on the corpus of a built index keeps exactly the hits that lie in one sentence of the input. |
| BuiltCorpora.WithinDocument | crates/montre-query/src/executor.rs:332-364 | A filter by document keeps exactly the hits that lie in one input document with one of the names. |
| BuiltCorpora.WordsWithinSentence | crates/montre-daemon/src/handlers/query.rs:39-52 | A sequence of words within sentence finds exactly the places where these words stand one after the other in one sentence of the input, token by token. |
| BuiltCorpora.WordsWithinDocument | crates/montre-daemon/src/handlers/query.rs:39-52 | The same sequence within documents finds exactly the runs of tokens with these values in the input documents of these names. |
| Builder.IndexSink.constructor | crates/montre-build/src/builder.rs:47-96 | A new sink holds the base layers, with an empty column each if forward values are collected, and nothing else. |
| Builder.IndexSink.AddTokenAnnotation | crates/montre-build/src/builder.rs:259-270 | A value is set in the column of a known layer, and, unless the layer is forward-only, goes to inverted index and lexicon. |
| Builder.IndexSink.EnsureLayer | crates/montre-build/src/builder.rs:248-257 | A layer name is added once, with a column. |
| Builder.IndexSink.DecomposeFeats | crates/montre-build/src/builder.rs:238-246 | Each key of a feature string gets its value in a layer of its own. |
| Builder.IndexSink.AddToken | crates/montre-build/src/builder.rs:150-191 | All annotations of a token with its integer head, its spacing and the step to the next position. |
| Builder.IndexSink.AddSentence | crates/montre-build/src/builder.rs:147-229 | Tokens, multiword tokens, empty nodes, span and id of one sentence. |
| Builder.IndexSink.AddDocument | crates/montre-build/src/builder.rs:143-236 | Adding a document in place is the addition of the specification. |
| Builder.IndexSink.MergeFrom | crates/montre-build/src/builder.rs:103-137 | Merging in place is the merge of the specification, forward columns included where both sinks have them. |
| Builder.IndexSink.TakeForward | crates/montre-build/src/builder.rs:139-141 | The forward values are handed over once. |
| Builder.MergeInvertedInto | crates/montre-index/src/inverted.rs:42-54 | The nested maps of bitmaps are merged at an offset, in any hash order. |
| Builder.MergeLexiconInto | crates/montre-index/src/lexicon.rs:37-44 | Terms are merged layer by layer, new ones at the end. |
| Mwt.Search | crates/montre-index/src/mwt.rs:129-146 | The last entry that starts at the position or before. |
| Mwt.LowerBound | crates/montre-index/src/mwt.rs:148-165 | The first entry that ends after the position. |
| Mwt.Covering | crates/montre-index/src/mwt.rs:100-108 | The entry that contains the position; None means that none does. |
| Mwt.InRange | crates/montre-index/src/mwt.rs:110-127 | Exactly the entries that overlap the range, in order. |
| Surface.SurfaceText | crates/montre-index/src/corpus.rs:379-407 | The text is the line of the pieces of the range, where a multiword token stands for its whole range. |
| Surface.BuildSurfaceWithTokens | crates/montre-daemon/src/handlers/text.rs:96-144 | The text is the line of the pieces where only whole multiword tokens stand; one row per position, byte offsets that never go back, emitted rows for words and forms with exactly their text as slice, silent rows for the rest of a form. |
| Surface.SurfacesAgree | crates/montre-index/src/corpus.rs:379-407 | On a range that cuts no multiword token both functions give the same text. |
| Surface.AgreeIffUncut | crates/montre-daemon/src/handlers/text.rs:96-144 | They agree whatever the words are if and only if the range is empty or cuts no multiword token. |
| RunningText.TextJoins | crates/montre-index/src/corpus.rs:379-407 | The text of a range is the texts of its two parts, with a space between them unless the word or the multiword token before says that there is none, wherever no multiword token is cut. |
| RunningText.FormText | crates/montre-index/src/corpus.rs:379-407 | The text of a multiword token is its form. |
| RunningText.PlainText | crates/montre-index/src/corpus.rs:379-407 | On a range without multiword tokens both functions give the words one after the other, with a space after each but the last and those that say there is none. |
| RunningText.BuiltText | crates/montre-index/src/corpus.rs:379-407 | Documents built, written, opened and read as text: on a range without multiword tokens the text is the words of the input tokens, with spaces exactly where the input has them. |
| RunningText.BuiltForm | crates/montre-index/src/corpus.rs:379-407 | The text of a multiword token of the input is its form. |
| Couplers.CreatesCycle | crates/montre-daemon/src/state.rs:552-572 | The search with stack and visited set ends, and is true exactly when the follower already leads to the master. |
| Couplers.AddedAcyclicIff | crates/montre-daemon/src/state.rs:447-529 | Adding a coupler keeps the graph without cycles if and only if the follower does not lead to the master. |
| Couplers.SubgraphAcyclic | crates/montre-daemon/src/state.rs:146-170 | Dropping couplers closes no cycle. |
| Interests.TransformKind | crates/montre-daemon/src/state.rs:779-837 | Whatever news a coupler makes of an interest has the kind its signature announces. |
| Interests.CompatibleDelivers | crates/montre-daemon/src/state.rs:732-754 | So a follower that fits a coupler gets only kinds it declared to consume. |
| Interests.WidenPositionToSentence | crates/montre-daemon/src/state.rs:839-851 | A position of a document gives the sentence that contains it, by its rank after the first sentence of the document; any other position gives nothing. |
| Interests.SentenceToSpan | crates/montre-daemon/src/state.rs:853-862 | The span of the sentence of a rank in a document, if one that starts there has it. |
| Interests.ProjectAlignment | crates/montre-daemon/src/handlers/alignment.rs:42-132 | From the name of an alignment: its first entry, the first components of its two names, and the reply of the projection; an error where one of them is missing. |
| Interests.TransformInterest | crates/montre-daemon/src/state.rs:779-837 | What a coupler of each kind makes of an interest: the sentence itself or the one around a position, the targets of a projection in order, the place of a hit, or nothing. |
| Interests.RankInside | crates/montre-daemon/src/state.rs:839-851 | The rank that is sent for a sentence which begins in the document is its distance from the first one there. |
| Interests.ToldOnce | crates/montre-daemon/src/state.rs:779-837 | An interest, a coupler and the state of the corpus and the results determine what the follower is told, down to the order. |
| Sessions.State.Register | crates/montre-daemon/src/state.rs:98-144 | A wrong version is refused and changes nothing; otherwise the next id goes on the roster, and the clock of the empty roster stops. |
| Sessions.State.Unregister | crates/montre-daemon/src/state.rs:146-170 | The process leaves the roster with all its couplers and subscriptions, and the clock starts when the roster becomes empty. |
| Sessions.State.UpdateLabel | crates/montre-daemon/src/state.rs:172-184 | Only the label of a known process changes. |
| Sessions.State.PublishInterest | crates/montre-daemon/src/state.rs:197-237 | An interest that the process offers is stored, and for each coupler that the process masters exactly the news of that coupler is sent, in order, to its follower; any other interest is ignored. Through KwicSelection the news is the place of the hit in the table of results; through SentenceMirror the sentence itself or the one that contains the position or the span's start; through Alignment the targets of the projection of the range, in its order; through the other kinds nothing. |
| Sessions.State.CouplerCreate | crates/montre-daemon/src/state.rs:447-529 | Unknown process, cycle and incompatible kind are refused in this order and change nothing; otherwise the coupler is there and the news that it makes of the master's interest, the same as in publishing, is sent to the follower in order. |
| Sessions.State.CouplerRemove | crates/montre-daemon/src/state.rs:531-538 | Exactly the coupler of that id goes; an unknown id is refused. |
| Sessions.State.Subscribe | crates/montre-daemon/src/state.rs:574-587 | A process on the roster is added to a topic. |
| Sessions.State.Unsubscribe | crates/montre-daemon/src/state.rs:589-593 | The process is taken off the topic. |
| Sessions.State.CheckIdle | crates/montre-daemon/src/state.rs:661-672 | The daemon shuts down only when a timeout is set and the roster has been empty that long. |
| Sessions.RegisteredSoundIff | crates/montre-daemon/src/state.rs:86-144 | A registration keeps the state sound if and only if the new process serves the couplers that already refer to its id, which exist only once the counter has wrapped around. |
| Sessions.WrappedRun | crates/montre-daemon/src/state.rs:86-144 | A run of commands from the start of the daemon, with the id counter wrapping around, ends in a state that is not sound: the id of a coupled process is given again, to one that does not offer what its coupler needs. |
| Sessions.FreshIdSound | crates/montre-daemon/src/state.rs:98-144 | With an id that is not in use a registration keeps the state sound. |
| Sessions.UnregisteredSound | crates/montre-daemon/src/state.rs:146-170 | Unregistering keeps the state sound and drops exactly the couplers that touch the process. |
| Sessions.CoupledSound | crates/montre-daemon/src/state.rs:447-529 | A coupler that is not refused keeps the state sound, also where it takes over the id of another after wrap-around. |
| Sessions.RefusedIffUnsound | crates/montre-daemon/src/state.rs:447-496 | With a fresh coupler id, a coupler is refused if and only if it would make the state unsound. |
| Sessions.DeliveredIsConsumed | crates/montre-daemon/src/state.rs:197-237 | Every interest delivered goes to a process on the roster that declared to consume its kind. |
| Sessions.PublishedIsConsumed | crates/montre-daemon/src/state.rs:197-237 | Everything that publishing an interest sends comes from a coupler that the process masters and goes to the follower of that coupler, in a kind it declared to consume. |
| Sessions.RunDelivers | crates/montre-daemon/src/state.rs:197-237 | Over all runs: whatever a coupler sends when a command is applied goes to a process on the roster that declared to consume its kind. |
| Sessions.RunSound | crates/montre-daemon/src/state.rs:1021-1105 | Over all runs: couplers and subscriptions refer to the roster, couplers fit their ends and form no cycle, and the idle clock runs exactly while the roster is empty. |
| Histories.RosterIff | crates/montre-daemon/src/state.rs:98-170 | Over all runs: on the roster after n commands is exactly who was given the id by an accepted registration and has not unregistered since. |
| Histories.LabelIff | crates/montre-daemon/src/state.rs:172-184 | Over all runs: a process has exactly the label that it registered with or was given last. |
| Histories.InterestIff | crates/montre-daemon/src/state.rs:197-211 | Over all runs: the interest of a process is exactly the last one that it published and that was accepted. |
| Histories.IdleSince | crates/montre-daemon/src/state.rs:98-170 | Over all runs: the idle clock shows exactly when the last process left, or the start where none ever came. |
| Histories.SubscribedIff | crates/montre-daemon/src/state.rs:574-593 | Over all runs: subscribed to a topic is exactly who subscribed while on the roster and has neither unsubscribed nor unregistered since. |
| Histories.CouplerIff | crates/montre-daemon/src/state.rs:447-538 | Over all runs: a coupler is there exactly if it was created and since then neither removed, nor its id taken by another, nor one of its ends unregistered. |
| ResultFile.LoadNamedResults | crates/montre-daemon/src/storage.rs:147-191 | Loading keeps, of the lines that parse and have a name, the last one per name; a missing file is empty. |
| ResultFile.WrittenReplays | crates/montre-daemon/src/storage.rs:118-191 | Loading a persisted file gives exactly the records, whatever order they were written in. |
| ResultFile.Disk.WriteAtomic | crates/montre-daemon/src/storage.rs:193-202 | The file is replaced as a whole or not at all, whichever step fails. |
| ResultFile.Disk.Persist | crates/montre-daemon/src/storage.rs:118-145 | Success leaves a file of the given records, failure leaves the old file. |
| NamedResults.State.constructor | crates/montre-daemon/src/state.rs:79-84 | After a start the names are those of the file and no result is in memory. |
| NamedResults.State.InsertResult | crates/montre-daemon/src/state.rs:239-262 | A query result gets a new handle; names and file stay. |
| NamedResults.State.SaveResult | crates/montre-daemon/src/state.rs:264-319 | A missing handle, a name in use and a failed write are refused and change neither memory nor file; otherwise both have the new name. |
| NamedResults.State.MaterializeResult | crates/montre-daemon/src/state.rs:321-358 | Only a result in memory that is not yet materialized changes; otherwise an error says why. |
| NamedResults.State.LoadNamed | crates/montre-daemon/src/state.rs:360-376 | The result in memory, or what is needed to replay it; nothing changes. |
| NamedResults.State.InstallReplayed | crates/montre-daemon/src/state.rs:378-384 | A replayed result is put under its handle; names and file stay. |
| NamedResults.State.DeleteNamed | crates/montre-daemon/src/state.rs:408-435 | An unknown name and a failed write change nothing; otherwise the name is gone from memory and file, and its result from memory. |
| NamedResults.State.DiscardHandle | crates/montre-daemon/src/state.rs:437-445 | Only a result without a name is dropped. |
| NamedResults.StepKeeps | crates/montre-daemon/src/state.rs:264-445 | Every command, failure and crash keeps: file and memory have the same names, and the result a name refers to is of the kept kind. |
| NamedResults.RunSound | crates/montre-daemon/src/state.rs:264-445 | Over all runs with failed writes, crashes and restarts: replaying the file gives exactly the names in memory, after every step. |
| SavedNames.SavedLoads | crates/montre-daemon/src/state.rs:264-376 | A saved result is loaded under its name; saved, restarted and loaded, its handle, query and date come back for the replay. |
| SavedNames.InsertedIsListed | crates/montre-daemon/src/state.rs:239-406 | A query result that is saved is listed, before a restart and after it, with its query, its date and the number of its hits. |
| SavedNames.SavedOnce | crates/montre-daemon/src/state.rs:264-283 | A saved name is refused to any other save, before a restart and after it. |
| SavedNames.MaterializedOnce | crates/montre-daemon/src/state.rs:321-358 | Materializing dates the result and leaves query and hits; the second time it is refused and changes nothing. |
| SavedNames.RecordStays | crates/montre-daemon/src/state.rs:264-445 | Over all runs with failures and crashes: as long as a name is there it stands for the result that was saved under it, and loading it after a restart gives that query. |
| SavedNames.SavedStays | crates/montre-daemon/src/state.rs:264-445 | From saving a result on, over any run that keeps the name: loading it after a restart gives the query that was saved. |
| NamedResults.CrashIsAtomic | crates/montre-daemon/src/storage.rs:193-202 | A crash leaves the names from before the interrupted command, or those after it. |
| NamedResults.DiscardSpares | crates/montre-daemon/src/state.rs:437-445 | Discarding never removes a result that a name refers to. |
| NamedResults.DeleteSparesIff | crates/montre-daemon/src/state.rs:408-435 | Deleting a name leaves the result of another name alone if and only if the two share no result in memory. |
| NamedResults.DeleteCanDropOther | crates/montre-daemon/src/state.rs:408-435 | Sharing is possible: one result under two names, one deleted, and the other has to be replayed. |
| NamedResults.ListsAllNamesIff | crates/montre-daemon/src/state.rs:386-406 | Listing reports exactly the names if and only if no two of them share a result in memory. |
| NamedResults.InstalledLabelledIff | crates/montre-daemon/src/state.rs:378-384 | A replayed result keeps the labels right if and only if the name it carries still refers to it, or none does. |
| NamedResults.StepLabelled | crates/montre-daemon/src/state.rs:264-445 | Every other step keeps them right. |
| NamedResults.LateReplayMislabels | crates/montre-daemon/src/state.rs:378-406 | A replay that arrives after its name was deleted makes listing report the deleted name. |
| NamedResults.LateReplayHappens | crates/montre-daemon/src/state.rs:360-384 | There is such a state: two names of one result, a replay begun for one of them, which is deleted before the replay is installed. |
| ClientRace.RunKeeps | crates/montre-daemon/src/client.rs:352-397 | The invariant of requests, pending map, channels and flag, over all interleavings. |
| ClientRace.NoLostRequest | crates/montre-daemon/src/client.rs:485-534 | Once the reader has raised the flag and cleared the map, no request waits on a sender that is alive. |
| ClientRace.AnswersMatch | crates/montre-daemon/src/client.rs:559-579 | An answer is the response with the request's id; no id is answered twice and no two requests share one. |
| ClientRace.StepsLower | crates/montre-daemon/src/client.rs:352-397 | Each step of a request brings it nearer to its end, and no other step moves it. |
| ClientRace.NeverStuck | crates/montre-daemon/src/client.rs:524-534 | After the reader is gone, every unfinished request can take a step. |
| ClientRace.SecondLookNeeded | crates/montre-daemon/src/client.rs:368-371 | Without the second look at the flag, a run from the start leads to a request that waits, after the reader is gone, on a sender that is alive; with it no run does. |
| ClientRace.WaitsForEver | crates/montre-daemon/src/client.rs:368-371 | From there the request stays waiting in every continuation, unless its own timeout ends it. |
| Connections.RunKeeps | crates/montre-daemon/src/dispatch.rs:242-317 | The invariant of connections, command queue and roster, over all interleavings. |
| Connections.OneIdEach | crates/montre-daemon/src/dispatch.rs:451-474 | A connection holds at most one process id in its life, and no id is held twice. |
| Connections.QuietRoster | crates/montre-daemon/src/handlers/session.rs:10-25 | Whenever no registration or departure is in flight, the roster's ids are exactly those of the open connections. |
| Connections.RegisteredSends | crates/montre-daemon/src/dispatch.rs:358-413 | Whatever waits for the state thread, but for registrations, comes from a connection whose process is on the roster and is in the name of that process: the gate lets no other request through. |
| DaemonAlign.OverlappingSentences | crates/montre-daemon/src/handlers/alignment.rs:79-98 | The ranks of the sentences of a document that overlap a range, ascending. |
| DaemonAlign.FollowEdges | crates/montre-daemon/src/handlers/alignment.rs:102-129 | The targets of one unit that are not there yet are added once each, in the order of the edges; a target that cannot be found is an error. |
| DaemonAlign.ProjectAlignment | crates/montre-daemon/src/handlers/alignment.rs:42-132 | The reply is an error exactly when the document is not one of the source component or some target cannot be found; otherwise it is the image of all overlapping sentences, each target once, in the order of the sentences and then of the edges. |
| DaemonAlign.ProjectionsAgree | crates/montre-daemon/src/handlers/alignment.rs:79-131 | For a non-empty hit inside one sentence with edges in range there is no error, and the targets are exactly the spans that the query engine projects the hit to. |
| DaemonAlign.SameReplyIff | crates/montre-daemon/src/handlers/alignment.rs:79-131 | For a non-empty hit inside one sentence and any reply: there is no error and the targets, with their documents, are exactly the spans that the query engine projects to if and only if every edge of the unit leads to a sentence of its document. |
| DaemonAlign.OvershootingReply | crates/montre-daemon/src/handlers/alignment.rs:109-129 | Three documents of one sentence and an edge to a second sentence of the second: the daemon replies with the sentence of the third under the number of the second, which the engine does not have. |
| DaemonAlign.OutOfRange | crates/montre-daemon/src/handlers/alignment.rs:109-129 | An edge out of range that is found all the same leads to a sentence that does not belong to the document it is reported for. |

## Left out

- Execute.ExecuteNode: which of the cuts of a span a scan keeps is left open, as hash order and an unstable sort decide it; so below a constraint filter a set of possible results is stated.
- Query.RunQuery: where what the constraints read is not fixed, the spans are stated from both sides, as the kept captures decide between them; where the quantifiers are not safe either, only from above.
- Labelled.RunLabelled: claims that the captures kept are those of a genuine cut, not that all captures of a span are kept.
- Dispatch.WithinDocumentAgrees: stated under the safety check, which `Dispatch.LocalIffSafe` shows to be needed.
- Mapped.GetStr: in a damaged file, a lookup (`GetInt` too) that would go beyond the file is None here, where the program stops; files that the writer made are not concerned.
- Streaming.StreamChunks: layer names within one chunk are distinct, as the builder makes them; file system errors are not modelled.
- Sink.BuiltInParts: into a sink without forward values, as the builds use it; for two sinks with them see `SinkMerge.MergedBuilt`.
- Sessions.RunSound: for fewer than 2^32 - 2 registrations; coupler ids may wrap.
- Connections.RunKeeps: for runs in which process ids do not wrap.
- NamedResults.RunSound: handles of new results are assumed fresh, as random ones are.
- Sessions.State.PublishInterest: notifications are collected in a list; full queues and the broadcasts about roster, names and shutdown are not modelled.
- Interests.WidenPositionToSentence: for a sentence that begins before its document, which the builder never writes, the rank is the difference taken in 32 bits, where a build with overflow checks would stop.
- Interests.TransformInterest: the corpus has ordered spans and fewer than 2^32 documents and sentences, as the builder writes them; the table of results is the one at the moment of the call.
- ClientRace.RunKeeps: any number of requests at a time, where the program has one; the contents of messages and the threads' scheduling are not modelled.
- The class of the daemon's state is split in two with disjoint fields, `Sessions.State` for roster, couplers, subscriptions and clock, `NamedResults.State` for results and names.
- Regular expressions are functions from strings to truth values that may fail to compile; bitmaps are finite sets with rank; their serialized form is a function with an inverse on sets of 32-bit positions; UTF-8 validity is a predicate.
- JSON lines are a rendering function with a parser that inverts it; time is a number and identifiers of results are parameters.
- In the builder, positions stay below 2^32, so its narrowing casts are not written out.
- Parallel iteration over documents is a loop in order, as its results are collected in order.
- Document and sentence fields of hits, and the separate fields of empty nodes (kept as one string) are left out.
- The query parser, the reader of CoNLL-U files, manifests, alignment files, and command line, Python and C interfaces are left out.
- The files of multiword tokens, spans, sentence ids and spacing repeat the layout idea of the forward file with less in it.
- Sockets, process spawning, locks on files and signals are left out; a write of the named-results file may fail at each of its steps, and the daemon may die there.
