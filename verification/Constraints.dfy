// crates/montre-query/src/executor.rs: evaluation of attribute and distance constraints on
// the captures of a hit. Attribute values are looked up once per (label, attribute) key
// and compared by key index; this is shown to be the direct reading of each constraint.
module Constraints {
  import opened Core
  import opened Ast
  import opened Plan
  import opened Labelled
  import opened Hits

  type Key = (string, string)

  // The span captured under a name: the first one in the list.
  function Captured(cs: Captures, name: string): Option<Span> {
    if cs == [] then None else if cs[0].0 == name then Some(cs[0].1) else Captured(cs[1..], name)
  }

  function Compare(value: nat, op: CmpOp, target: nat): bool {
    match op
    case Ge => value >= target
    case Gt => value > target
    case Le => value <= target
    case Lt => value < target
    case Eq => value == target
    case Ne => value != target
  }

  // Tokens between the end of one capture and the start of the other, never negative.
  function Gap(a: Span, b: Span): nat {
    if b.start >= a.end then b.start - a.end else 0
  }

  // The direct reading of a distance: b begins so many tokens after a ends. Where b begins before
  // that, the distance is 0.
  predicate Apart(a: Span, b: Span, op: CmpOp, k: nat) {
    match op
    case Lt => k > 0 && b.start < a.end + k
    case Le => b.start <= a.end + k
    case Gt => a.end + k < b.start
    case Ge => k == 0 || a.end + k <= b.start
    case Eq => if k == 0 then b.start <= a.end else b.start == a.end + k
    case Ne => if k == 0 then a.end < b.start else b.start != a.end + k
  }

  lemma CompareIsApart(a: Span, b: Span, op: CmpOp, k: nat)
    ensures Compare(Gap(a, b), op, k) <==> Apart(a, b, op, k)
  {
  }

  // Two captures have one distance, the one that equality keeps, and every operator compares it.
  lemma DistanceOrder(a: Span, b: Span, k: nat) returns (d: nat)
    ensures forall x: nat :: Apart(a, b, Eq, x) <==> x == d
    ensures Apart(a, b, Lt, k) <==> d < k
    ensures Apart(a, b, Le, k) <==> d <= k
    ensures Apart(a, b, Gt, k) <==> d > k
    ensures Apart(a, b, Ge, k) <==> d >= k
    ensures Apart(a, b, Ne, k) <==> d != k
  {
    d := Gap(a, b);
  }

  function AttrOf(c: Corpus, h: Hit, name: string, attr: string): Option<string> {
    var span := Captured(h.captures, name);
    if span.None? then None else c.attribute(span.value.start, attr)
  }

  // The direct reading of one constraint.
  predicate Satisfies(c: Corpus, h: Hit, g: GlobalConstraint) {
    match g
    case SameAttr(l, r) =>
      var a, b := AttrOf(c, h, l.name, l.attr), AttrOf(c, h, r.name, r.attr);
      a.Some? && b.Some? && a.value == b.value
    case DifferentAttr(l, r) =>
      var a, b := AttrOf(c, h, l.name, l.attr), AttrOf(c, h, r.name, r.attr);
      a.Some? && b.Some? && a.value != b.value
    case Distance(from, to, op, value) =>
      var a, b := Captured(h.captures, from), Captured(h.captures, to);
      a.Some? && b.Some? && Apart(a.value, b.value, op, value)
  }

  // The first capture of that name.
  ghost predicate FirstNamed(cs: Captures, i: nat, name: string) {
    i < |cs| && cs[i].0 == name && forall j :: 0 <= j < i ==> cs[j].0 != name
  }

  lemma {:induction false} CapturedIsFirst(cs: Captures, i: nat, name: string)
    requires FirstNamed(cs, i, name)
    ensures Captured(cs, name) == Some(cs[i].1)
  {
    if i > 0 {
      assert cs[0].0 != name;
      CapturedIsFirst(cs[1..], i - 1, name);
    }
  }

  // What a constraint asks of the captures that it names.
  lemma DistanceReads(c: Corpus, h: Hit, from: string, to: string, op: CmpOp, k: nat, i: nat, j: nat)
    requires FirstNamed(h.captures, i, from) && FirstNamed(h.captures, j, to)
    ensures Satisfies(c, h, Distance(from, to, op, k)) <==> Apart(h.captures[i].1, h.captures[j].1, op, k)
  {
    CapturedIsFirst(h.captures, i, from);
    CapturedIsFirst(h.captures, j, to);
  }

  lemma AttrsRead(c: Corpus, h: Hit, l: LabelAttr, r: LabelAttr, i: nat, j: nat)
    requires FirstNamed(h.captures, i, l.name) && FirstNamed(h.captures, j, r.name)
    ensures var a, b := c.attribute(h.captures[i].1.start, l.attr), c.attribute(h.captures[j].1.start, r.attr);
      && (Satisfies(c, h, SameAttr(l, r)) <==> a.Some? && a == b)
      && (Satisfies(c, h, DifferentAttr(l, r)) <==> a.Some? && b.Some? && a != b)
  {
    CapturedIsFirst(h.captures, i, l.name);
    CapturedIsFirst(h.captures, j, r.name);
  }

  ghost predicate SatisfiesAll(c: Corpus, h: Hit, gs: seq<GlobalConstraint>) {
    forall g :: g in gs ==> Satisfies(c, h, g)
  }

  function KeysOf(g: GlobalConstraint): seq<Key> {
    match g
    case SameAttr(l, r) => [(l.name, l.attr), (r.name, r.attr)]
    case DifferentAttr(l, r) => [(l.name, l.attr), (r.name, r.attr)]
    case Distance(_, _, _, _) => []
  }

  method CollectAttrKeys(gs: seq<GlobalConstraint>) returns (keys: seq<Key>)
    ensures NoDup(keys)
    ensures forall k :: k in keys <==> exists g :: g in gs && k in KeysOf(g)
  {
    keys := [];
    for i := 0 to |gs|
      invariant NoDup(keys)
      invariant forall k :: k in keys <==> exists g :: g in gs[..i] && k in KeysOf(g)
    {
      assert gs[..i + 1] == gs[..i] + [gs[i]];
      ghost var before := keys;
      if !gs[i].Distance? {
        var l := (gs[i].left.name, gs[i].left.attr);
        var r := (gs[i].right.name, gs[i].right.attr);
        if l !in keys {
          keys := keys + [l];
        }
        if r !in keys {
          keys := keys + [r];
        }
      }
      assert forall k :: k in keys <==> k in before || k in KeysOf(gs[i]);
      assert forall k :: k in KeysOf(gs[i]) ==> gs[i] in gs[..i + 1];
    }
    assert gs[..|gs|] == gs;
  }

  function ResolveAttrs(c: Corpus, h: Hit, keys: seq<Key>): (r: seq<Option<string>>)
    ensures |r| == |keys|
    ensures forall i :: 0 <= i < |keys| ==> r[i] == AttrOf(c, h, keys[i].0, keys[i].1)
  {
    seq(|keys|, i requires 0 <= i < |keys| => AttrOf(c, h, keys[i].0, keys[i].1))
  }

  function KeyIndex(keys: seq<Key>, k: Key): (r: Option<nat>)
    ensures r.Some? ==> r.value < |keys| && keys[r.value] == k
    ensures r.None? ==> k !in keys
  {
    if keys == [] then None
    else if keys[0] == k then Some(0)
    else
      var rest := KeyIndex(keys[1..], k);
      if rest.None? then None else Some(rest.value + 1)
  }

  // eval_attr_compare: None when a key or a value is missing.
  function CompareAttrs(resolved: seq<Option<string>>, keys: seq<Key>, l: LabelAttr, r: LabelAttr): Option<bool>
    requires |resolved| == |keys|
  {
    var i, j := KeyIndex(keys, (l.name, l.attr)), KeyIndex(keys, (r.name, r.attr));
    if i.None? || j.None? then None
    else if resolved[i.value].None? || resolved[j.value].None? then None
    else Some(resolved[i.value].value == resolved[j.value].value)
  }

  predicate HoldsWith(h: Hit, g: GlobalConstraint, keys: seq<Key>, resolved: seq<Option<string>>)
    requires |resolved| == |keys|
  {
    match g
    case SameAttr(l, r) => CompareAttrs(resolved, keys, l, r) == Some(true)
    case DifferentAttr(l, r) => CompareAttrs(resolved, keys, l, r) == Some(false)
    case Distance(from, to, op, value) =>
      var a, b := Captured(h.captures, from), Captured(h.captures, to);
      a.Some? && b.Some? && Compare(Gap(a.value, b.value), op, value)
  }

  predicate EvaluateConstraints(c: Corpus, h: Hit, gs: seq<GlobalConstraint>, keys: seq<Key>) {
    var resolved := ResolveAttrs(c, h, keys);
    forall g :: g in gs ==> HoldsWith(h, g, keys, resolved)
  }

  lemma EvaluationIsDirect(c: Corpus, h: Hit, gs: seq<GlobalConstraint>, keys: seq<Key>)
    requires forall g, k :: g in gs && k in KeysOf(g) ==> k in keys
    ensures EvaluateConstraints(c, h, gs, keys) <==> SatisfiesAll(c, h, gs)
  {
    var resolved := ResolveAttrs(c, h, keys);
    forall g | g in gs
      ensures HoldsWith(h, g, keys, resolved) <==> Satisfies(c, h, g)
    {
      if g.Distance? {
        var a, b := Captured(h.captures, g.from), Captured(h.captures, g.to);
        if a.Some? && b.Some? {
          CompareIsApart(a.value, b.value, g.op, g.value);
        }
      } else {
        var l, r := (g.left.name, g.left.attr), (g.right.name, g.right.attr);
        assert l in KeysOf(g) && r in KeysOf(g);
      }
    }
  }
}
