/**
 * The operations a form performs on the registry: setValue by number or by
 * text, setMultiplierIndex, the same on a composite's child, addField and
 * removeField on a composite, and addDepends / removeDepends between two
 * named fields.
 */
module Edits {
  import opened Wrappers
  import opened Tables
  import opened Fields
  import opened Graph
  import Catalog

  /* ---------------------------------------------------------------------
     setValue on a named field
     --------------------------------------------------------------------- */

  /** The row a follower copies: m_iValue of the field it follows. */
  function Tracked(r: Registry, k: Kind): Option<int> {
    if k.FollowsField? && k.follows.Some? && k.follows.value in r && r[k.follows.value].Built?
    then IntValue(r[k.follows.value].field.kind)
    else None
  }

  /** Installs the field a setValue produced and, when the setValue goes on
      to propagateChange, updates the dependents and notifies. */
  function Commit(r: Registry, x: FieldId, step: Step): (res: Result<(Registry, seq<Event>)>)
    requires x in r && r[x].Built?
    ensures res.Ok? ==> && res.value.0.Keys == r.Keys
                        && res.value.0[x] == Built(Field(step.title, step.kind, r[x].field.dependents))
                        && Agree(r, res.value.0, Catalog.Level(x))
    ensures res.Ok? && !step.propagates ==> res.value.1 == []
    ensures res.Ok? && step.propagates ==> 0 < |res.value.1| && res.value.1[|res.value.1| - 1] == Changed(x)
    ensures !step.propagates ==> res.Ok?
  {
    var f := r[x].field;
    var r1 := r[x := Built(Field(step.title, step.kind, f.dependents))];
    if !step.propagates then Ok((r1, []))
    else
      var p :- Propagate(r1, x);
      AgreeThrough(r, r1, p.0, x, Catalog.Level(x) + 1);
      Ok(p)
  }

  /** Changing only `x` and then everything ranked above it leaves every
      name ranked below `x` as it was. */
  lemma AgreeThrough(r: Registry, r1: Registry, r2: Registry, x: FieldId, l: int)
    requires x in r && r1.Keys == r.Keys && forall y :: y in r && y != x ==> r1[y] == r[y]
    requires Agree(r1, r2, l) && Catalog.Level(x) <= l
    ensures Agree(r, r2, Catalog.Level(x))
  {
  }

  /** The field under a name, if the name is built. */
  predicate IsBuilt(r: Registry, x: FieldId) {
    x in r && r[x].Built?
  }

  /** setValue(int) on a named field. The registry changes only at `x` and
      above it; a setValue that is refused (a value row out of range)
      changes nothing and notifies nobody. */
  function SetValue(r: Registry, x: FieldId, d: int): (res: Result<(Registry, seq<Event>)>)
    ensures res.Ok? ==> IsBuilt(r, x) && res.value.0.Keys == r.Keys && Agree(r, res.value.0, Catalog.Level(x))
    ensures res.Ok? ==> && res.value.0[x].Built?
                        && res.value.0[x].field.title == r[x].field.title
                        && res.value.0[x].field.dependents == r[x].field.dependents
                        && SameWiring(r[x].field.kind, res.value.0[x].field.kind)
                        && (KindOk(r[x].field.kind) ==> KindOk(res.value.0[x].field.kind))
    ensures res.Ok? && res.value.1 == [] ==> NoValueChange(r[x].field.kind, res.value.0[x].field.kind)
    ensures res.Ok? && res.value.1 != [] ==> res.value.1[|res.value.1| - 1] == Changed(x)
    ensures IsBuilt(r, x) && !r[x].field.kind.OpaqueField? && !r[x].field.kind.FollowsField? && res.Err? ==>
      SetInt(r[x].field.title, r[x].field.kind, d, None).value.propagates
  {
    if !IsBuilt(r, x) then Err(Misuse)
    else
      var f := r[x].field;
      var step :- SetInt(f.title, f.kind, d, Tracked(r, f.kind));
      Commit(r, x, step)
  }

  /** setValue(String) on a named field: SFXBase takes the text as its
      title; every other class parses it. */
  function SetTextOf(r: Registry, x: FieldId, s: string): (res: Result<(Registry, seq<Event>)>)
    ensures res.Ok? ==> IsBuilt(r, x) && res.value.0.Keys == r.Keys && Agree(r, res.value.0, Catalog.Level(x))
    ensures res.Ok? ==> && res.value.0[x].Built?
                        && res.value.0[x].field.dependents == r[x].field.dependents
                        && SameWiring(r[x].field.kind, res.value.0[x].field.kind)
                        && (KindOk(r[x].field.kind) ==> KindOk(res.value.0[x].field.kind))
    ensures res.Ok? && (r[x].field.kind.BaseField? || r[x].field.kind.CompositeField?) ==>
      res.value.0[x].field.title == s && res.value.0[x].field.kind == r[x].field.kind
    ensures res.Ok? && res.value.1 == [] ==> NoValueChange(r[x].field.kind, res.value.0[x].field.kind)
    ensures res.Ok? && res.value.1 != [] ==> res.value.1[|res.value.1| - 1] == Changed(x)
  {
    if !IsBuilt(r, x) then Err(Misuse)
    else
      var f := r[x].field;
      var step :- SetText(f.title, f.kind, s, Tracked(r, f.kind));
      Commit(r, x, step)
  }

  /** setMultiplierIndex on a value field: the multiplier moves only to an
      index it has, and the change propagates either way. */
  function SetMultiplier(r: Registry, x: FieldId, m: int): (res: Result<(Registry, seq<Event>)>)
    ensures res.Ok? ==> IsBuilt(r, x) && res.value.0.Keys == r.Keys && Agree(r, res.value.0, Catalog.Level(x))
    ensures res.Ok? ==> IsBuilt(res.value.0, x)
    ensures res.Ok? ==> var k := r[x].field.kind; var k2 := res.value.0[x].field.kind;
      && (k.ValueField? || k.ModifierField? || k.FollowsField?)
      && SameWiring(k, k2) && k2.v.index == k.v.index && k2.v.table == k.v.table
      && (0 <= m < |Offsets(k.v.mult.scale)| ==> k2.v.mult.index == m)
      && (m < 0 || |Offsets(k.v.mult.scale)| <= m ==> k2.v.mult == k.v.mult)
    ensures res.Ok? ==> 0 < |res.value.1| && res.value.1[|res.value.1| - 1] == Changed(x)
  {
    if !IsBuilt(r, x) then Err(Misuse)
    else
      var f := r[x].field;
      var k :- SetMultiplierIndex(f.kind, m);
      Commit(r, x, Step(f.title, k, true))
  }

  /* ---------------------------------------------------------------------
     The children of a composite
     --------------------------------------------------------------------- */

  /** A named composite and its children. */
  predicate IsComposite(r: Registry, p: FieldId) {
    IsBuilt(r, p) && r[p].field.kind.CompositeField?
  }

  /** A setValue that keeps a leaf's class keeps it well-formed. */
  lemma StepKeepsLeaf(title: string, k: Kind, step: Result<Step>)
    requires LeafOk(k) && StepKeeps(title, k, step) && step.Ok?
    ensures LeafOk(step.value.kind)
  {
  }

  /** Commits a child's setValue: the child sends its change to the parent,
      its only dependent, which updates; then the child's listeners, which
      are the parent's, hear of the child. */
  function CommitChild(r: Registry, p: FieldId, i: nat, step: Step): (res: Result<(Registry, seq<Event>)>)
    requires IsComposite(r, p) && i < |r[p].field.kind.children|
    requires KindOk(r[p].field.kind) && LeafOk(step.kind)
    ensures res.Ok? ==> && res.value.0.Keys == r.Keys && Agree(r, res.value.0, Catalog.Level(p))
                        && IsComposite(res.value.0, p) && KindOk(res.value.0[p].field.kind)
    ensures res.Ok? ==> var cs := r[p].field.kind.children; var cs2 := res.value.0[p].field.kind.children;
      && cs2 == cs[i := Child(step.title, step.kind)]
      && ChildrenCost(cs2) == ChildrenCost(cs) - LeafCost(cs[i].kind) + LeafCost(step.kind)
    ensures res.Ok? && !step.propagates ==> res.value.1 == []
    ensures res.Ok? && step.propagates ==> 0 < |res.value.1| && res.value.1[|res.value.1| - 1] == ChildChanged(p, i)
  {
    var f := r[p].field;
    var cs := f.kind.children;
    var c := Child(step.title, step.kind);
    ChildrenCostReplace(cs, i, c);
    var r1 := Recompose(r, p, cs[i := c]);
    if !step.propagates then Ok((r1, []))
    else
      var u :- Update(r1, p);
      UpdateKeepsComposite(r, r1, u.0, p);
      Ok((u.0, u.1 + [ChildChanged(p, i)]))
  }

  /** The registry with the composite `p` holding the children `cs`. */
  function Recompose(r: Registry, p: FieldId, cs: seq<Child>): (r1: Registry)
    requires IsComposite(r, p) && forall j :: 0 <= j < |cs| ==> LeafOk(cs[j].kind)
    ensures r1.Keys == r.Keys && (forall y :: y in r && y != p ==> r1[y] == r[y])
    ensures Ready(r1, p) && IsComposite(r1, p) && r1[p].field.kind.children == cs
    ensures r1[p].field.title == r[p].field.title && r1[p].field.dependents == r[p].field.dependents
    ensures SameWiring(r[p].field.kind, r1[p].field.kind)
  {
    var f := r[p].field;
    r[p := Built(Field(f.title, CompositeField(f.kind.composite, cs), f.dependents))]
  }

  /** A composite's update keeps its children and its well-formedness and
      touches nothing ranked below it. */
  lemma UpdateKeepsComposite(r: Registry, r1: Registry, r2: Registry, p: FieldId)
    requires IsComposite(r1, p) && Update(r1, p).Ok? && r2 == Update(r1, p).value.0
    requires p in r && r1.Keys == r.Keys && (forall y :: y in r && y != p ==> r1[y] == r[y])
    ensures r2.Keys == r.Keys && Agree(r, r2, Catalog.Level(p))
    ensures IsComposite(r2, p) && KindOk(r2[p].field.kind)
    ensures r2[p].field.kind.children == r1[p].field.kind.children
  {
    assert KeepsSlot(r1[p], r2[p]);
    AgreeThrough(r, r1, r2, p, Catalog.Level(p));
  }

  /** setValue(int) on the child at position `i` of a composite. */
  function SetChildValue(r: Registry, p: FieldId, i: nat, d: int): (res: Result<(Registry, seq<Event>)>)
    requires IsComposite(r, p) ==> KindOk(r[p].field.kind)
    ensures res.Ok? ==> IsComposite(r, p) && i < |r[p].field.kind.children|
    ensures res.Ok? ==> && res.value.0.Keys == r.Keys && Agree(r, res.value.0, Catalog.Level(p))
                        && IsComposite(res.value.0, p) && KindOk(res.value.0[p].field.kind)
    ensures res.Ok? ==> var cs := r[p].field.kind.children; var cs2 := res.value.0[p].field.kind.children;
      && |cs2| == |cs|
      && (forall j :: 0 <= j < |cs| && j != i ==> cs2[j] == cs[j])
      && cs2[i].title == cs[i].title && SameWiring(cs[i].kind, cs2[i].kind)
      && ChildrenCost(cs2) == ChildrenCost(cs) - LeafCost(cs[i].kind) + LeafCost(cs2[i].kind)
    ensures res.Ok? && res.value.1 != [] ==> res.value.1[|res.value.1| - 1] == ChildChanged(p, i)
  {
    if !IsComposite(r, p) || i >= |r[p].field.kind.children| then Err(Misuse)
    else
      var c := r[p].field.kind.children[i];
      var step :- SetInt(c.title, c.kind, d, None);
      StepKeepsLeaf(c.title, c.kind, SetInt(c.title, c.kind, d, None));
      CommitChild(r, p, i, step)
  }

  /** setValue(String) on the child at position `i` of a composite. */
  function SetChildText(r: Registry, p: FieldId, i: nat, s: string): (res: Result<(Registry, seq<Event>)>)
    requires IsComposite(r, p) ==> KindOk(r[p].field.kind)
    ensures res.Ok? ==> IsComposite(r, p) && i < |r[p].field.kind.children|
    ensures res.Ok? ==> && res.value.0.Keys == r.Keys && Agree(r, res.value.0, Catalog.Level(p))
                        && IsComposite(res.value.0, p) && KindOk(res.value.0[p].field.kind)
    ensures res.Ok? ==> var cs := r[p].field.kind.children; var cs2 := res.value.0[p].field.kind.children;
      && |cs2| == |cs|
      && (forall j :: 0 <= j < |cs| && j != i ==> cs2[j] == cs[j])
      && SameWiring(cs[i].kind, cs2[i].kind)
      && ChildrenCost(cs2) == ChildrenCost(cs) - LeafCost(cs[i].kind) + LeafCost(cs2[i].kind)
    ensures res.Ok? && res.value.1 != [] ==> res.value.1[|res.value.1| - 1] == ChildChanged(p, i)
  {
    if !IsComposite(r, p) || i >= |r[p].field.kind.children| then Err(Misuse)
    else
      var c := r[p].field.kind.children[i];
      var step :- SetText(c.title, c.kind, s, None);
      StepKeepsLeaf(c.title, c.kind, SetText(c.title, c.kind, s, None));
      CommitChild(r, p, i, step)
  }

  /** addField: the composite prepares the child (a specialised composite
      relabels it and resets it to row 0, which notifies the child's
      listeners twice) and appends it; listeners hear of the new child. The
      composite is not recomputed. Nested composites are outside the
      model. */
  function AddField(r: Registry, p: FieldId, c: Child): (res: Result<(Registry, seq<Event>)>)
    requires IsComposite(r, p) ==> KindOk(r[p].field.kind)
    ensures res.Ok? <==> IsComposite(r, p) && Attach(r[p].field.kind.composite, c).Ok?
                         && LeafOk(Attach(r[p].field.kind.composite, c).value.kind)
    ensures res.Ok? ==> && res.value.0.Keys == r.Keys
                        && (forall y :: y in r && y != p ==> res.value.0[y] == r[y])
                        && IsComposite(res.value.0, p) && KindOk(res.value.0[p].field.kind)
                        && res.value.0[p].field.title == r[p].field.title
                        && res.value.0[p].field.dependents == r[p].field.dependents
                        && res.value.0[p].field.kind.composite == r[p].field.kind.composite
    ensures res.Ok? ==> var rule := r[p].field.kind.composite; var cs := r[p].field.kind.children;
      var child := Attach(rule, c).value;
      && res.value.0[p].field.kind.children == cs + [child]
      && ChildrenCost(cs + [child]) == ChildrenCost(cs) + LeafCost(child.kind)
      && (rule.PlainComposite? ==> child == c && res.value.1 == [Added(p, c)])
      && (!rule.PlainComposite? ==> LeafCost(child.kind) == 0
                                    && res.value.1 == [ChildChanged(p, |cs|), ChildChanged(p, |cs|), Added(p, child)])
  {
    if !IsComposite(r, p) then Err(Misuse)
    else
      var rule := r[p].field.kind.composite;
      var cs := r[p].field.kind.children;
      var child :- Attach(rule, c);
      if !LeafOk(child.kind) then Err(NotModelled)
      else
        ChildrenCostAppend(cs, child);
        LeavesWith(cs, child);
        if !rule.PlainComposite? then AttachCostsNothing(rule, c); AppendChild(r, p, child, [ChildChanged(p, |cs|), ChildChanged(p, |cs|)])
        else AppendChild(r, p, child, [])
  }

  /** The registry with `child` appended to `p`'s children, and the events
      that end with its announcement. */
  function AppendChild(r: Registry, p: FieldId, child: Child, resets: seq<Event>): (res: Result<(Registry, seq<Event>)>)
    requires IsComposite(r, p) && LeafOk(child.kind)
    requires var cs := r[p].field.kind.children; forall j :: 0 <= j < |cs + [child]| ==> LeafOk((cs + [child])[j].kind)
    ensures res.Ok? && res.value.1 == resets + [Added(p, child)]
    ensures var r1 := res.value.0;
      && r1.Keys == r.Keys && (forall y :: y in r && y != p ==> r1[y] == r[y])
      && IsComposite(r1, p) && KindOk(r1[p].field.kind)
      && r1[p].field.title == r[p].field.title
      && r1[p].field.dependents == r[p].field.dependents
      && r1[p].field.kind.composite == r[p].field.kind.composite
      && r1[p].field.kind.children == r[p].field.kind.children + [child]
  {
    var f := r[p].field;
    Ok((r[p := Built(Field(f.title, CompositeField(f.kind.composite, f.kind.children + [child]), f.dependents))],
        resets + [Added(p, child)]))
  }

  /** Appending a well-formed child keeps the children well-formed. */
  lemma LeavesWith(cs: seq<Child>, c: Child)
    requires LeafOk(c.kind) && forall j :: 0 <= j < |cs| ==> LeafOk(cs[j].kind)
    ensures var cs2 := cs + [c]; forall j :: 0 <= j < |cs2| ==> LeafOk(cs2[j].kind)
  {
    var cs2 := cs + [c];
    forall j | 0 <= j < |cs2| ensures LeafOk(cs2[j].kind) {
      if j < |cs| {
        assert cs2[j] == cs[j];
      }
    }
  }

  /** A child a specialised composite prepares sits on row 0 with the first
      multiplier index, so it adds nothing to the cost. */
  lemma AttachCostsNothing(rule: CompositeRule, c: Child)
    requires !rule.PlainComposite? && Attach(rule, c).Ok?
    ensures LeafOk(Attach(rule, c).value.kind) && LeafCost(Attach(rule, c).value.kind) == 0
  {
  }

  /** removeField of the child at position `i`: listeners hear of the
      removal first, then the composite drops the child and recomputes. */
  function RemoveField(r: Registry, p: FieldId, i: nat): (res: Result<(Registry, seq<Event>)>)
    requires IsComposite(r, p) ==> KindOk(r[p].field.kind)
    ensures res.Ok? ==> IsComposite(r, p) && i < |r[p].field.kind.children|
    ensures res.Ok? ==> && res.value.0.Keys == r.Keys && Agree(r, res.value.0, Catalog.Level(p))
                        && IsComposite(res.value.0, p) && KindOk(res.value.0[p].field.kind)
    ensures res.Ok? ==> var cs := r[p].field.kind.children; var cs2 := res.value.0[p].field.kind.children;
      && cs2 == cs[..i] + cs[i + 1..]
      && ChildrenCost(cs2) == ChildrenCost(cs) - LeafCost(cs[i].kind)
    ensures res.Ok? ==> var evs := res.value.1;
      && 2 <= |evs| && evs[0] == Removed(p, r[p].field.kind.children[i]) && evs[|evs| - 1] == Changed(p)
  {
    if !IsComposite(r, p) || i >= |r[p].field.kind.children| then Err(Misuse)
    else
      var cs := r[p].field.kind.children;
      ChildrenCostRemove(cs, i);
      LeavesWithout(cs, i);
      var r1 := Recompose(r, p, cs[..i] + cs[i + 1..]);
      var u :- Update(r1, p);
      UpdateKeepsComposite(r, r1, u.0, p);
      Ok((u.0, [Removed(p, cs[i])] + u.1))
  }

  /** Dropping a child keeps the others well-formed. */
  lemma LeavesWithout(cs: seq<Child>, i: nat)
    requires i < |cs| && forall j :: 0 <= j < |cs| ==> LeafOk(cs[j].kind)
    ensures var cs2 := cs[..i] + cs[i + 1..]; forall j :: 0 <= j < |cs2| ==> LeafOk(cs2[j].kind)
  {
    var cs2 := cs[..i] + cs[i + 1..];
    forall j | 0 <= j < |cs2| ensures LeafOk(cs2[j].kind) {
      if j < i {
        assert cs2[j] == cs[j];
      } else {
        assert cs2[j] == cs[j + 1];
      }
    }
  }

  /* ---------------------------------------------------------------------
     addDepends and removeDepends
     --------------------------------------------------------------------- */

  /** The position of the first `a` in `s`. */
  function FirstIndex<T(==)>(s: seq<T>, a: T): (i: nat)
    requires a in s
    ensures i < |s| && s[i] == a
    ensures forall j :: 0 <= j < i ==> s[j] != a
  {
    if s[0] == a then 0
    else
      assert a in s[1..] by { assert s == [s[0]] + s[1..]; }
      FirstIndex(s[1..], a) + 1
  }

  /** List.remove(Object): drops the first occurrence, if any, and keeps
      the rest in order. */
  function RemoveFirst<T(==)>(s: seq<T>, a: T): (t: seq<T>)
    ensures a !in s ==> t == s
    ensures a in s ==> t == s[..FirstIndex(s, a)] + s[FirstIndex(s, a) + 1..]
    ensures a in s ==> |t| == |s| - 1
    ensures forall b :: b in t ==> b in s
  {
    if |s| == 0 then s
    else
      assert s == [s[0]] + s[1..];
      if s[0] == a then s[1..]
      else
        var t := [s[0]] + RemoveFirst(s[1..], a);
        if a in s then
          RemoveFirstPast(s, a, RemoveFirst(s[1..], a));
          t
        else t
  }

  /** Removing the first `a` takes exactly one `a` out of the multiset. */
  lemma {:induction false} RemoveFirstMultiset<T>(s: seq<T>, a: T)
    requires a in s
    ensures multiset(RemoveFirst(s, a)) == multiset(s) - multiset{a}
  {
    assert s == [s[0]] + s[1..];
    if s[0] != a {
      RemoveFirstMultiset(s[1..], a);
      assert RemoveFirst(s, a) == [s[0]] + RemoveFirst(s[1..], a);
    }
  }

  /** Past a head that is not `a`, the first `a` of the tail is the first
      `a` of the whole, one place further on. */
  lemma RemoveFirstPast<T>(s: seq<T>, a: T, r: seq<T>)
    requires |s| > 0 && s[0] != a && a in s
    requires r == s[1..][..FirstIndex(s[1..], a)] + s[1..][FirstIndex(s[1..], a) + 1..]
    ensures [s[0]] + r == s[..FirstIndex(s, a)] + s[FirstIndex(s, a) + 1..]
  {
    var j := FirstIndex(s[1..], a);
    assert FirstIndex(s, a) == j + 1;
    SplitPastHead(s, j);
  }

  /** Cutting a list after its head and at `j` of the tail. */
  lemma SplitPastHead<T>(s: seq<T>, j: nat)
    requires j < |s| - 1
    ensures [s[0]] + (s[1..][..j] + s[1..][j + 1..]) == s[..j + 1] + s[j + 2..]
  {
    assert s[..j + 1] == [s[0]] + s[1..][..j];
    assert s[j + 2..] == s[1..][j + 1..];
  }

  /** Removing what was just appended, and was not there before, gives the
      list back. */
  lemma {:induction false} RemoveFirstUndoesAppend<T>(s: seq<T>, a: T)
    requires a !in s
    ensures RemoveFirst(s + [a], a) == s
  {
    if |s| > 0 {
      assert (s + [a])[1..] == s[1..] + [a];
      RemoveFirstUndoesAppend(s[1..], a);
    }
  }

  /** `x` after x.addDepends(y): the sub-totals, the doubles, the
      Components field and the classes outside the model record `y` as their
      next source, the unreal fraction takes `y` as its effect; other
      modelled classes record nothing. */
  function WithSource(k: Kind, y: FieldId): (res: Kind)
    ensures k.CalculatedField? || k.DoubleField? || k.OpaqueField? || (k.CompositeField? && k.composite.ComponentsComposite?) ==>
      Refs(res) == Refs(k) + [y]
    ensures k.UnrealField? ==> res == UnrealField(k.frac, k.disbelief, Some(y))
    ensures !k.CalculatedField? && !k.DoubleField? && !k.OpaqueField? && !k.UnrealField? && !(k.CompositeField? && k.composite.ComponentsComposite?) ==>
      res == k
    ensures KindOk(k) ==> KindOk(res)
  {
    match k
    case CalculatedField(f, v, src) => CalculatedField(f, v, src + [y])
    case DoubleField(rule, v, dn, fv, src) => DoubleField(rule, v, dn, fv, src + [y])
    case CompositeField(ComponentsComposite(limited, src), cs) => CompositeField(ComponentsComposite(limited, src + [y]), cs)
    case UnrealField(fr, disbelief, _) => UnrealField(fr, disbelief, Some(y))
    case OpaqueField(cls, v, src) => OpaqueField(cls, v, src + [y])
    case _ => k
  }

  /** The registry with the built field `y` given the dependents `ds`. */
  function Relist(r: Registry, y: FieldId, ds: seq<FieldId>): Registry {
    if IsBuilt(r, y) then r[y := Built(Field(r[y].field.title, r[y].field.kind, ds))] else r
  }

  /** The registry with the built field `x` holding the kind `k`. */
  function Rekind(r: Registry, x: FieldId, k: Kind): Registry {
    if IsBuilt(r, x) then r[x := Built(Field(r[x].field.title, k, r[x].field.dependents))] else r
  }

  /** x.addDepends(y): `x` joins the end of `y`'s dependents and records `y`
      as its class requires. Nothing is recomputed or notified. */
  function AddDepends(r: Registry, x: FieldId, y: FieldId): (res: Result<Registry>)
    ensures res.Ok? <==> IsBuilt(r, x) && IsBuilt(r, y)
    ensures res.Ok? ==> && res.value.Keys == r.Keys
                        && (forall z :: z in r && z != x && z != y ==> res.value[z] == r[z])
                        && IsBuilt(res.value, x) && IsBuilt(res.value, y)
                        && res.value[y].field.dependents == r[y].field.dependents + [x]
                        && res.value[x].field.kind == WithSource(r[x].field.kind, y)
                        && res.value[x].field.title == r[x].field.title
                        && (x != y ==> res.value[x].field.dependents == r[x].field.dependents)
                        && (x != y ==> res.value[y].field.kind == r[y].field.kind)
  {
    if !IsBuilt(r, x) || !IsBuilt(r, y) then Err(Misuse)
    else
      Ok(Rekind(Relist(r, y, r[y].field.dependents + [x]), x, WithSource(r[x].field.kind, y)))
  }

  /** `x` after x.removeDepends(y), and whether `x` then recomputes: the
      sub-totals and doubles drop `y` from their sources and stop; the
      other modelled classes keep their references and recompute. */
  function WithoutSource(k: Kind, y: FieldId): (res: Result<(Kind, bool)>)
    ensures res.Ok? <==> !k.OpaqueField?
    ensures res.Ok? && (k.CalculatedField? || k.DoubleField?) ==>
      && !res.value.1 && res.value.0.CalculatedField? == k.CalculatedField? && res.value.0.DoubleField? == k.DoubleField?
      && res.value.0.sources == RemoveFirst(k.sources, y)
    ensures res.Ok? && !k.CalculatedField? && !k.DoubleField? ==> res.value == (k, true)
    ensures res.Ok? && KindOk(k) ==> KindOk(res.value.0)
  {
    match k
    case CalculatedField(f, v, src) => Ok((CalculatedField(f, v, RemoveFirst(src, y)), false))
    case DoubleField(rule, v, dn, fv, src) => Ok((DoubleField(rule, v, dn, fv, RemoveFirst(src, y)), false))
    case OpaqueField(_, _, _) => Err(NotModelled)
    case _ => Ok((k, true))
  }

  /** x.removeDepends(y): `x` leaves `y`'s dependents (its first entry) and
      forgets `y` as its class does; all but the sub-totals and doubles
      then run updateValue. */
  function RemoveDepends(r: Registry, x: FieldId, y: FieldId): (res: Result<(Registry, seq<Event>)>)
    ensures res.Ok? ==> IsBuilt(r, x) && IsBuilt(r, y) && !r[x].field.kind.OpaqueField?
    ensures IsBuilt(r, x) && IsBuilt(r, y) && (r[x].field.kind.CalculatedField? || r[x].field.kind.DoubleField?) ==> res.Ok?
    ensures res.Ok? ==> && res.value.0.Keys == r.Keys && IsBuilt(res.value.0, x) && IsBuilt(res.value.0, y)
    ensures res.Ok? && x != y ==> res.value.0[y].field.dependents == RemoveFirst(r[y].field.dependents, x)
    ensures res.Ok? && (r[x].field.kind.CalculatedField? || r[x].field.kind.DoubleField?) ==>
      && res.value.1 == [] && (res.value.0[x].field.kind.CalculatedField? || res.value.0[x].field.kind.DoubleField?)
      && res.value.0[x].field.kind.sources == RemoveFirst(r[x].field.kind.sources, y)
      && (forall z :: z in r && z != x && z != y ==> res.value.0[z] == r[z])
    ensures res.Ok? && !r[x].field.kind.CalculatedField? && !r[x].field.kind.DoubleField? ==>
      SameWiring(r[x].field.kind, res.value.0[x].field.kind)
  {
    if !IsBuilt(r, x) || !IsBuilt(r, y) then Err(Misuse)
    else
      var (k, recompute) :- WithoutSource(r[x].field.kind, y);
      var r2 := Rekind(Relist(r, y, RemoveFirst(r[y].field.dependents, x)), x, k);
      if !recompute then Ok((r2, []))
      else Update(r2, x)
  }

  /** removeDepends undoes addDepends for a sub-total or double that had
      not yet recorded the source. */
  lemma RemoveDependsUndoesAdd(r: Registry, x: FieldId, y: FieldId)
    requires IsBuilt(r, x) && IsBuilt(r, y)
    requires r[x].field.kind.CalculatedField? || r[x].field.kind.DoubleField?
    requires x !in r[y].field.dependents && y !in Refs(r[x].field.kind)
    ensures AddDepends(r, x, y).Ok?
    ensures RemoveDepends(AddDepends(r, x, y).value, x, y) == Ok((r, []))
  {
    var k := r[x].field.kind;
    var ds := r[y].field.dependents;
    SourceRoundTrip(k, y);
    RemoveFirstUndoesAppend(ds, x);
    var k2 := WithSource(k, y);
    var r2 := Rekind(Relist(r, y, ds + [x]), x, k2);
    assert AddDepends(r, x, y) == Ok(r2);
    assert RemoveDepends(r2, x, y) == Ok((Rekind(Relist(r2, y, ds), x, k), []));
    EditsCancel(r, x, y, ds + [x], k2);
  }

  /** Relisting and rekinding twice is the same as once, and putting back
      what was there gives the registry back. */
  lemma EditsCancel(r: Registry, x: FieldId, y: FieldId, ds: seq<FieldId>, k: Kind)
    requires IsBuilt(r, x) && IsBuilt(r, y)
    ensures var r2 := Rekind(Relist(r, y, ds), x, k);
      Rekind(Relist(r2, y, r[y].field.dependents), x, r[x].field.kind) == r
  {
    var r2 := Rekind(Relist(r, y, ds), x, k);
    var back := Rekind(Relist(r2, y, r[y].field.dependents), x, r[x].field.kind);
    assert back[x] == r[x];
    assert back[y] == r[y];
    assert forall z :: z in r ==> back[z] == r[z];
  }

  /** Recording a new source and then forgetting it gives the sub-total or
      double back. */
  lemma SourceRoundTrip(k: Kind, y: FieldId)
    requires (k.CalculatedField? || k.DoubleField?) && y !in k.sources
    ensures WithoutSource(WithSource(k, y), y) == Ok((k, false))
  {
    RemoveFirstUndoesAppend(k.sources, y);
  }
}
