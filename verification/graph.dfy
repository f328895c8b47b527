/**
 * The shared map of named fields and what happens when one of them changes.
 *
 * Every built field keeps the ordered list of the fields that depend on it.
 * A field that changes asks each dependent, in list order, to recompute its
 * value from its sources (updateValue); a dependent that changes does the
 * same in turn; only then are the field's own listeners told. The recursion
 * climbs the static rank of the names: a dependent ranked no higher than the
 * field that notifies it is refused (`Unranked`) instead of looping.
 *
 * Events are the listener notifications in the order they are sent; the
 * model fans each one out to every registered listener.
 */
module Graph {
  import opened Wrappers
  import opened Arith
  import opened Tables
  import opened Fields
  import opened Formulas
  import Catalog

  datatype Field = Field(title: string, kind: Kind, dependents: seq<FieldId>)

  /** A registry slot: the placeholder a name starts with, or the field built
      for it. */
  datatype Slot = Pending(key: string) | Built(field: Field)

  type Registry = map<FieldId, Slot>

  /** A listener notification. `ChildChanged` names a composite's child by
      its position. */
  datatype Event =
    | Changed(id: FieldId)
    | ChildChanged(parent: FieldId, at: nat)
    | Added(parent: FieldId, child: Child)
    | Removed(parent: FieldId, child: Child)
    | Replaced(key: FieldId, outgoing: Field, incoming: Field)

  /** The name is built, and its table rows and multiplier indices are in
      range. */
  predicate Ready(r: Registry, x: FieldId) {
    x in r && r[x].Built? && KindOk(r[x].field.kind)
  }

  /* ---------------------------------------------------------------------
     getCost
     --------------------------------------------------------------------- */

  /** getCost of a named field. A follower that tracks, and the unreal
      fraction, read the cost of the field they refer to, which must rank
      lower; a missing or unranked reference has no cost. */
  function NodeCost(r: Registry, x: FieldId): Option<int>
    decreases Catalog.Level(x)
  {
    if !Ready(r, x) then None
    else
      var k := r[x].field.kind;
      if !ReadsRef(k) then Some(Cost(k, 0))
      else match CostRef(k)
        case None => None
        case Some(y) =>
          if Catalog.Level(x) <= Catalog.Level(y) then None
          else match NodeCost(r, y)
            case None => None
            case Some(c) => Some(Cost(k, c))
  }

  /** The classes whose getCost reads another field's cost. */
  predicate ReadsRef(k: Kind) {
    k.UnrealField? || (k.FollowsField? && k.tracking)
  }

  /** The field whose cost getCost reads. */
  function CostRef(k: Kind): Option<FieldId> {
    match k
    case UnrealField(_, _, effect) => effect
    case FollowsField(_, follows, _) => follows
    case _ => None
  }

  /** The two registries hold the same slots under every name ranked below
      `l`. */
  predicate Agree(r: Registry, r2: Registry, l: int) {
    forall y :: y in r && Catalog.Level(y) < l ==> y in r2 && r2[y] == r[y]
  }

  /** A field's cost depends only on the fields ranked at or below it. */
  lemma {:induction false} CostIsLocal(r: Registry, r2: Registry, x: FieldId)
    requires r.Keys == r2.Keys && Agree(r, r2, Catalog.Level(x) + 1)
    ensures NodeCost(r, x) == NodeCost(r2, x)
    decreases Catalog.Level(x)
  {
    if x in r {
      assert r2[x] == r[x];
      if Ready(r, x) && CostRef(r[x].field.kind).Some? {
        var y := CostRef(r[x].field.kind).value;
        if Catalog.Level(y) < Catalog.Level(x) {
          AgreeBelow(r, r2, Catalog.Level(x) + 1, Catalog.Level(y) + 1);
          CostIsLocal(r, r2, y);
        }
      }
      NodeCostBySlot(r, r2, x);
    }
  }

  /** Two registries holding the same slot under `x`, and agreeing on the
      cost of the field it refers to, give `x` the same cost. */
  lemma NodeCostBySlot(r: Registry, r2: Registry, x: FieldId)
    requires x in r && x in r2 && r2[x] == r[x]
    requires Ready(r, x) && CostRef(r[x].field.kind).Some? && Catalog.Level(CostRef(r[x].field.kind).value) < Catalog.Level(x) ==>
      NodeCost(r, CostRef(r[x].field.kind).value) == NodeCost(r2, CostRef(r[x].field.kind).value)
    ensures NodeCost(r, x) == NodeCost(r2, x)
  {
  }

  /* ---------------------------------------------------------------------
     Reading sources
     --------------------------------------------------------------------- */

  /** The field `x` reads under the name `y`: it must be built and rank
      below `x`. */
  function Read(r: Registry, x: FieldId, y: FieldId): (res: Result<Kind>)
    ensures res.Ok? ==> Catalog.Level(y) < Catalog.Level(x) && Ready(r, y) && res.value == r[y].field.kind
  {
    if Catalog.Level(x) <= Catalog.Level(y) then Err(Unranked)
    else if !Ready(r, y) then Err(Misuse)
    else Ok(r[y].field.kind)
  }

  /** getCost() of a source. */
  function SourceCost(r: Registry, x: FieldId, y: FieldId): (res: Result<int>)
    ensures res.Ok? ==> Catalog.Level(y) < Catalog.Level(x) && NodeCost(r, y) == Some(res.value)
  {
    if Catalog.Level(x) <= Catalog.Level(y) then Err(Unranked)
    else match NodeCost(r, y)
      case None => Err(Misuse)
      case Some(c) => Ok(c)
  }

  /** The summed costs of the sources, as the sub-total fields add them. */
  function SumCosts(r: Registry, x: FieldId, ys: seq<FieldId>): Result<int> {
    if |ys| == 0 then Ok(0)
    else
      var a :- SourceCost(r, x, ys[0]);
      var b :- SumCosts(r, x, ys[1..]);
      Ok(a + b)
  }

  /** A source cast to SFXFraction: its proportion. */
  function ReadFraction(r: Registry, x: FieldId, y: FieldId): Result<Ratio> {
    var k :- Read(r, x, y);
    match k
    case FractionField(fr) => Ok(fr.f)
    case UnrealField(fr, _, _) => Ok(fr.f)
    case _ => Err(Misuse)
  }

  /** A source cast to SFXValueModifier: its cost and reduction. */
  function ReadModifier(r: Registry, x: FieldId, y: FieldId): Result<(int, int)> {
    var k :- Read(r, x, y);
    match k
    case ModifierField(rule, v, reduce) => Ok((ModifierCost(rule, v, reduce), ModifierReduction(rule, v, reduce)))
    case _ => Err(Misuse)
  }

  /** A source cast to SFXComposite: its cost and the summed reduction of
      its children, each cast to SFXFieldCommunity. */
  function ReadComposite(r: Registry, x: FieldId, y: FieldId): Result<(int, int)> {
    var k :- Read(r, x, y);
    match k
    case CompositeField(_, cs) =>
      (match ChildrenReduction(cs)
       case None => Err(Misuse)
       case Some(reduction) => Ok((ChildrenCost(cs), reduction)))
    case _ => Err(Misuse)
  }

  /** A source cast to SFXDouble: its DN and FV ledgers. */
  function ReadDouble(r: Registry, x: FieldId, y: FieldId): Result<(int, int)> {
    var k :- Read(r, x, y);
    match k
    case DoubleField(_, _, dn, fv, _) => Ok((dn, fv))
    case _ => Err(Misuse)
  }

  /** What SFXFieldModifiers reads, position by position; fewer than eleven
      sources is an error. */
  function GatherModifiers(r: Registry, x: FieldId, src: seq<FieldId>): Result<ModifierInputs> {
    if |src| < 11 then Err(Misuse)
    else
      var mandatory :- SourceCost(r, x, src[0]);
      var optional :- SourceCost(r, x, src[1]);
      var fraction :- ReadFraction(r, x, src[2]);
      var community :- ReadComposite(r, x, src[3]);
      var components :- ReadComposite(r, x, src[4]);
      var concentration :- ReadModifier(r, x, src[5]);
      var gestures :- ReadComposite(r, x, src[6]);
      var incantation :- ReadModifier(r, x, src[7]);
      var related :- ReadModifier(r, x, src[8]);
      var others :- ReadDouble(r, x, src[9]);
      var unreal :- ReadFraction(r, x, src[10]);
      var unrealCost :- SourceCost(r, x, src[10]);
      Ok(ModifierInputs(mandatory, optional, fraction,
                        [community, components, concentration, gestures, incantation, related, others],
                        unreal, unrealCost))
  }

  /* ---------------------------------------------------------------------
     updateValue
     --------------------------------------------------------------------- */

  /** The field after its own part of updateValue, whether it goes on to
      propagate, and the notifications it sends before propagating. */
  datatype Recomputed = Recomputed(kind: Kind, propagates: bool, notes: seq<Event>)

  /** One ChildChanged per child, in order. */
  function ChildEvents(p: FieldId, n: nat): (evs: seq<Event>)
    ensures |evs| == n && forall i :: 0 <= i < n ==> evs[i] == ChildChanged(p, i)
  {
    if n == 0 then [] else ChildEvents(p, n - 1) + [ChildChanged(p, n - 1)]
  }

  /** updateValue of the field `x` holding `k`, up to the point where it
      propagates:
      the sub-totals add their sources' costs, the half halves the sum,
      Mandatory takes max(first - second, third), Components and Modifiers
      recompute their over-limit flags, Total its ledgers, and a tracking
      follower moves to the followed field's row. The other classes only
      propagate. */
  function Recompute(r: Registry, x: FieldId, k: Kind): (res: Result<Recomputed>)
    requires KindOk(k)
    ensures res.Ok? ==> SameWiring(k, res.value.kind) && KindOk(res.value.kind)
    ensures res.Ok? && !res.value.propagates ==> res.value.kind == k
    ensures res.Ok? && k.CompositeField? ==> res.value.kind.children == k.children
    ensures res.Ok? && !k.CompositeField? ==> res.value.notes == []
  {
    match k
    case CalculatedField(_, _, _) => RecomputeCalculated(r, x, k)
    case DoubleField(ModifiersRule(_), _, _, _, _) => RecomputeModifiers(r, x, k)
    case DoubleField(TotalRule, _, _, _, _) => RecomputeTotal(r, x, k)
    case CompositeField(ComponentsComposite(_, _), _) => RecomputeComponents(r, x, k)
    case FollowsField(_, _, _) => RecomputeFollows(r, x, k)
    case _ => Ok(Recomputed(k, true, []))
  }

  /** The sub-totals, the half and Mandatory. */
  function RecomputeCalculated(r: Registry, x: FieldId, k: Kind): (res: Result<Recomputed>)
    requires k.CalculatedField?
    ensures res.Ok? ==> && res.value.kind.CalculatedField? && res.value.kind.formula == k.formula
                        && res.value.kind.sources == k.sources && res.value.propagates && res.value.notes == []
  {
    var src := k.sources;
    match k.formula
    case MandatoryFormula =>
      if |src| < 3 then Err(Misuse)
      else
        var sub :- SourceCost(r, x, src[0]);
        var casting :- SourceCost(r, x, src[1]);
        var half :- SourceCost(r, x, src[2]);
        Ok(Recomputed(CalculatedField(MandatoryFormula, MandatoryOf(sub, casting, half), src), true, []))
    case HalfMandatoryFormula =>
      var sum :- SumCosts(r, x, src);
      Ok(Recomputed(CalculatedField(HalfMandatoryFormula, HalfOf(sum), src), true, []))
    case _ =>
      var sum :- SumCosts(r, x, src);
      Ok(Recomputed(CalculatedField(k.formula, sum, src), true, []))
  }

  /** The Modifiers field: its over-limit flag and reduction ledgers. */
  function RecomputeModifiers(r: Registry, x: FieldId, k: Kind): (res: Result<Recomputed>)
    requires k.DoubleField? && k.double.ModifiersRule?
    ensures res.Ok? ==> && res.value.kind.DoubleField? && res.value.kind.double.ModifiersRule?
                        && res.value.kind.value == k.value && res.value.kind.sources == k.sources
                        && res.value.propagates && res.value.notes == []
  {
    var inputs :- GatherModifiers(r, x, k.sources);
    var (limited, dn, fv) := ModifiersOutcome(inputs);
    Ok(Recomputed(DoubleField(ModifiersRule(limited), k.value, dn, fv, k.sources), true, []))
  }

  /** The Total field: its final DN and FV ledgers. */
  function RecomputeTotal(r: Registry, x: FieldId, k: Kind): (res: Result<Recomputed>)
    requires k.DoubleField? && k.double.TotalRule?
    ensures res.Ok? ==> && res.value.kind.DoubleField? && res.value.kind.double.TotalRule?
                        && res.value.kind.value == k.value && res.value.kind.sources == k.sources
                        && res.value.propagates && res.value.notes == []
  {
    var src := k.sources;
    if |src| < 4 then Err(Misuse)
    else
      var mandatory :- SourceCost(r, x, src[0]);
      var optional :- SourceCost(r, x, src[1]);
      var fraction :- ReadFraction(r, x, src[2]);
      var reduce :- ReadDouble(r, x, src[3]);
      var (dn, fv) := TotalLedgers(mandatory, optional, fraction, reduce.0, reduce.1);
      Ok(Recomputed(DoubleField(TotalRule, k.value, dn, fv, src), true, []))
  }

  /** The Components field: its over-limit flag; it then reports every child
      as changed. */
  function RecomputeComponents(r: Registry, x: FieldId, k: Kind): (res: Result<Recomputed>)
    requires k.CompositeField? && k.composite.ComponentsComposite? && KindOk(k)
    ensures res.Ok? ==> && res.value.kind.CompositeField? && res.value.kind.composite.ComponentsComposite?
                        && res.value.kind.composite.sources == k.composite.sources
                        && res.value.kind.children == k.children
                        && res.value.propagates && res.value.notes == ChildEvents(x, |k.children|)
  {
    var src := k.composite.sources;
    if |src| < 3 then Err(Misuse)
    else
      var mandatory :- SourceCost(r, x, src[0]);
      var optional :- SourceCost(r, x, src[1]);
      var fraction :- ReadFraction(r, x, src[2]);
      ComponentsFlag(x, k, mandatory + optional, fraction)
  }

  /** The Components field's over-limit flag, once its sources are read. */
  function ComponentsFlag(x: FieldId, k: Kind, total: int, fraction: Ratio): (res: Result<Recomputed>)
    requires k.CompositeField? && k.composite.ComponentsComposite? && KindOk(k)
    ensures res.Ok? ==> && res.value.kind.CompositeField? && res.value.kind.composite.ComponentsComposite?
                        && res.value.kind.composite.sources == k.composite.sources
                        && res.value.kind.children == k.children
                        && res.value.propagates && res.value.notes == ChildEvents(x, |k.children|)
  {
    var cs := k.children;
    match ChildrenReduction(cs)
    case None => Err(Misuse)
    case Some(reduction) =>
      var limited := ComponentsLimited(ChildrenCost(cs), reduction, ComponentsLimit(fraction, total));
      Ok(Recomputed(CompositeField(ComponentsComposite(limited, k.composite.sources), cs), true, ChildEvents(x, |cs|)))
  }

  /** A follower that tracks moves to the followed field's value as its
      row, and propagates only when that row is in range. */
  function RecomputeFollows(r: Registry, x: FieldId, k: Kind): (res: Result<Recomputed>)
    requires k.FollowsField?
    ensures res.Ok? ==> && res.value.kind.FollowsField? && res.value.kind.follows == k.follows
                        && res.value.kind.tracking == k.tracking && res.value.notes == []
                        && (ValueOk(k.v) ==> ValueOk(res.value.kind.v))
                        && (!res.value.propagates ==> res.value.kind == k)
  {
    if !k.tracking then Ok(Recomputed(k, false, []))
    else
      match k.follows
      case None => Err(Misuse)
      case Some(y) =>
        var followed :- Read(r, x, y);
        match IntValue(followed)
        case None => Err(Misuse)
        case Some(t) =>
          var (w, moved) := SelectRow(k.v, t);
          Ok(Recomputed(FollowsField(w, k.follows, k.tracking), moved, []))
  }

  /** The field agrees with its sources: recomputing it changes nothing. */
  predicate Fresh(r: Registry, x: FieldId) {
    Ready(r, x) && Recompute(r, x, r[x].field.kind).Ok? && Recompute(r, x, r[x].field.kind).value.kind == r[x].field.kind
  }

  /** Every built field keeps its title, class, references, dependents and
      well-formedness; placeholders stay as they are. */
  predicate Keeps(r: Registry, r2: Registry) {
    && r2.Keys == r.Keys
    && forall y :: y in r ==> KeepsSlot(r[y], r2[y])
  }

  predicate KeepsSlot(a: Slot, b: Slot) {
    match a
    case Pending(_) => b == a
    case Built(f) =>
      && b.Built?
      && b.field.title == f.title
      && b.field.dependents == f.dependents
      && SameWiring(f.kind, b.field.kind)
      && (KindOk(f.kind) ==> KindOk(b.field.kind))
  }

  /** Recomputes `x` and, when it propagates, updates its dependents in turn
      and then notifies `x`'s listeners. */
  function Update(r: Registry, x: FieldId): (res: Result<(Registry, seq<Event>)>)
    ensures res.Ok? ==> Ready(r, x) && Recompute(r, x, r[x].field.kind).Ok?
    ensures res.Ok? ==> Keeps(r, res.value.0) && Agree(r, res.value.0, Catalog.Level(x))
    ensures res.Ok? ==> res.value.0[x].field.kind == Recompute(r, x, r[x].field.kind).value.kind
    ensures res.Ok? && !Recompute(r, x, r[x].field.kind).value.propagates ==> res.value == (r, [])
    ensures res.Ok? && Recompute(r, x, r[x].field.kind).value.propagates ==>
      0 < |res.value.1| && res.value.1[|res.value.1| - 1] == Changed(x)
    decreases Catalog.MaxLevel - Catalog.Level(x), 2
  {
    if !Ready(r, x) then Err(Misuse)
    else
      var rc :- Recompute(r, x, r[x].field.kind);
      if !rc.propagates then Ok((r, []))
      else
        var f := r[x].field;
        var r1 := r[x := Built(Field(f.title, rc.kind, f.dependents))];
        assert Keeps(r, r1) by {
          forall y | y in r ensures KeepsSlot(r[y], r1[y]) {
          }
        }
        var p :- Propagate(r1, x);
        Ok((p.0, rc.notes + p.1))
  }

  /** propagateChange: update the dependents in list order, then notify the
      field's own listeners. */
  function Propagate(r: Registry, x: FieldId): (res: Result<(Registry, seq<Event>)>)
    requires x in r && r[x].Built?
    ensures res.Ok? ==> Keeps(r, res.value.0) && Agree(r, res.value.0, Catalog.Level(x) + 1)
    ensures res.Ok? ==> 0 < |res.value.1| && res.value.1[|res.value.1| - 1] == Changed(x)
    decreases Catalog.MaxLevel - Catalog.Level(x), 1
  {
    var p :- Notify(r, x, r[x].field.dependents);
    Ok((p.0, p.1 + [Changed(x)]))
  }

  /** Updates each of `ds` in order; every one must rank above `x`. */
  function Notify(r: Registry, x: FieldId, ds: seq<FieldId>): (res: Result<(Registry, seq<Event>)>)
    ensures res.Ok? ==> Keeps(r, res.value.0) && Agree(r, res.value.0, Catalog.Level(x) + 1)
    ensures res.Ok? ==> forall i :: 0 <= i < |ds| ==> Catalog.Level(x) < Catalog.Level(ds[i])
    decreases Catalog.MaxLevel - Catalog.Level(x), 0, |ds|
  {
    if |ds| == 0 then Ok((r, []))
    else if Catalog.Level(ds[0]) <= Catalog.Level(x) then Err(Unranked)
    else
      var p :- Update(r, ds[0]);
      var q :- Notify(p.0, x, ds[1..]);
      KeepsTransitive(r, p.0, q.0);
      Ok((q.0, p.1 + q.1))
  }

  lemma KeepsTransitive(a: Registry, b: Registry, c: Registry)
    requires Keeps(a, b) && Keeps(b, c)
    ensures Keeps(a, c)
  {
    forall y | y in a ensures KeepsSlot(a[y], c[y]) {
      assert KeepsSlot(a[y], b[y]) && KeepsSlot(b[y], c[y]);
    }
  }

  /* ---------------------------------------------------------------------
     Freshness after updateValue
     --------------------------------------------------------------------- */

  /** What a field reads of its sources depends only on the names ranked
      below it. */
  lemma ReadIsLocal(r: Registry, r2: Registry, x: FieldId, y: FieldId)
    requires r.Keys == r2.Keys && Agree(r, r2, Catalog.Level(x))
    ensures Read(r, x, y) == Read(r2, x, y)
  {
    if Catalog.Level(y) < Catalog.Level(x) && y in r {
      assert r2[y] == r[y];
    }
  }

  lemma SourceCostIsLocal(r: Registry, r2: Registry, x: FieldId, y: FieldId)
    requires r.Keys == r2.Keys && Agree(r, r2, Catalog.Level(x))
    ensures SourceCost(r, x, y) == SourceCost(r2, x, y)
  {
    if Catalog.Level(y) < Catalog.Level(x) {
      AgreeBelow(r, r2, Catalog.Level(x), Catalog.Level(y) + 1);
      CostIsLocal(r, r2, y);
    }
  }

  lemma AgreeBelow(r: Registry, r2: Registry, l: int, l2: int)
    requires Agree(r, r2, l) && l2 <= l
    ensures Agree(r, r2, l2)
  {
  }

  lemma {:induction false} SumCostsIsLocal(r: Registry, r2: Registry, x: FieldId, ys: seq<FieldId>)
    requires r.Keys == r2.Keys && Agree(r, r2, Catalog.Level(x))
    ensures SumCosts(r, x, ys) == SumCosts(r2, x, ys)
    decreases |ys|
  {
    if |ys| > 0 {
      SourceCostIsLocal(r, r2, x, ys[0]);
      SumCostsIsLocal(r, r2, x, ys[1..]);
    }
  }

  /** Recomputing a field gives the same outcome in any registry that
      agrees with this one below the field's rank. */
  lemma RecomputeIsLocal(r: Registry, r2: Registry, x: FieldId, k: Kind)
    requires KindOk(k) && r.Keys == r2.Keys && Agree(r, r2, Catalog.Level(x))
    ensures Recompute(r, x, k) == Recompute(r2, x, k)
  {
    match k
    case CalculatedField(_, _, _) => CalculatedIsLocal(r, r2, x, k);
    case DoubleField(ModifiersRule(_), _, _, _, _) => ModifiersIsLocal(r, r2, x, k.sources);
    case DoubleField(TotalRule, _, _, _, _) => TotalIsLocal(r, r2, x, k);
    case CompositeField(ComponentsComposite(_, _), _) => ComponentsIsLocal(r, r2, x, k);
    case FollowsField(_, _, _) => FollowsIsLocal(r, r2, x, k);
    case _ =>
  }

  lemma CalculatedIsLocal(r: Registry, r2: Registry, x: FieldId, k: Kind)
    requires k.CalculatedField? && r.Keys == r2.Keys && Agree(r, r2, Catalog.Level(x))
    ensures RecomputeCalculated(r, x, k) == RecomputeCalculated(r2, x, k)
  {
    var src := k.sources;
    SumCostsIsLocal(r, r2, x, src);
    if |src| >= 3 {
      SourceCostIsLocal(r, r2, x, src[0]);
      SourceCostIsLocal(r, r2, x, src[1]);
      SourceCostIsLocal(r, r2, x, src[2]);
    }
  }

  lemma ModifiersIsLocal(r: Registry, r2: Registry, x: FieldId, src: seq<FieldId>)
    requires r.Keys == r2.Keys && Agree(r, r2, Catalog.Level(x))
    ensures GatherModifiers(r, x, src) == GatherModifiers(r2, x, src)
  {
    if |src| >= 11 {
      CastsAreLocal(r, r2, x, src[0]);
      CastsAreLocal(r, r2, x, src[1]);
      CastsAreLocal(r, r2, x, src[2]);
      CastsAreLocal(r, r2, x, src[3]);
      CastsAreLocal(r, r2, x, src[4]);
      CastsAreLocal(r, r2, x, src[5]);
      CastsAreLocal(r, r2, x, src[6]);
      CastsAreLocal(r, r2, x, src[7]);
      CastsAreLocal(r, r2, x, src[8]);
      CastsAreLocal(r, r2, x, src[9]);
      CastsAreLocal(r, r2, x, src[10]);
    }
  }

  /** Every way a field reads a source depends only on the names ranked
      below it. */
  lemma CastsAreLocal(r: Registry, r2: Registry, x: FieldId, y: FieldId)
    requires r.Keys == r2.Keys && Agree(r, r2, Catalog.Level(x))
    ensures SourceCost(r, x, y) == SourceCost(r2, x, y)
    ensures ReadFraction(r, x, y) == ReadFraction(r2, x, y)
    ensures ReadModifier(r, x, y) == ReadModifier(r2, x, y)
    ensures ReadComposite(r, x, y) == ReadComposite(r2, x, y)
    ensures ReadDouble(r, x, y) == ReadDouble(r2, x, y)
  {
    ReadIsLocal(r, r2, x, y);
    SourceCostIsLocal(r, r2, x, y);
  }

  lemma TotalIsLocal(r: Registry, r2: Registry, x: FieldId, k: Kind)
    requires k.DoubleField? && k.double.TotalRule? && r.Keys == r2.Keys && Agree(r, r2, Catalog.Level(x))
    ensures RecomputeTotal(r, x, k) == RecomputeTotal(r2, x, k)
  {
    var src := k.sources;
    if |src| >= 4 {
      CastsAreLocal(r, r2, x, src[0]);
      CastsAreLocal(r, r2, x, src[1]);
      CastsAreLocal(r, r2, x, src[2]);
      CastsAreLocal(r, r2, x, src[3]);
    }
  }

  lemma ComponentsIsLocal(r: Registry, r2: Registry, x: FieldId, k: Kind)
    requires k.CompositeField? && k.composite.ComponentsComposite? && KindOk(k)
    requires r.Keys == r2.Keys && Agree(r, r2, Catalog.Level(x))
    ensures RecomputeComponents(r, x, k) == RecomputeComponents(r2, x, k)
  {
    var src := k.composite.sources;
    if |src| >= 3 {
      CastsAreLocal(r, r2, x, src[0]);
      CastsAreLocal(r, r2, x, src[1]);
      CastsAreLocal(r, r2, x, src[2]);
    }
    ComponentsBySources(r, r2, x, k);
  }

  /** The Components field recomputes alike over two registries that give
      its three sources the same readings. */
  lemma ComponentsBySources(r: Registry, r2: Registry, x: FieldId, k: Kind)
    requires k.CompositeField? && k.composite.ComponentsComposite? && KindOk(k)
    requires var src := k.composite.sources;
      |src| >= 3 ==>
        && SourceCost(r, x, src[0]) == SourceCost(r2, x, src[0])
        && SourceCost(r, x, src[1]) == SourceCost(r2, x, src[1])
        && ReadFraction(r, x, src[2]) == ReadFraction(r2, x, src[2])
    ensures RecomputeComponents(r, x, k) == RecomputeComponents(r2, x, k)
  {
  }

  lemma FollowsIsLocal(r: Registry, r2: Registry, x: FieldId, k: Kind)
    requires k.FollowsField? && r.Keys == r2.Keys && Agree(r, r2, Catalog.Level(x))
    ensures RecomputeFollows(r, x, k) == RecomputeFollows(r2, x, k)
  {
    if k.follows.Some? {
      ReadIsLocal(r, r2, x, k.follows.value);
    }
  }

  /** Recomputing a field a second time, over the same sources, changes
      nothing more. */
  lemma RecomputeSettles(r: Registry, x: FieldId, k: Kind)
    requires KindOk(k) && Recompute(r, x, k).Ok?
    ensures var k2 := Recompute(r, x, k).value.kind;
      Recompute(r, x, k2).Ok? && Recompute(r, x, k2).value.kind == k2
  {
    match k
    case CalculatedField(_, _, _) => CalculatedSettles(r, x, k);
    case DoubleField(ModifiersRule(_), _, _, _, _) => ModifiersSettles(r, x, k);
    case DoubleField(TotalRule, _, _, _, _) => TotalSettles(r, x, k);
    case CompositeField(ComponentsComposite(_, _), _) => ComponentsSettles(r, x, k);
    case FollowsField(_, _, _) => FollowsSettles(r, x, k);
    case _ =>
  }

  lemma CalculatedSettles(r: Registry, x: FieldId, k: Kind)
    requires k.CalculatedField? && RecomputeCalculated(r, x, k).Ok?
    ensures var k2 := RecomputeCalculated(r, x, k).value.kind;
      RecomputeCalculated(r, x, k2) == RecomputeCalculated(r, x, k)
  {
  }

  lemma ModifiersSettles(r: Registry, x: FieldId, k: Kind)
    requires k.DoubleField? && k.double.ModifiersRule? && RecomputeModifiers(r, x, k).Ok?
    ensures var k2 := RecomputeModifiers(r, x, k).value.kind;
      RecomputeModifiers(r, x, k2) == RecomputeModifiers(r, x, k)
  {
  }

  lemma TotalSettles(r: Registry, x: FieldId, k: Kind)
    requires k.DoubleField? && k.double.TotalRule? && RecomputeTotal(r, x, k).Ok?
    ensures var k2 := RecomputeTotal(r, x, k).value.kind;
      RecomputeTotal(r, x, k2) == RecomputeTotal(r, x, k)
  {
  }

  lemma ComponentsSettles(r: Registry, x: FieldId, k: Kind)
    requires k.CompositeField? && k.composite.ComponentsComposite? && KindOk(k)
    requires RecomputeComponents(r, x, k).Ok?
    ensures var k2 := RecomputeComponents(r, x, k).value.kind;
      KindOk(k2) && RecomputeComponents(r, x, k2) == RecomputeComponents(r, x, k)
  {
  }

  lemma FollowsSettles(r: Registry, x: FieldId, k: Kind)
    requires k.FollowsField? && RecomputeFollows(r, x, k).Ok?
    ensures var k2 := RecomputeFollows(r, x, k).value.kind;
      RecomputeFollows(r, x, k2).Ok? && RecomputeFollows(r, x, k2).value.kind == k2
  {
  }

  /** After its updateValue a field agrees with its sources, whatever its
      dependents did in between: they rank above it and cannot touch what
      it reads. */
  lemma UpdateLeavesFresh(r: Registry, x: FieldId)
    requires Update(r, x).Ok?
    ensures Fresh(Update(r, x).value.0, x)
  {
    var k := r[x].field.kind;
    var r2 := Update(r, x).value.0;
    var k2 := Recompute(r, x, k).value.kind;
    assert r2[x].field.kind == k2;
    RecomputeSettles(r, x, k);
    RecomputeIsLocal(r, r2, x, k2);
  }
}
