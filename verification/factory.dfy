/**
 * Lazy construction of the named fields (SFXFieldFactory and its per-name
 * subclasses).
 *
 * A name starts as a placeholder. The first getField on it runs the name's
 * factory: it creates the field, fetches the fields it needs by name (which
 * builds them first, recursively), registers as their dependent or records
 * them as sources, and finally replaces the placeholder (replaceParent).
 * Every name a factory fetches ranks below it, so resolution terminates.
 *
 * The Mandatory factory reads HalfMandatory without registering as its
 * dependent. `Edition` selects that wiring as written or the corrected one
 * in which Mandatory registers on HalfMandatory like on its other sources.
 */
module Factory {
  import opened Wrappers
  import opened Tables
  import opened Fields
  import opened Formulas
  import opened Graph
  import opened Edits
  import Catalog

  /** The Mandatory wiring as the factory writes it, or corrected. */
  datatype Edition = AsWritten | Corrected

  /** One step of a factory after it has created its field. */
  datatype Wire =
    | Fetch(id: FieldId)      // getField only
    | Source(id: FieldId)     // getField, then added to the source list without addDepends
    | Register(id: FieldId)   // getField, then addDepends

  /** Register wires for the names, in order. */
  function Registers(ids: seq<FieldId>): (ws: seq<Wire>)
    ensures |ws| == |ids| && forall i :: 0 <= i < |ids| ==> ws[i] == Register(ids[i])
    ensures forall l :: Below(ids, l) ==> Ranked(ws, l) && Plain(ws)
  {
    seq(|ids|, i requires 0 <= i < |ids| => Register(ids[i]))
  }

  /** Fetch wires for the names, in order. */
  function Fetches(ids: seq<FieldId>): (ws: seq<Wire>)
    ensures |ws| == |ids| && forall i :: 0 <= i < |ids| ==> ws[i] == Fetch(ids[i])
    ensures forall l :: Below(ids, l) ==> Ranked(ws, l) && Plain(ws)
  {
    seq(|ids|, i requires 0 <= i < |ids| => Fetch(ids[i]))
  }

  /** The names the source and register wires give, in order. */
  function Ids(ws: seq<Wire>): seq<FieldId> {
    if |ws| == 0 then []
    else (if ws[0].Fetch? then [] else [ws[0].id]) + Ids(ws[1..])
  }

  /** Register wires give exactly their names. */
  lemma {:induction false} IdsOfRegisters(ids: seq<FieldId>)
    ensures Ids(Registers(ids)) == ids
    decreases |ids|
  {
    if |ids| > 0 {
      assert Registers(ids)[1..] == Registers(ids[1..]);
      IdsOfRegisters(ids[1..]);
      assert ids == [ids[0]] + ids[1..];
    }
  }

  /** Every name ranks below `l`. */
  predicate Below(ids: seq<FieldId>, l: int) {
    forall y :: y in ids ==> Catalog.Level(y) < l
  }

  /** No wire only adds to the source list. */
  predicate Plain(ws: seq<Wire>) {
    forall w :: w in ws ==> !w.Source?
  }

  /** Every wire names a field ranked below `l`. */
  predicate Ranked(ws: seq<Wire>, l: int) {
    forall w :: w in ws ==> Catalog.Level(w.id) < l
  }

  /** SFXFieldFactorySpeed. */
  function SpeedSources(): (ids: seq<FieldId>)
    ensures Below(ids, Catalog.Level(Catalog.Speed))
  {
    [Catalog.Range]
  }

  /** SFXFieldFactorySubMandatory, and SFXFieldFactoryHalfMandatory through setDependencies. */
  function SubMandatorySources(): (ids: seq<FieldId>)
    ensures Below(ids, Catalog.Level(Catalog.SubMandatory))
  {
    [Catalog.Effect, Catalog.Range, Catalog.Speed, Catalog.Duration]
  }

  /** SFXFieldFactoryMultiTarget. */
  function MultiTargetSources(): (ids: seq<FieldId>)
    ensures Below(ids, Catalog.Level(Catalog.MultiTarget))
  {
    [Catalog.AreaEffect]
  }

  /** SFXFieldFactoryChange. */
  function ChangeTargetSources(): (ids: seq<FieldId>)
    ensures Below(ids, Catalog.Level(Catalog.ChangeTarget))
  {
    [Catalog.AreaEffect, Catalog.MultiTarget, Catalog.MultiAttribute]
  }

  /** SFXFieldFactoryApportation: its Move child registers, the composite does not. */
  function ApportationSources(): (ids: seq<FieldId>)
    ensures Below(ids, Catalog.Level(Catalog.Apportation))
  {
    [Catalog.Mandatory, Catalog.AreaEffect, Catalog.MultiTarget, Catalog.MultiAttribute,
      Catalog.ChangeTarget, Catalog.VariableEffect, Catalog.VariableDuration, Catalog.Effect]
  }

  /** SFXFieldFactoryMaintenance. */
  function MaintenanceSources(): (ids: seq<FieldId>)
    ensures Below(ids, Catalog.Level(Catalog.Maintenance))
  {
    [Catalog.Mandatory, Catalog.AreaEffect, Catalog.MultiTarget, Catalog.MultiAttribute,
      Catalog.ChangeTarget, Catalog.VariableEffect, Catalog.VariableDuration, Catalog.Apportation]
  }

  /** SFXFieldFactoryFocus. */
  function FocusSources(): (ids: seq<FieldId>)
    ensures Below(ids, Catalog.Level(Catalog.Focus))
  {
    [Catalog.Effect, Catalog.Duration]
  }

  /** SFXFieldFactoryOptional. */
  function OptionalSources(): (ids: seq<FieldId>)
    ensures Below(ids, Catalog.Level(Catalog.Optional))
  {
    [Catalog.AreaEffect, Catalog.MultiTarget, Catalog.MultiAttribute, Catalog.ChangeTarget,
      Catalog.VariableEffect, Catalog.VariableDuration, Catalog.Apportation, Catalog.Maintenance,
      Catalog.Focus, Catalog.Charges]
  }

  /** SFXFieldFactoryComponents. */
  function ComponentsSources(): (ids: seq<FieldId>)
    ensures Below(ids, Catalog.Level(Catalog.Components))
  {
    [Catalog.Mandatory, Catalog.Optional, Catalog.Fraction]
  }

  /** SFXFieldFactoryUnreal. */
  function UnrealSources(): (ids: seq<FieldId>)
    ensures Below(ids, Catalog.Level(Catalog.Unreal))
  {
    [Catalog.Effect]
  }

  /** SFXFieldFactoryModifiers. */
  function ModifiersSources(): (ids: seq<FieldId>)
    ensures Below(ids, Catalog.Level(Catalog.Modifiers))
  {
    [Catalog.Mandatory, Catalog.Optional, Catalog.Fraction, Catalog.Community, Catalog.Components,
      Catalog.Concentration, Catalog.Gestures, Catalog.Incantation, Catalog.RelatedSkill, Catalog.Other,
      Catalog.Unreal]
  }

  /** SFXFieldFactoryTotal. */
  function TotalSources(): (ids: seq<FieldId>)
    ensures Below(ids, Catalog.Level(Catalog.Total))
  {
    [Catalog.Mandatory, Catalog.Optional, Catalog.Fraction, Catalog.Modifiers]
  }

  /** SFXFieldFactoryConcentrationAdd. */
  function ConcentrationAddSources(): (ids: seq<FieldId>)
    ensures Below(ids, Catalog.Level(Catalog.ConcentrationAdd))
  {
    [Catalog.Concentration]
  }

  /** SFXFieldFactoryReception and SFXFieldFactoryTrance. */
  function ReceptionSources(): (ids: seq<FieldId>)
    ensures Below(ids, Catalog.Level(Catalog.Reception))
  {
    [Catalog.Skill]
  }

  /** SFXFieldFactoryTotalN. */
  function SpecificSources(): (ids: seq<FieldId>)
    ensures Below(ids, Catalog.Level(Catalog.Specific))
  {
    [Catalog.Mandatory, Catalog.Optional, Catalog.Fraction, Catalog.Modifiers, Catalog.Lock,
      Catalog.ConcentrationAdd, Catalog.Reception, Catalog.Trance, Catalog.Countenance]
  }

  /** SFXFieldFactoryMandatory: the sub-total and the casting time are
      registered; the half is only added to the source list as written. */
  function MandatoryWires(e: Edition): (ws: seq<Wire>)
    ensures Ranked(ws, Catalog.Level(Catalog.Mandatory))
    ensures e == Corrected ==> Plain(ws)
  {
    [Register(Catalog.SubMandatory), Register(Catalog.Casting),
     if e == AsWritten then Source(Catalog.HalfMandatory) else Register(Catalog.HalfMandatory)]
  }

  /** The fields the factory of each name fetches, in order, and what it
      does with each. Every one ranks below the name. */
  function Recipe(x: FieldId, e: Edition): (ws: seq<Wire>)
    ensures Ranked(ws, Catalog.Level(x))
    ensures e == Corrected || x != Catalog.Mandatory ==> Plain(ws)
  {
    match x
    case Mandatory => MandatoryWires(e)
    case HalfMandatory => Registers(SubMandatorySources())
    case Trance => Registers(ReceptionSources())
    case Speed => Registers(SpeedSources())
    case SubMandatory => Registers(SubMandatorySources())
    case MultiTarget => Registers(MultiTargetSources())
    case ChangeTarget => Registers(ChangeTargetSources())
    case Apportation => Fetches(ApportationSources())
    case Maintenance => Registers(MaintenanceSources())
    case Focus => Registers(FocusSources())
    case Optional => Registers(OptionalSources())
    case Components => Registers(ComponentsSources())
    case Unreal => Registers(UnrealSources())
    case Modifiers => Registers(ModifiersSources())
    case Total => Registers(TotalSources())
    case ConcentrationAdd => Registers(ConcentrationAddSources())
    case Reception => Registers(ReceptionSources())
    case Specific => Registers(SpecificSources())
    case _ => []
  }

  /** The table getDefaultValueTable hands every value field: the shared
      table with the wrapping multiplier as written, the exact one once
      corrected. */
  function ValueTable(e: Edition): (t: Table)
    ensures |t| == 100 && Indexed(t)
    ensures e == AsWritten ==> GeneratedAsWritten(t)
    ensures e == Corrected ==> Generated(t)
  {
    if e == AsWritten then DefaultTable() else CorrectedDefaultTable()
  }

  /** A value field on the shared default table at row 0. */
  function OnDefault(s: Scale, e: Edition): Kind {
    ValueField(NewValue(ValueTable(e), s))
  }

  /** A field of a class outside the model, with no value and no sources. */
  function Outside(cls: string): Kind {
    OpaqueField(cls, 0, [])
  }

  /** The modifier class a specialised composite's addFirst is given. */
  function BlankRule(rule: CompositeRule): ModifierRule {
    match rule
    case CommunityComposite => CommunityField(false)
    case ComponentsComposite(_, _) => ComponentField(false, false)
    case _ => GestureField(false)
  }

  /** The child addFirst leaves in a specialised composite: relabelled, on
      the composite's own table at row 0, marked initial, applied to DN. */
  function FirstChild(rule: CompositeRule): Child {
    match rule
    case CommunityComposite =>
      Child("Community", ModifierField(CommunityField(true), NewValue(SetInitialValuesAsWritten(32), CommunityModifier), true))
    case ComponentsComposite(_, _) =>
      Child("Component", ModifierField(ComponentField(true, false), NewValue(SetInitialValuesAsWritten(4), Component), true))
    case _ =>
      Child("Gesture", ModifierField(GestureField(true), NewValue(SetInitialValuesAsWritten(4), Gesture), true))
  }

  /** What a factory creates before it fetches anything: the title it
      gives the field and the field itself. */
  datatype Plan = Plan(title: string, kind: Kind)

  /** The title and the freshly created field of each name's factory,
      before it fetches anything. */
  function Blueprint(x: FieldId, e: Edition): Plan {
    match x
    case Name => Plan("Name", BaseField)
    case Effect => Plan("Effect", ScalarField(0))
    case Range => Plan("Range", OnDefault(Distance, e))
    case Speed => Plan("Speed", FollowsField(NewValue(ValueTable(e), Tables.Speed), Some(Catalog.Range), true))
    case Duration => Plan("Duration", OnDefault(Time, e))
    case SubMandatory => Plan("SubMandatory", CalculatedField(SubMandatoryFormula, 0, []))
    case HalfMandatory => Plan("HalfMandatory", CalculatedField(HalfMandatoryFormula, 0, []))
    case Casting => Plan("Casting", OnDefault(Time, e))
    case Mandatory => Plan("Mandatory", CalculatedField(MandatoryFormula, 0, []))
    case AreaEffect =>
      Plan("AreaEffect", CompositeField(PlainComposite,
        [Child("Area", Outside("SFXFieldArea")), Child("Volume", Outside("SFXFieldVolume")),
         Child("Shape", OnDefault(Tables.Shape, e))]))
    case MultiTarget => Plan("MultiTarget", Outside("SFXFieldMultiTarget"))
    case MultiAttribute => Plan("MultiAttribute", OnDefault(Tables.MultiAttribute, e))
    case ChangeTarget => Plan("Change target", Outside("SFXFieldChangeTarget"))
    case VariableEffect => Plan("Variable Effect", Outside("SFXFieldVariableEffect"))
    case VariableDuration =>
      Plan("Variable Duration", CompositeField(PlainComposite, [Child("Switch", OnDefault(Switch, e)), Child("Extend", OnDefault(Time, e))]))
    case Apportation =>
      Plan("Apportation", CompositeField(PlainComposite, [Child("ToHit", Outside("SFXScalarToHit")), Child("Move", Outside("SFXValueMove"))]))
    case Maintenance => Plan("Maintenance", Outside("SFXFieldMaintenance"))
    case Focus => Plan("Focus", Outside("SFXFieldFocus"))
    case Charges => Plan("Charges", ChargesField(0, false))
    case Optional => Plan("Optional", CalculatedField(OptionalFormula, 0, []))
    case Community => Plan("Community", CompositeField(CommunityComposite, [FirstChild(CommunityComposite)]))
    case Components =>
      Plan("Components", CompositeField(ComponentsComposite(false, []), [FirstChild(ComponentsComposite(false, []))]))
    case Concentration => Plan("Concentration", ModifierField(ConcentrationField, NewValue(ValueTable(e), Time), true))
    case Gestures => Plan("Gestures", CompositeField(GesturesComposite, [FirstChild(GesturesComposite)]))
    case Incantation =>
      Plan("Incantation", ModifierField(IncantationField(false, false, false), NewValue(ValueTable(e), Tables.Incantation), true))
    case RelatedSkill => Plan("RelatedSkill", ModifierField(PlainModifier, NewValue(ValueTable(e), Tables.RelatedSkill), true))
    case Other => Plan("Others", DoubleField(OthersRule, 0, 0, 0, []))
    case Unreal => Plan("Unreal", UnrealField(NewFrac, 0, None))
    case Modifiers => Plan("Modifiers", DoubleField(ModifiersRule(false), 0, 0, 0, []))
    case Fraction => Plan("Fraction", FractionField(NewFrac))
    case Total => Plan("Totals", DoubleField(TotalRule, 0, 0, 0, []))
    case Skill => Plan("Skill", OnDefault(Tables.Skill, e))
    case ConcentrationAdd => Plan("ConcentrationAdd", Outside("SFXFieldConcentrationAdd"))
    case Reception => Plan("Reception", Outside("SFXFieldReception"))
    case Trance => Plan("Trance", Outside("SFXFieldTrance"))
    case Lock => Plan("Lock", OnDefault(Tables.Lock, e))
    case Countenance => Plan("Countenance", OnDefault(Tables.Countenance, e))
    case Specific => Plan("Totals", Outside("SFXFieldTotalN"))
  }

  /** The field after a wire: a source or registration is recorded as
      addDepends or m_listSource.add records it. */
  function WireKind(k: Kind, w: Wire): Kind {
    match w
    case Fetch(_) => k
    case Source(y) => WithSource(k, y)
    case Register(y) => WithSource(k, y)
  }

  /** The field after all its wires. */
  function Wired(k: Kind, ws: seq<Wire>): Kind
    decreases |ws|
  {
    if |ws| == 0 then k else Wired(WireKind(k, ws[0]), ws[1..])
  }

  /** The field a name's factory builds: its blueprint after its wires. */
  function Assembled(x: FieldId, e: Edition): Kind {
    Wired(Blueprint(x, e).kind, Recipe(x, e))
  }

  /** The setValue(0) every factory ends with. For every class but the
      follower it is a step of nothing. A follower starts with m_zDefault
      set, so it takes the row of the field it follows, when its own table
      has that row, as updateValue does. */
  function Started(r: Registry, x: FieldId, k: Kind): (k2: Kind)
    ensures !k.FollowsField? ==> k2 == k
    ensures k.FollowsField? ==> && k2.FollowsField? && k2.follows == k.follows && k2.tracking == k.tracking
                                && k2.v.table == k.v.table
  {
    if !k.FollowsField? then k
    else
      match RecomputeFollows(r, x, k)
      case Ok(rc) => rc.kind
      case Err(_) => k
  }

  /** Started reads only the fields ranked below the one it starts. */
  lemma StartedIsLocal(r: Registry, r2: Registry, x: FieldId, k: Kind)
    requires r.Keys == r2.Keys && Agree(r, r2, Catalog.Level(x))
    ensures Started(r, x, k) == Started(r2, x, k)
  {
    if k.FollowsField? {
      FollowsIsLocal(r, r2, x, k);
    }
  }

  /** The registry after the closing setValue(0) of `x`. */
  function Start(r: Registry, x: FieldId): (res: Registry)
    requires IsBuilt(r, x)
    ensures res.Keys == r.Keys && IsBuilt(res, x)
    ensures res[x].field == r[x].field.(kind := Started(res, x, r[x].field.kind))
    ensures forall z :: z in r && z != x ==> res[z] == r[z]
  {
    var res := r[x := Slot.Built(r[x].field.(kind := Started(r, x, r[x].field.kind)))];
    StartedIsLocal(r, res, x, r[x].field.kind);
    res
  }

  /** Starting `x` keeps what building and wiring it promised. */
  lemma StartKeeps(r: Registry, r2: Registry, x: FieldId, e: Edition)
    requires x in r && IsBuilt(r2, x) && r2.Keys == r.Keys
    requires Above(r, r2, Catalog.Level(x)) && Settled(r, r2, x) && Edges(r, r2, e)
    ensures Above(r, Start(r2, x), Catalog.Level(x)) && Settled(r, Start(r2, x), x) && Edges(r, Start(r2, x), e)
  {
    var r3 := Start(r2, x);
    assert forall z :: z in r2 ==> DepsOf(r3, z) == DepsOf(r2, z);
  }

  /* ---------------------------------------------------------------------
     getField
     --------------------------------------------------------------------- */

  /** The dependents of a name; a placeholder has none. */
  function DepsOf(r: Registry, z: FieldId): seq<FieldId> {
    if IsBuilt(r, z) then r[z].field.dependents else []
  }

  /** The map holds a slot for every name. */
  predicate Complete(r: Registry) {
    forall z: FieldId :: z in r
  }

  /** Names ranked above `l` are untouched. */
  predicate Above(r: Registry, r2: Registry, l: int) {
    forall z :: z in r && l < Catalog.Level(z) ==> z in r2 && r2[z] == r[z]
  }

  /** Every built field other than `x` stays built with its title and
      class, and its dependents only gain names at the end. */
  predicate Settled(r: Registry, r2: Registry, x: FieldId) {
    forall z :: z in r && r[z].Built? && z != x ==>
      && z in r2 && r2[z].Built?
      && r2[z].field.title == r[z].field.title && r2[z].field.kind == r[z].field.kind
      && r[z].field.dependents <= r2[z].field.dependents
  }

  /** Every dependent a name gains is one whose recipe registers on it. */
  predicate Edges(r: Registry, r2: Registry, e: Edition) {
    forall z, w :: z in r && w in DepsOf(r2, z) && w !in DepsOf(r, z) ==> Register(z) in Recipe(w, e)
  }

  /** Wiring `x` by `ws` registers `x` with every name a Register wire
      names, and every other dependent a name gains is one whose recipe
      registers on it. */
  predicate Links(r: Registry, r2: Registry, x: FieldId, ws: seq<Wire>, e: Edition) {
    && (forall y :: Register(y) in ws ==> x in DepsOf(r2, y))
    && (forall z, w :: z in r && w in DepsOf(r2, z) && w !in DepsOf(r, z) ==>
          (w == x && Register(z) in ws) || Register(z) in Recipe(w, e))
  }

  /** getField(x): a built field is returned as it is; a placeholder is
      replaced by the field its factory builds, after every name the
      factory fetches has been resolved in turn, and then started by the
      factory's closing setValue(0). A missing name is an error. */
  function Resolve(r: Registry, x: FieldId, e: Edition): (res: Result<Registry>)
    ensures Complete(r) ==> res.Ok?
    ensures res.Ok? ==> && res.value.Keys == r.Keys && IsBuilt(res.value, x)
                        && Above(r, res.value, Catalog.Level(x)) && Settled(r, res.value, x)
                        && Edges(r, res.value, e)
    ensures res.Ok? && IsBuilt(r, x) ==> res.value == r
    ensures res.Ok? && !IsBuilt(r, x) ==> res.value[x].field == Field(Blueprint(x, e).title, Started(res.value, x, Assembled(x, e)), [])
    ensures res.Ok? && !IsBuilt(r, x) ==> forall y :: Register(y) in Recipe(x, e) ==> x in DepsOf(res.value, y)
    decreases Catalog.Level(x), 1
  {
    if x !in r then Err(Misuse)
    else if r[x].Built? then Ok(r)
    else
      var plan := Blueprint(x, e);
      var r1 := r[x := Slot.Built(Field(plan.title, plan.kind, []))];
      var r2 :- Wiring(r1, x, Recipe(x, e), e);
      ResolveBuilds(r, r1, r2, x, e);
      StartKeeps(r, r2, x, e);
      Ok(Start(r2, x))
  }

  /** What building a placeholder and wiring it leaves: the conditions
      getField promises, read off the wiring's. */
  lemma ResolveBuilds(r: Registry, r1: Registry, r2: Registry, x: FieldId, e: Edition)
    requires x in r && r[x].Pending?
    requires r1 == r[x := Slot.Built(Field(Blueprint(x, e).title, Blueprint(x, e).kind, []))]
    requires r2.Keys == r1.Keys
    requires Above(r1, r2, Catalog.Level(x)) && Settled(r1, r2, x) && Links(r1, r2, x, Recipe(x, e), e)
    ensures r2.Keys == r.Keys && Above(r, r2, Catalog.Level(x)) && Settled(r, r2, x) && Edges(r, r2, e)
  {
    var f := Field(Blueprint(x, e).title, Blueprint(x, e).kind, []);
    AboveThrough(r, f, r2, x);
    SettledThrough(r, f, r2, x);
    EdgesThrough(r, f, r2, x, Recipe(x, e), e);
  }

  lemma AboveThrough(r: Registry, f: Field, r2: Registry, x: FieldId)
    requires x in r && Above(r[x := Slot.Built(f)], r2, Catalog.Level(x))
    ensures Above(r, r2, Catalog.Level(x))
  {
    var r1 := r[x := Slot.Built(f)];
    forall z | z in r && Catalog.Level(x) < Catalog.Level(z)
      ensures z in r2 && r2[z] == r[z]
    {
      assert z in r1 && r1[z] == r[z];
    }
  }

  lemma SettledThrough(r: Registry, f: Field, r2: Registry, x: FieldId)
    requires x in r && Settled(r[x := Slot.Built(f)], r2, x)
    ensures Settled(r, r2, x)
  {
    var r1 := r[x := Slot.Built(f)];
    forall z | z in r && r[z].Built? && z != x
      ensures && z in r2 && r2[z].Built?
              && r2[z].field.title == r[z].field.title && r2[z].field.kind == r[z].field.kind
              && r[z].field.dependents <= r2[z].field.dependents
    {
      assert z in r1 && r1[z] == r[z];
    }
  }

  lemma EdgesThrough(r: Registry, f: Field, r2: Registry, x: FieldId, ws: seq<Wire>, e: Edition)
    requires x in r && r[x].Pending? && f.dependents == [] && ws == Recipe(x, e)
    requires Links(r[x := Slot.Built(f)], r2, x, ws, e)
    ensures Edges(r, r2, e)
  {
    var r1 := r[x := Slot.Built(f)];
    forall z, w | z in r && w in DepsOf(r2, z) && w !in DepsOf(r, z)
      ensures Register(z) in Recipe(w, e)
    {
      assert z in r1 && DepsOf(r1, z) == DepsOf(r, z);
    }
  }

  /** The factory of `x` working through its wires: resolve each name, then
      record it as the wire says. */
  function Wiring(r: Registry, x: FieldId, ws: seq<Wire>, e: Edition): (res: Result<Registry>)
    requires IsBuilt(r, x)
    requires Ranked(ws, Catalog.Level(x))
    ensures Complete(r) ==> res.Ok?
    ensures res.Ok? ==> && res.value.Keys == r.Keys && IsBuilt(res.value, x)
                        && res.value[x].field == Field(r[x].field.title, Wired(r[x].field.kind, ws), r[x].field.dependents)
                        && Above(r, res.value, Catalog.Level(x)) && Settled(r, res.value, x)
                        && Links(r, res.value, x, ws, e)
    decreases Catalog.Level(x), 0, |ws|
  {
    if |ws| == 0 then Ok(r)
    else
      assert ws[0] in ws;
      var r1 :- Resolve(r, ws[0].id, e);
      var r2 := Hook(r1, x, ws[0]);
      assert forall w :: w in ws[1..] ==> w in ws;
      var r3 :- Wiring(r2, x, ws[1..], e);
      WiringKeeps(r, r1, r2, r3, x, ws[0]);
      WiringLinks(r, r1, r2, r3, x, ws, e);
      Ok(r3)
  }

  /** The links of the first wire and of the rest are the links of the
      whole. */
  lemma WiringLinks(r: Registry, r1: Registry, r2: Registry, r3: Registry, x: FieldId, ws: seq<Wire>, e: Edition)
    requires 0 < |ws| && IsBuilt(r, x) && Catalog.Level(ws[0].id) < Catalog.Level(x)
    requires r1.Keys == r.Keys && IsBuilt(r1, ws[0].id) && Edges(r, r1, e)
    requires IsBuilt(r1, x) && r2 == Hook(r1, x, ws[0])
    requires r3.Keys == r2.Keys && Settled(r2, r3, x) && Links(r2, r3, x, ws[1..], e)
    ensures Links(r, r3, x, ws, e)
  {
    var y := ws[0].id;
    forall v | Register(v) in ws ensures x in DepsOf(r3, v) {
      if Register(v) != ws[0] {
        assert Register(v) in ws[1..];
      } else {
        assert x in DepsOf(r2, v);
        assert DepsOf(r2, v) <= DepsOf(r3, v);
      }
    }
    forall z, w | z in r && w in DepsOf(r3, z) && w !in DepsOf(r, z)
      ensures (w == x && Register(z) in ws) || Register(z) in Recipe(w, e)
    {
      if w in DepsOf(r1, z) {
      } else if w in DepsOf(r2, z) {
        assert z == y && ws[0].Register? && w == x;
      } else {
        if w == x && Register(z) in ws[1..] {
          assert Register(z) in ws;
        }
      }
    }
  }

  /** One wire and the rest: what resolving the wire's name and the rest of
      the wires keep, the whole keeps. */
  lemma WiringKeeps(r: Registry, r1: Registry, r2: Registry, r3: Registry, x: FieldId, w: Wire)
    requires IsBuilt(r, x) && Catalog.Level(w.id) < Catalog.Level(x)
    requires r1.Keys == r.Keys && IsBuilt(r1, w.id) && Above(r, r1, Catalog.Level(w.id)) && Settled(r, r1, w.id)
    requires IsBuilt(r, w.id) ==> r1 == r
    requires IsBuilt(r1, x) && r2 == Hook(r1, x, w)
    requires r3.Keys == r2.Keys && Above(r2, r3, Catalog.Level(x)) && Settled(r2, r3, x)
    ensures Above(r, r3, Catalog.Level(x)) && Settled(r, r3, x)
  {
    forall z | z in r && r[z].Built? && z != x
      ensures && r3[z].Built? && r3[z].field.title == r[z].field.title && r3[z].field.kind == r[z].field.kind
              && r[z].field.dependents <= r3[z].field.dependents
    {
      if z == w.id {
        assert r1[z] == r[z];
      }
    }
  }

  /** Records one wire of `x` once its name is resolved. */
  function Hook(r: Registry, x: FieldId, w: Wire): (res: Registry)
    requires IsBuilt(r, x) && IsBuilt(r, w.id) && x != w.id
    ensures res.Keys == r.Keys && IsBuilt(res, x) && IsBuilt(res, w.id)
    ensures res[x].field == Field(r[x].field.title, WireKind(r[x].field.kind, w), r[x].field.dependents)
    ensures res[w.id].field.title == r[w.id].field.title && res[w.id].field.kind == r[w.id].field.kind
    ensures res[w.id].field.dependents == if w.Register? then r[w.id].field.dependents + [x] else r[w.id].field.dependents
    ensures forall z :: z in r && z != x && z != w.id ==> res[z] == r[z]
  {
    match w
    case Fetch(_) => r
    case Source(y) => Rekind(r, x, WithSource(r[x].field.kind, y))
    case Register(y) => AddDepends(r, x, y).value
  }

  /* ---------------------------------------------------------------------
     What the factories wire
     --------------------------------------------------------------------- */

  /** Only the follower Speed refers to another field before its wires. */
  lemma BlueprintRefs(x: FieldId, e: Edition)
    ensures Refs(Blueprint(x, e).kind) == if x == Catalog.Speed then [Catalog.Range] else []
  {
    match x
    case Name | Effect | Range | Speed | Duration | SubMandatory | HalfMandatory | Casting | Mandatory | AreaEffect | MultiTarget | MultiAttribute | ChangeTarget =>
      BlueprintRefsFirst(x, e);
    case VariableEffect | VariableDuration | Apportation | Maintenance | Focus | Charges | Optional | Community =>
      BlueprintRefsSecond(x, e);
    case Components | Concentration | Gestures | Incantation | RelatedSkill | Other | Unreal =>
      BlueprintRefsThird(x, e);
    case Modifiers | Fraction | Total | Skill | ConcentrationAdd =>
      BlueprintRefsFourth(x, e);
    case Reception | Trance | Lock | Countenance | Specific =>
      BlueprintRefsFifth(x, e);
  }

  lemma BlueprintRefsFirst(x: FieldId, e: Edition)
    requires x.Name?
      || x.Effect?
      || x.Range?
      || x.Speed?
      || x.Duration?
      || x.SubMandatory?
      || x.HalfMandatory?
      || x.Casting?
      || x.Mandatory?
      || x.AreaEffect?
      || x.MultiTarget?
      || x.MultiAttribute?
      || x.ChangeTarget?
    ensures Refs(Blueprint(x, e).kind) == if x == Catalog.Speed then [Catalog.Range] else []
  {
  }

  lemma BlueprintRefsSecond(x: FieldId, e: Edition)
    requires x.VariableEffect?
      || x.VariableDuration?
      || x.Apportation?
      || x.Maintenance?
      || x.Focus?
      || x.Charges?
      || x.Optional?
      || x.Community?
    ensures Refs(Blueprint(x, e).kind) == if x == Catalog.Speed then [Catalog.Range] else []
  {
  }

  lemma BlueprintRefsThird(x: FieldId, e: Edition)
    requires x.Components?
      || x.Concentration?
      || x.Gestures?
      || x.Incantation?
      || x.RelatedSkill?
      || x.Other?
      || x.Unreal?
    ensures Refs(Blueprint(x, e).kind) == if x == Catalog.Speed then [Catalog.Range] else []
  {
  }

  lemma BlueprintRefsFourth(x: FieldId, e: Edition)
    requires x.Modifiers?
      || x.Fraction?
      || x.Total?
      || x.Skill?
      || x.ConcentrationAdd?
    ensures Refs(Blueprint(x, e).kind) == if x == Catalog.Speed then [Catalog.Range] else []
  {
  }

  lemma BlueprintRefsFifth(x: FieldId, e: Edition)
    requires x.Reception?
      || x.Trance?
      || x.Lock?
      || x.Countenance?
      || x.Specific?
    ensures Refs(Blueprint(x, e).kind) == if x == Catalog.Speed then [Catalog.Range] else []
  {
  }

  /** A wired field reads only what it read before and the names its
      source and register wires give it. */
  lemma {:induction false} WiredRefs(k: Kind, ws: seq<Wire>, y: FieldId)
    requires y in Refs(Wired(k, ws))
    ensures y in Refs(k) || Source(y) in ws || Register(y) in ws
    decreases |ws|
  {
    if |ws| > 0 {
      var k1 := WireKind(k, ws[0]);
      WiredRefs(k1, ws[1..], y);
      if y in Refs(k1) && y !in Refs(k) {
        assert ws[0] == Source(y) || ws[0] == Register(y);
      } else if Source(y) in ws[1..] {
        assert Source(y) in ws;
      } else if Register(y) in ws[1..] {
        assert Register(y) in ws;
      }
    }
  }

  /** As corrected, a factory registers with every field its field reads. */
  lemma CorrectedReadsAreRegistered(x: FieldId, y: FieldId)
    requires y in Refs(Assembled(x, Corrected))
    ensures Register(y) in Recipe(x, Corrected)
  {
    WiredRefs(Blueprint(x, Corrected).kind, Recipe(x, Corrected), y);
    BlueprintRefs(x, Corrected);
    SpeedRegistersOnRange(Corrected);
  }

  /** As written, the only field read without registering is the half
      that Mandatory reads, and Mandatory does read it. */
  lemma AsWrittenMissesOnlyHalf(x: FieldId, y: FieldId)
    requires y in Refs(Assembled(x, AsWritten)) && Register(y) !in Recipe(x, AsWritten)
    ensures x == Catalog.Mandatory && y == Catalog.HalfMandatory
  {
    WiredRefs(Blueprint(x, AsWritten).kind, Recipe(x, AsWritten), y);
    BlueprintRefs(x, AsWritten);
    SpeedRegistersOnRange(AsWritten);
  }


  /** The kind with `ys` appended to its source list, for the kinds that
      keep one. */
  function Appended(k: Kind, ys: seq<FieldId>): Kind {
    match k
    case CalculatedField(f, v, src) => CalculatedField(f, v, src + ys)
    case DoubleField(rule, v, dn, fv, src) => DoubleField(rule, v, dn, fv, src + ys)
    case CompositeField(ComponentsComposite(limited, src), cs) => CompositeField(ComponentsComposite(limited, src + ys), cs)
    case _ => k
  }

  /** One wire appends its name, if it gives one. */
  lemma WireAppends(k: Kind, w: Wire)
    requires k.CalculatedField? || k.DoubleField? || (k.CompositeField? && k.composite.ComponentsComposite?)
    ensures WireKind(k, w) == Appended(k, if w.Fetch? then [] else [w.id])
  {
  }

  /** Appending twice appends the concatenation. */
  lemma AppendedTwice(k: Kind, a: seq<FieldId>, b: seq<FieldId>)
    ensures Appended(Appended(k, a), b) == Appended(k, a + b)
  {
    match k
    case CalculatedField(f, v, src) => assert src + a + b == src + (a + b);
    case DoubleField(rule, v, dn, fv, src) => assert src + a + b == src + (a + b);
    case CompositeField(composite, cs) =>
      if composite.ComponentsComposite? {
        assert composite.sources + a + b == composite.sources + (a + b);
      }
    case _ =>
  }

  /** A sub-total, double or Components field collects the names of its
      wires as its sources, in order. */
  lemma {:induction false} WiredAppends(k: Kind, ws: seq<Wire>)
    requires k.CalculatedField? || k.DoubleField? || (k.CompositeField? && k.composite.ComponentsComposite?)
    ensures Wired(k, ws) == Appended(k, Ids(ws))
    decreases |ws|
  {
    if |ws| > 0 {
      var head := if ws[0].Fetch? then [] else [ws[0].id];
      WireAppends(k, ws[0]);
      WiredAppends(Appended(k, head), ws[1..]);
      AppendedTwice(k, head, Ids(ws[1..]));
    }
  }

  /** SubMandatory reads Effect, Range, Speed and Duration. */
  lemma SubMandatoryAssembled(e: Edition)
    ensures Assembled(Catalog.SubMandatory, e) ==
      CalculatedField(SubMandatoryFormula, 0, [Catalog.Effect, Catalog.Range, Catalog.Speed, Catalog.Duration])
  {
    var k := Blueprint(Catalog.SubMandatory, e).kind;
    assert k == CalculatedField(SubMandatoryFormula, 0, []);
    var ids := SubMandatorySources();
    var ws := Registers(ids);
    assert Recipe(Catalog.SubMandatory, e) == ws by {}
    WiredAppends(k, ws);
    assert Wired(k, ws) == CalculatedField(SubMandatoryFormula, 0, Ids(ws));
    IdsOfRegisters(ids);
  }

  /** HalfMandatory reads the same four fields. */
  lemma HalfMandatoryAssembled(e: Edition)
    ensures Assembled(Catalog.HalfMandatory, e) ==
      CalculatedField(HalfMandatoryFormula, 0, [Catalog.Effect, Catalog.Range, Catalog.Speed, Catalog.Duration])
  {
    var k := Blueprint(Catalog.HalfMandatory, e).kind;
    assert k == CalculatedField(HalfMandatoryFormula, 0, []);
    var ids := SubMandatorySources();
    var ws := Registers(ids);
    assert Recipe(Catalog.HalfMandatory, e) == ws by {}
    WiredAppends(k, ws);
    assert Wired(k, ws) == CalculatedField(HalfMandatoryFormula, 0, Ids(ws));
    IdsOfRegisters(ids);
  }

  /** Mandatory reads SubMandatory, Casting and HalfMandatory, in both
      editions. */
  lemma MandatoryAssembled(e: Edition)
    ensures Assembled(Catalog.Mandatory, e) ==
      CalculatedField(MandatoryFormula, 0, [Catalog.SubMandatory, Catalog.Casting, Catalog.HalfMandatory])
  {
    WiredAppends(Blueprint(Catalog.Mandatory, e).kind, MandatoryWires(e));
  }

  lemma SpeedRegistersOnRange(e: Edition)
    ensures Recipe(Catalog.Speed, e) == [Register(Catalog.Range)]
  {
  }

  /** Speed follows Range, tracking it, and registers on it. */
  lemma SpeedFollowsRange(e: Edition)
    ensures Assembled(Catalog.Speed, e) == FollowsField(NewValue(ValueTable(e), Tables.Speed), Some(Catalog.Range), true)
    ensures Recipe(Catalog.Speed, e) == [Register(Catalog.Range)]
  {
  }

  /** A tracking follower, started, takes the row of the field it follows
      when its table has that row. */
  lemma StartedTakesRow(r: Registry, x: FieldId, v: ValueState, y: FieldId)
    requires Catalog.Level(y) < Catalog.Level(x) && Ready(r, y) && r[y].field.kind.ValueField?
    ensures Started(r, x, FollowsField(v, Some(y), true)) == FollowsField(SelectRow(v, r[y].field.kind.v.index).0, Some(y), true)
  {
  }

  /** Resolving Speed leaves Range built: as it was when it already was, and
      at row 0 when it was a placeholder. */
  lemma SpeedLeavesRange(r: Registry, e: Edition)
    requires Complete(r) && !IsBuilt(r, Catalog.Speed)
    ensures Resolve(r, Catalog.Speed, e).Ok?
    ensures var r2 := Resolve(r, Catalog.Speed, e).value;
      && IsBuilt(r2, Catalog.Range)
      && (IsBuilt(r, Catalog.Range) ==> r2[Catalog.Range].field.kind == r[Catalog.Range].field.kind)
      && (!IsBuilt(r, Catalog.Range) ==> Ready(r2, Catalog.Range) && r2[Catalog.Range].field.kind == OnDefault(Distance, e))
  {
    SpeedRegistersOnRange(e);
    var r2 := Resolve(r, Catalog.Speed, e).value;
    assert Register(Catalog.Range) in Recipe(Catalog.Speed, e);
    assert Catalog.Speed in DepsOf(r2, Catalog.Range);
    if !IsBuilt(r, Catalog.Range) {
      var r1 := r[Catalog.Speed := Slot.Built(Field("Speed", Blueprint(Catalog.Speed, e).kind, []))];
      RangeStartsAtZero(r1, e);
      var ra := Resolve(r1, Catalog.Range, e).value;
      var rh := Hook(ra, Catalog.Speed, Register(Catalog.Range));
      assert Wiring(rh, Catalog.Speed, [], e) == Ok(rh);
      assert Wiring(r1, Catalog.Speed, [Register(Catalog.Range)], e) == Ok(rh);
      assert r2 == Start(rh, Catalog.Speed);
    }
  }

  /** Range's factory wires nothing, so a Range built along with another
      field is the blueprint's, at row 0. */
  lemma RangeStartsAtZero(r: Registry, e: Edition)
    requires Complete(r) && !IsBuilt(r, Catalog.Range)
    ensures Resolve(r, Catalog.Range, e).Ok?
    ensures var r2 := Resolve(r, Catalog.Range, e).value;
      Ready(r2, Catalog.Range) && r2[Catalog.Range].field.kind == OnDefault(Distance, e)
  {
    assert Recipe(Catalog.Range, e) == [];
  }

  /** Speed's factory fetches Range and registers on it before its closing
      setValue(0), so a new Speed starts on Range's row: the row Range has
      moved to when it was built before, and row 0 when it is built along
      with Speed. */
  lemma SpeedStartsOnRangeRow(r: Registry, e: Edition)
    requires Complete(r) && !IsBuilt(r, Catalog.Speed)
    ensures Resolve(r, Catalog.Speed, e).Ok?
    ensures var k := Resolve(r, Catalog.Speed, e).value[Catalog.Speed].field.kind;
      && k.FollowsField? && k.follows == Some(Catalog.Range) && k.tracking && k.v.table == ValueTable(e)
      && (Ready(r, Catalog.Range) && r[Catalog.Range].field.kind.ValueField?
          && !OutRange(ValueTable(e), r[Catalog.Range].field.kind.v.index)
          ==> k.v.index == r[Catalog.Range].field.kind.v.index)
      && (!IsBuilt(r, Catalog.Range) ==> k.v.index == 0)
  {
    SpeedFollowsRange(e);
    SpeedLeavesRange(r, e);
    var r2 := Resolve(r, Catalog.Speed, e).value;
    var v := NewValue(ValueTable(e), Tables.Speed);
    assert r2[Catalog.Speed].field.kind == Started(r2, Catalog.Speed, FollowsField(v, Some(Catalog.Range), true));
    if !IsBuilt(r, Catalog.Range) || (Ready(r, Catalog.Range) && r[Catalog.Range].field.kind.ValueField?) {
      StartedTakesRow(r2, Catalog.Speed, v, Catalog.Range);
    }
  }



  /** Components reads Mandatory, Optional and Fraction, and holds one
      initial component. */
  lemma ComponentsAssembled(e: Edition)
    ensures Assembled(Catalog.Components, e) ==
      CompositeField(ComponentsComposite(false, [Catalog.Mandatory, Catalog.Optional, Catalog.Fraction]),
                     [FirstChild(ComponentsComposite(false, []))])
  {
    var k := Blueprint(Catalog.Components, e).kind;
    var child := FirstChild(ComponentsComposite(false, []));
    assert k == CompositeField(ComponentsComposite(false, []), [child]);
    var ids := ComponentsSources();
    var ws := Registers(ids);
    assert Recipe(Catalog.Components, e) == ws by {}
    WiredAppends(k, ws);
    assert [] + Ids(ws) == Ids(ws);
    assert Appended(k, Ids(ws)) == CompositeField(ComponentsComposite(false, [] + Ids(ws)), [child]);
    IdsOfRegisters(ids);
  }

  /** Modifiers reads its eleven sources in the order its casts expect. */
  lemma ModifiersAssembled(e: Edition)
    ensures Assembled(Catalog.Modifiers, e) ==
      DoubleField(ModifiersRule(false), 0, 0, 0,
        [Catalog.Mandatory, Catalog.Optional, Catalog.Fraction,
         Catalog.Community, Catalog.Components, Catalog.Concentration, Catalog.Gestures,
         Catalog.Incantation, Catalog.RelatedSkill, Catalog.Other, Catalog.Unreal])
  {
    var k := Blueprint(Catalog.Modifiers, e).kind;
    assert k == DoubleField(ModifiersRule(false), 0, 0, 0, []);
    var ids := ModifiersSources();
    var ws := Registers(ids);
    assert Recipe(Catalog.Modifiers, e) == ws by {}
    WiredAppends(k, ws);
    assert Wired(k, ws) == DoubleField(ModifiersRule(false), 0, 0, 0, Ids(ws));
    IdsOfRegisters(ids);
  }

  /** Total reads Mandatory, Optional, Fraction and Modifiers. */
  lemma TotalAssembled(e: Edition)
    ensures Assembled(Catalog.Total, e) ==
      DoubleField(TotalRule, 0, 0, 0, [Catalog.Mandatory, Catalog.Optional, Catalog.Fraction, Catalog.Modifiers])
  {
    var k := Blueprint(Catalog.Total, e).kind;
    assert k == DoubleField(TotalRule, 0, 0, 0, []);
    var ids := TotalSources();
    var ws := Registers(ids);
    assert Recipe(Catalog.Total, e) == ws by {}
    WiredAppends(k, ws);
    assert Wired(k, ws) == DoubleField(TotalRule, 0, 0, 0, Ids(ws));
    IdsOfRegisters(ids);
  }

  /** Resolving a placeholder makes it a dependent of another name exactly
      when its factory registers on that name. */
  lemma ResolveHearsIffRegistered(r: Registry, x: FieldId, y: FieldId, e: Edition)
    requires Complete(r) && !IsBuilt(r, x) && x !in DepsOf(r, y)
    ensures Resolve(r, x, e).Ok?
    ensures Resolve(r, x, e).value[x].field.kind == Started(Resolve(r, x, e).value, x, Assembled(x, e))
    ensures x in DepsOf(Resolve(r, x, e).value, y) <==> Register(y) in Recipe(x, e)
  {
    var r2 := Resolve(r, x, e).value;
    assert Edges(r, r2, e);
    if x in DepsOf(r2, y) {
      assert Register(y) in Recipe(x, e);
    }
  }

  /** Resolving Mandatory: it reads HalfMandatory in both editions, but
      becomes one of HalfMandatory's dependents only when corrected. */
  lemma MandatoryHearsHalfOnlyCorrected(r: Registry, e: Edition)
    requires Complete(r) && !IsBuilt(r, Catalog.Mandatory) && Catalog.Mandatory !in DepsOf(r, Catalog.HalfMandatory)
    ensures Resolve(r, Catalog.Mandatory, e).Ok?
    ensures var r2 := Resolve(r, Catalog.Mandatory, e).value;
      && Catalog.HalfMandatory in Refs(r2[Catalog.Mandatory].field.kind)
      && (Catalog.Mandatory in DepsOf(r2, Catalog.HalfMandatory) <==> e == Corrected)
  {
    ResolveHearsIffRegistered(r, Catalog.Mandatory, Catalog.HalfMandatory, e);
    MandatoryAssembled(e);
    HalfRegisteredOnlyCorrected(e);
  }

  /** Mandatory's factory registers on HalfMandatory only when corrected. */
  lemma HalfRegisteredOnlyCorrected(e: Edition)
    ensures Register(Catalog.HalfMandatory) in Recipe(Catalog.Mandatory, e) <==> e == Corrected
  {
    var ws := Recipe(Catalog.Mandatory, e);
    assert ws == MandatoryWires(e);
    assert ws[2] == if e == AsWritten then Source(Catalog.HalfMandatory) else Register(Catalog.HalfMandatory);
  }

  /** A specialised composite's first child is what addField would make of
      a blank modifier of its class, marked initial and applied to DN. */
  lemma FirstChildIsAttached(rule: CompositeRule, title: string, v: ValueState)
    requires !rule.PlainComposite?
    ensures Attach(rule, Child(title, MarkInitial(ModifierField(BlankRule(rule), v, true)))) == Ok(FirstChild(rule))
  {
  }
}
