/**
 * What the Mandatory wiring means for a form: a small registry whose
 * dependents are the ones the factories register, edited once.
 *
 * Effect feeds both sub-totals, the sub-total and Casting feed Mandatory,
 * and HalfMandatory lists Mandatory as a dependent only when the factory
 * registers it. Raising Effect updates SubMandatory, which updates
 * Mandatory while HalfMandatory still holds its old value; HalfMandatory is
 * updated next, and only the corrected wiring goes back to Mandatory.
 */
module Staleness {
  import opened Wrappers
  import opened Fields
  import opened Graph
  import opened Edits
  import opened Factory
  import Catalog

  /** The dependents HalfMandatory gets from the Mandatory factory. */
  function HalfListeners(e: Edition): (ds: seq<FieldId>)
    ensures Catalog.Mandatory in ds <==> Register(Catalog.HalfMandatory) in MandatoryWires(e)
  {
    if e == Corrected then [Catalog.Mandatory] else []
  }

  /** Effect and Casting as scalars, the two sub-totals reading Effect,
      Mandatory reading the sub-total, Casting and the half; all at rest. */
  function Start(e: Edition): Registry {
    map[
      Catalog.Effect := Slot.Built(Field("Effect", ScalarField(0), [Catalog.SubMandatory, Catalog.HalfMandatory])),
      Catalog.Casting := Slot.Built(Field("Casting", ScalarField(8), [Catalog.Mandatory])),
      Catalog.SubMandatory := Slot.Built(Field("SubMandatory", CalculatedField(SubMandatoryFormula, 0, [Catalog.Effect]), [Catalog.Mandatory])),
      Catalog.HalfMandatory := Slot.Built(Field("HalfMandatory", CalculatedField(HalfMandatoryFormula, 0, [Catalog.Effect]), HalfListeners(e))),
      Catalog.Mandatory := Slot.Built(Field("Mandatory",
        CalculatedField(MandatoryFormula, 0, MandatorySources()), []))
    ]
  }

  /** The registry with the field under `x` given class state `k`. */
  function Put(r: Registry, x: FieldId, k: Kind): Registry
    requires x in r && r[x].Built?
  {
    r[x := Slot.Built(Field(r[x].field.title, k, r[x].field.dependents))]
  }

  function Calc(f: Formula, v: int, src: seq<FieldId>): Kind {
    CalculatedField(f, v, src)
  }

  /** Mandatory's sources, in the order its formula reads them. */
  function MandatorySources(): seq<FieldId> {
    [Catalog.SubMandatory, Catalog.Casting, Catalog.HalfMandatory]
  }

  /** The registry after each update of the edit, in order. */
  function Raised(e: Edition): Registry {
    Put(Start(e), Catalog.Effect, ScalarField(10))
  }

  function SubDone(e: Edition): Registry {
    Put(Raised(e), Catalog.SubMandatory, Calc(SubMandatoryFormula, 10, [Catalog.Effect]))
  }

  function MandatoryEarly(e: Edition): Registry {
    Put(SubDone(e), Catalog.Mandatory, Calc(MandatoryFormula, 2, MandatorySources()))
  }

  function HalfDone(e: Edition): Registry {
    Put(MandatoryEarly(e), Catalog.HalfMandatory, Calc(HalfMandatoryFormula, 5, [Catalog.Effect]))
  }

  function MandatoryLate(e: Edition): Registry {
    Put(HalfDone(e), Catalog.Mandatory, Calc(MandatoryFormula, 5, MandatorySources()))
  }

  /** The registry at the end of the edit. */
  function Final(e: Edition): Registry {
    if e == AsWritten then HalfDone(e) else MandatoryLate(e)
  }

  /** What the half's propagateChange reports: Mandatory's update, when it
      is registered, and then the half itself. */
  function HalfEvents(e: Edition): seq<Event> {
    if e == AsWritten then [Changed(Catalog.HalfMandatory)]
    else [Changed(Catalog.Mandatory), Changed(Catalog.HalfMandatory)]
  }

  /* ---------------------------------------------------------------------
     One step of propagation at a time
     --------------------------------------------------------------------- */

  /** updateValue of a field whose recomputation changes it. */
  lemma UpdateStep(r: Registry, x: FieldId, k2: Kind, r2: Registry, evs: seq<Event>)
    requires Ready(r, x)
    requires Recompute(r, x, r[x].field.kind) == Ok(Recomputed(k2, true, []))
    requires Propagate(Put(r, x, k2), x) == Ok((r2, evs))
    ensures Update(r, x) == Ok((r2, evs))
  {
    assert [] + evs == evs;
  }

  /** propagateChange: the dependents' updates, then the field's own event. */
  lemma PropagateStep(r: Registry, x: FieldId, r2: Registry, evs: seq<Event>)
    requires x in r && r[x].Built? && Notify(r, x, r[x].field.dependents) == Ok((r2, evs))
    ensures Propagate(r, x) == Ok((r2, evs + [Changed(x)]))
  {
  }

  /** A field without dependents only notifies its own listeners. */
  lemma PropagateAlone(r: Registry, x: FieldId)
    requires x in r && r[x].Built? && r[x].field.dependents == []
    ensures Propagate(r, x) == Ok((r, [Changed(x)]))
  {
    assert Notify(r, x, []) == Ok((r, []));
    assert [] + [Changed(x)] == [Changed(x)];
  }

  /** A field with one dependent updates it, then notifies its listeners. */
  lemma PropagateOne(r: Registry, x: FieldId, d: FieldId, r2: Registry, evs: seq<Event>)
    requires x in r && r[x].Built? && r[x].field.dependents == [d] && Catalog.Level(x) < Catalog.Level(d)
    requires Update(r, d) == Ok((r2, evs))
    ensures Propagate(r, x) == Ok((r2, evs + [Changed(x)]))
  {
    NotifyNone(r2, x);
    NotifyCons(r, x, d, [], r2, evs, r2, []);
    assert [d] + [] == [d];
    assert evs + [] == evs;
    PropagateStep(r, x, r2, evs);
  }

  /** A field with two dependents updates them in order. */
  lemma PropagateTwo(r: Registry, x: FieldId, a: FieldId, b: FieldId, r1: Registry, evs1: seq<Event>, r2: Registry, evs2: seq<Event>)
    requires x in r && r[x].Built? && r[x].field.dependents == [a, b]
    requires Catalog.Level(x) < Catalog.Level(a) && Catalog.Level(x) < Catalog.Level(b)
    requires Update(r, a) == Ok((r1, evs1)) && Update(r1, b) == Ok((r2, evs2))
    ensures Propagate(r, x) == Ok((r2, evs1 + evs2 + [Changed(x)]))
  {
    NotifyNone(r2, x);
    NotifyCons(r1, x, b, [], r2, evs2, r2, []);
    assert [b] + [] == [b];
    assert evs2 + [] == evs2;
    NotifyCons(r, x, a, [b], r1, evs1, r2, evs2);
    assert [a] + [b] == [a, b];
    PropagateStep(r, x, r2, evs1 + evs2);
  }

  /** A field without dependents notifies nobody. */
  lemma NotifyNone(r: Registry, x: FieldId)
    ensures Notify(r, x, []) == Ok((r, []))
  {
  }

  /** The first dependent is updated, then the rest. */
  lemma NotifyCons(r: Registry, x: FieldId, d: FieldId, ds: seq<FieldId>, r1: Registry, evs1: seq<Event>, r2: Registry, evs2: seq<Event>)
    requires Catalog.Level(x) < Catalog.Level(d)
    requires Update(r, d) == Ok((r1, evs1)) && Notify(r1, x, ds) == Ok((r2, evs2))
    ensures Notify(r, x, [d] + ds) == Ok((r2, evs1 + evs2))
  {
    assert ([d] + ds)[1..] == ds;
  }

  /** Mandatory recomputed against a sub-total, Casting at 8 and a half. */
  lemma MandatoryReads(r: Registry, sub: int, half: int, v: int)
    requires IsBuilt(r, Catalog.SubMandatory) && r[Catalog.SubMandatory].field.kind == Calc(SubMandatoryFormula, sub, [Catalog.Effect])
    requires IsBuilt(r, Catalog.Casting) && r[Catalog.Casting].field.kind == ScalarField(8)
    requires IsBuilt(r, Catalog.HalfMandatory) && r[Catalog.HalfMandatory].field.kind == Calc(HalfMandatoryFormula, half, [Catalog.Effect])
    ensures Recompute(r, Catalog.Mandatory, Calc(MandatoryFormula, v, MandatorySources())) ==
      Ok(Recomputed(Calc(MandatoryFormula, Formulas.MandatoryOf(sub, 8, half), MandatorySources()), true, []))
  {
    assert NodeCost(r, Catalog.SubMandatory) == Some(sub);
    assert NodeCost(r, Catalog.Casting) == Some(8);
    assert NodeCost(r, Catalog.HalfMandatory) == Some(half);
  }

  /** A sub-total over Effect recomputed against Effect's scalar value. */
  lemma SubtotalReads(r: Registry, f: Formula, effect: int, v: int)
    requires f == SubMandatoryFormula || f == HalfMandatoryFormula
    requires IsBuilt(r, Catalog.Effect) && r[Catalog.Effect].field.kind == ScalarField(effect) && 0 <= effect
    ensures Recompute(r, if f == SubMandatoryFormula then Catalog.SubMandatory else Catalog.HalfMandatory, Calc(f, v, [Catalog.Effect])) ==
      Ok(Recomputed(Calc(f, if f == SubMandatoryFormula then effect else Formulas.HalfOf(effect), [Catalog.Effect]), true, []))
  {
    var x := if f == SubMandatoryFormula then Catalog.SubMandatory else Catalog.HalfMandatory;
    assert NodeCost(r, Catalog.Effect) == Some(effect);
    assert SumCosts(r, x, [Catalog.Effect][1..]) == Ok(0);
    assert SumCosts(r, x, [Catalog.Effect]) == Ok(effect);
  }

  /* ---------------------------------------------------------------------
     The edit
     --------------------------------------------------------------------- */

  /** Before the edit every derived field agrees with its sources. */
  lemma StartIsFresh(e: Edition)
    ensures Fresh(Start(e), Catalog.SubMandatory)
    ensures Fresh(Start(e), Catalog.HalfMandatory)
    ensures Fresh(Start(e), Catalog.Mandatory)
  {
    var r := Start(e);
    assert r[Catalog.Effect].field.kind == ScalarField(0);
    assert r[Catalog.SubMandatory].field.kind == Calc(SubMandatoryFormula, 0, [Catalog.Effect]);
    assert r[Catalog.HalfMandatory].field.kind == Calc(HalfMandatoryFormula, 0, [Catalog.Effect]);
    assert r[Catalog.Casting].field.kind == ScalarField(8);
    assert r[Catalog.Mandatory].field.kind == Calc(MandatoryFormula, 0, MandatorySources());
    SubtotalReads(r, SubMandatoryFormula, 0, 0);
    SubtotalReads(r, HalfMandatoryFormula, 0, 0);
    MandatoryReads(r, 0, 0, 0);
  }

  /** Mandatory, updated by the sub-total while the half is still 0,
      becomes 10 - 8 = 2. */
  lemma MandatoryAgainstOldHalf(e: Edition)
    ensures Update(SubDone(e), Catalog.Mandatory) == Ok((MandatoryEarly(e), [Changed(Catalog.Mandatory)]))
  {
    var r := SubDone(e);
    assert r[Catalog.SubMandatory].field.kind == Calc(SubMandatoryFormula, 10, [Catalog.Effect]);
    assert r[Catalog.Casting].field.kind == ScalarField(8);
    assert r[Catalog.HalfMandatory].field.kind == Calc(HalfMandatoryFormula, 0, [Catalog.Effect]);
    assert r[Catalog.Mandatory].field.kind == Calc(MandatoryFormula, 0, MandatorySources());
    MandatoryReads(r, 10, 0, 0);
    var r1 := MandatoryEarly(e);
    assert r1[Catalog.Mandatory].field.dependents == [];
    PropagateAlone(r1, Catalog.Mandatory);
    assert Put(r, Catalog.Mandatory, Calc(MandatoryFormula, 2, MandatorySources())) == r1;
    UpdateStep(r, Catalog.Mandatory, Calc(MandatoryFormula, 2, MandatorySources()), r1, [Changed(Catalog.Mandatory)]);
  }

  /** Corrected, Mandatory is updated again and takes the half: 5. */
  lemma MandatoryAgainstNewHalf()
    ensures Update(HalfDone(Corrected), Catalog.Mandatory) ==
      Ok((MandatoryLate(Corrected), [Changed(Catalog.Mandatory)]))
  {
    var r := HalfDone(Corrected);
    assert r[Catalog.SubMandatory].field.kind == Calc(SubMandatoryFormula, 10, [Catalog.Effect]);
    assert r[Catalog.Casting].field.kind == ScalarField(8);
    assert r[Catalog.HalfMandatory].field.kind == Calc(HalfMandatoryFormula, 5, [Catalog.Effect]);
    assert r[Catalog.Mandatory].field.kind == Calc(MandatoryFormula, 2, MandatorySources());
    MandatoryReads(r, 10, 5, 2);
    var r1 := MandatoryLate(Corrected);
    assert r1[Catalog.Mandatory].field.dependents == [];
    PropagateAlone(r1, Catalog.Mandatory);
    assert Put(r, Catalog.Mandatory, Calc(MandatoryFormula, 5, MandatorySources())) == r1;
    UpdateStep(r, Catalog.Mandatory, Calc(MandatoryFormula, 5, MandatorySources()), r1, [Changed(Catalog.Mandatory)]);
  }

  /** The sub-total is updated first and updates Mandatory against the old
      half. */
  lemma SubUpdatesMandatory(e: Edition)
    ensures Update(Raised(e), Catalog.SubMandatory) ==
      Ok((MandatoryEarly(e), [Changed(Catalog.Mandatory), Changed(Catalog.SubMandatory)]))
  {
    var r := Raised(e);
    assert r[Catalog.Effect].field.kind == ScalarField(10);
    assert r[Catalog.SubMandatory].field.kind == Calc(SubMandatoryFormula, 0, [Catalog.Effect]);
    SubtotalReads(r, SubMandatoryFormula, 10, 0);
    var r1 := SubDone(e);
    var r2 := MandatoryEarly(e);
    assert r1[Catalog.SubMandatory].field.dependents == [Catalog.Mandatory];
    MandatoryAgainstOldHalf(e);
    PropagateOne(r1, Catalog.SubMandatory, Catalog.Mandatory, r2, [Changed(Catalog.Mandatory)]);
    assert Put(r, Catalog.SubMandatory, Calc(SubMandatoryFormula, 10, [Catalog.Effect])) == r1;
    assert [Changed(Catalog.Mandatory)] + [Changed(Catalog.SubMandatory)] == [Changed(Catalog.Mandatory), Changed(Catalog.SubMandatory)];
    UpdateStep(r, Catalog.SubMandatory, Calc(SubMandatoryFormula, 10, [Catalog.Effect]), r2,
      [Changed(Catalog.Mandatory), Changed(Catalog.SubMandatory)]);
  }

  /** As written, the half has no dependents. */
  lemma HalfNotifiesNobody()
    ensures Propagate(HalfDone(AsWritten), Catalog.HalfMandatory) == Ok((Final(AsWritten), HalfEvents(AsWritten)))
  {
    var r := HalfDone(AsWritten);
    assert r[Catalog.HalfMandatory].field.dependents == [];
    PropagateAlone(r, Catalog.HalfMandatory);
  }

  /** Corrected, the half updates Mandatory. */
  lemma HalfNotifiesMandatory()
    ensures Propagate(HalfDone(Corrected), Catalog.HalfMandatory) == Ok((Final(Corrected), HalfEvents(Corrected)))
  {
    var r := HalfDone(Corrected);
    var r2 := MandatoryLate(Corrected);
    assert r[Catalog.HalfMandatory].field.dependents == [Catalog.Mandatory];
    MandatoryAgainstNewHalf();
    PropagateOne(r, Catalog.HalfMandatory, Catalog.Mandatory, r2, [Changed(Catalog.Mandatory)]);
    assert [Changed(Catalog.Mandatory)] + [Changed(Catalog.HalfMandatory)] == HalfEvents(Corrected);
  }

  /** The half is updated second: 10 / 2 = 5. */
  lemma HalfUpdates(e: Edition)
    ensures Update(MandatoryEarly(e), Catalog.HalfMandatory) == Ok((Final(e), HalfEvents(e)))
  {
    var r := MandatoryEarly(e);
    assert r[Catalog.Effect].field.kind == ScalarField(10);
    assert r[Catalog.HalfMandatory].field.kind == Calc(HalfMandatoryFormula, 0, [Catalog.Effect]);
    SubtotalReads(r, HalfMandatoryFormula, 10, 0);
    if e == AsWritten { HalfNotifiesNobody(); } else { HalfNotifiesMandatory(); }
    assert Put(r, Catalog.HalfMandatory, Calc(HalfMandatoryFormula, 5, [Catalog.Effect])) == HalfDone(e);
    UpdateStep(r, Catalog.HalfMandatory, Calc(HalfMandatoryFormula, 5, [Catalog.Effect]), Final(e), HalfEvents(e));
  }

  /** Effect's propagateChange updates the sub-total, then the half. */
  lemma EffectNotifies(e: Edition)
    ensures Propagate(Raised(e), Catalog.Effect) ==
      Ok((Final(e), [Changed(Catalog.Mandatory), Changed(Catalog.SubMandatory)] + HalfEvents(e) + [Changed(Catalog.Effect)]))
  {
    RaisedDependents(e);
    SubUpdatesMandatory(e);
    HalfUpdates(e);
    PropagateTwo(Raised(e), Catalog.Effect, Catalog.SubMandatory, Catalog.HalfMandatory,
      MandatoryEarly(e), [Changed(Catalog.Mandatory), Changed(Catalog.SubMandatory)], Final(e), HalfEvents(e));
  }

  lemma RaisedDependents(e: Edition)
    ensures Catalog.Effect in Raised(e) && Raised(e)[Catalog.Effect].Built?
    ensures Raised(e)[Catalog.Effect].field.dependents == [Catalog.SubMandatory, Catalog.HalfMandatory]
  {
  }

  /** setValue(10) on Effect runs the whole chain. */
  lemma RaiseEffect(e: Edition)
    ensures SetValue(Start(e), Catalog.Effect, 10) ==
      Ok((Final(e), [Changed(Catalog.Mandatory), Changed(Catalog.SubMandatory)] + HalfEvents(e) + [Changed(Catalog.Effect)]))
  {
    var r := Start(e);
    assert r[Catalog.Effect].field == Field("Effect", ScalarField(0), [Catalog.SubMandatory, Catalog.HalfMandatory]);
    assert ScalarDelta(0, 10) == 10;
    assert SetInt("Effect", ScalarField(0), 10, None) == Ok(Step("Effect", ScalarField(10), true));
    assert r[Catalog.Effect := Slot.Built(Field("Effect", ScalarField(10), [Catalog.SubMandatory, Catalog.HalfMandatory]))] == Raised(e);
    EffectNotifies(e);
  }

  /** At the end, Mandatory holds 2 as written and 5 corrected; it agrees
      with its sources (max(10 - 8, 5) = 5) only when corrected. */
  lemma FinalMandatory(e: Edition)
    ensures Final(e)[Catalog.Mandatory].field.kind.value == (if e == AsWritten then 2 else 5)
    ensures Final(e)[Catalog.HalfMandatory].field.kind.value == 5
    ensures Fresh(Final(e), Catalog.Mandatory) <==> e == Corrected
  {
    FinalKinds(e);
    var v := if e == AsWritten then 2 else 5;
    MandatoryReads(Final(e), 10, 5, v);
  }

  /** What each field of the mandatory chain holds at the end. */
  lemma FinalKinds(e: Edition)
    ensures IsBuilt(Final(e), Catalog.Mandatory) && IsBuilt(Final(e), Catalog.Casting)
    ensures IsBuilt(Final(e), Catalog.SubMandatory) && IsBuilt(Final(e), Catalog.HalfMandatory)
    ensures Final(e)[Catalog.Mandatory].field.kind == Calc(MandatoryFormula, if e == AsWritten then 2 else 5, MandatorySources())
    ensures Final(e)[Catalog.HalfMandatory].field.kind == Calc(HalfMandatoryFormula, 5, [Catalog.Effect])
    ensures Final(e)[Catalog.SubMandatory].field.kind == Calc(SubMandatoryFormula, 10, [Catalog.Effect])
    ensures Final(e)[Catalog.Casting].field.kind == ScalarField(8)
  {
  }

  /** Raising Effect from 0 to 10 leaves Mandatory at 10 - 8 = 2 as written,
      although the half is now 5, so Mandatory no longer agrees with its
      sources; corrected, Mandatory ends at the half, 5, and agrees. */
  lemma RaisingEffectUpdatesMandatory(e: Edition)
    ensures var res := SetValue(Start(e), Catalog.Effect, 10);
      && res.Ok?
      && res.value.0[Catalog.Mandatory].field.kind.value == (if e == AsWritten then 2 else 5)
      && res.value.0[Catalog.HalfMandatory].field.kind.value == 5
      && (Fresh(res.value.0, Catalog.Mandatory) <==> e == Corrected)
  {
    RaiseEffect(e);
    FinalMandatory(e);
  }
}
