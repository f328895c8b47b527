/**
 * The field classes of an SFX form as immutable values: the state each class
 * keeps, how setValue(int) and setValue(String) change it, and the cost and
 * reduction each class reports. A field that reads another field (a
 * follower, the unreal fraction) is given what it reads as a parameter; the
 * registry supplies it.
 */
module Fields {
  import opened Wrappers
  import opened Arith
  import opened Tables
  import Catalog

  type FieldId = Catalog.FieldId

  /* ---------------------------------------------------------------------
     Value fields: a row of a lookup table plus a multiplier table
     --------------------------------------------------------------------- */

  datatype ValueState = ValueState(index: int, table: Table, mult: Multiplier)

  /** The row exists and the multiplier index names an offset. */
  predicate ValueOk(v: ValueState) {
    !OutRange(v.table, v.index) && ValidMultiplier(v.mult)
  }

  /** A value field on `table` with a fresh multiplier of `scale`, at row 0. */
  function NewValue(table: Table, scale: Scale): ValueState {
    ValueState(0, table, NewMultiplier(scale))
  }

  /** SFXValue.getCost: the multiplier's offset plus the cost of the row. */
  function ValueCost(v: ValueState): int
    requires ValueOk(v)
  {
    GetOffset(v.mult) + v.table[v.index].cost
  }

  /** Moves to row `i` when the table has it; otherwise the field is left as
      it was and the change is not propagated. */
  function SelectRow(v: ValueState, i: int): (r: (ValueState, bool))
    ensures OutRange(v.table, i) ==> r == (v, false)
    ensures !OutRange(v.table, i) ==> r.1 && r.0 == v.(index := i)
    ensures ValueOk(v) ==> ValueOk(r.0)
  {
    if OutRange(v.table, i) then (v, false) else (v.(index := i), true)
  }

  /** SFXValue.setValue(int): the argument is a step from the current row,
      added as Java ints. */
  function ValueDelta(v: ValueState, d: int): (r: (ValueState, bool))
    ensures ValueOk(v) ==> ValueOk(r.0)
    ensures !r.1 ==> r.0 == v
    ensures IsInt32(v.index + d) ==> (r.1 <==> !OutRange(v.table, v.index + d))
    ensures IsInt32(v.index + d) && r.1 ==> r.0.index == v.index + d
  {
    SelectRow(v, Wrap32(v.index + d))
  }

  /** SFXValue.setValue(String): the first row whose value reaches the
      number; a text that is not a number is refused. */
  function ValueText(v: ValueState, s: string): (r: Result<(ValueState, bool)>)
    ensures r.Err? <==> ParseDecimal(s).None?
    ensures r.Ok? && ValueOk(v) ==> ValueOk(r.value.0)
    ensures r.Ok? && !r.value.1 ==> r.value.0 == v
  {
    match ParseDecimal(s)
    case None => Err(ParseError(s))
    case Some(q) => Ok(SelectRow(v, ClosestValue(v.table, q)))
  }

  /** On any table whose costs are its indexes, the wrapping default table
      among them, a number selects the first row whose value is at least the
      number, and is refused exactly when no row reaches it. */
  lemma ValueTextSelectsFirstReachingRow(v: ValueState, s: string, q: Ratio)
    requires Indexed(v.table) && ParseDecimal(s) == Some(q)
    ensures ValueText(v, s).Ok?
    ensures var (w, moved) := ValueText(v, s).value;
      && (moved <==> exists i :: 0 <= i < |v.table| && Reaches(v.table[i], q))
      && (!moved ==> w == v)
      && (moved ==> w == v.(index := w.index) && Reaches(v.table[w.index], q)
                    && forall j :: 0 <= j < w.index ==> !Reaches(v.table[j], q))
  {
    ClosestIsFirstReaching(v.table, q);
  }

  /* ---------------------------------------------------------------------
     Scalars and charges
     --------------------------------------------------------------------- */

  /** SFXScalar.setValue(int): add the step as Java ints, then clamp at zero. */
  function ScalarDelta(v: int, d: int): (r: int)
    ensures 0 <= r
    ensures IsInt32(v + d) && 0 <= v + d ==> r == v + d
    ensures IsInt32(v + d) && v + d < 0 ==> r == 0
  {
    var n := Wrap32(v + d);
    if n < 0 then 0 else n
  }

  /** SFXScalar.setValue(String): the parsed number replaces the value,
      clamped at zero; text that is not an int is refused. */
  function ScalarText(s: string): (r: Result<int>)
    ensures r.Err? <==> ParseInt(s).None?
    ensures r.Ok? ==> 0 <= r.value && (0 < r.value ==> Some(r.value) == ParseInt(s))
    ensures r.Ok? ==> r.value == Max(0, ParseInt(s).value)
  {
    match ParseInt(s)
    case None => Err(ParseError(s))
    case Some(n) => Ok(if n < 0 then 0 else n)
  }

  /** Writing a scalar's displayed text back sets the same value, and a
      negative number sets zero. */
  lemma ScalarTextRoundTrip(n: int)
    requires IsInt32(n)
    ensures ScalarText(IntToString(n)) == Ok(Max(0, n))
  {
    ParseIntToString(n);
  }

  /** SFXFieldCharges: round toward zero to a multiple of five, then clamp at
      zero. */
  function ChargesRound(n: int): (r: int)
    ensures 0 <= r && Rem(r, 5) == 0
    ensures 0 <= n ==> r <= n < r + 5
    ensures n < 0 ==> r == 0
  {
    var m := n - Rem(n, 5);
    if m < 0 then 0 else m
  }

  /** SFXFieldCharges.setValue(int): the step is added as Java ints, then
      the sum is rounded toward zero to a multiple of five and clamped. */
  function ChargesDelta(v: int, d: int): (r: int)
    ensures 0 <= r && Rem(r, 5) == 0
    ensures 0 <= Wrap32(v + d) ==> r <= Wrap32(v + d) < r + 5
    ensures Wrap32(v + d) < 0 ==> r == 0
    ensures IsInt32(v + d) && 0 <= v + d ==> r <= v + d < r + 5
  {
    ChargesRound(Wrap32(v + d))
  }

  /** SFXFieldCharges.setValue(String): "<number> <ward>", the number cast to
      int and rounded like a step, the ward flag read as a boolean. */
  function ChargesText(s: string): (r: Result<(int, bool)>)
    ensures r.Err? <==> |SplitSpace(s)| < 2 || ParseDecimal(SplitSpace(s)[0]).None?
    ensures r.Ok? ==> 0 <= r.value.0 && Rem(r.value.0, 5) == 0
    ensures r.Ok? ==> var n := ToInt(ParseDecimal(SplitSpace(s)[0]).value);
      && (0 <= n ==> r.value.0 <= n < r.value.0 + 5)
      && (n < 0 ==> r.value.0 == 0)
    ensures r.Ok? ==> r.value.1 == ParseBoolean(SplitSpace(s)[1])
  {
    var pieces := SplitSpace(s);
    if |pieces| == 0 then Err(Misuse)
    else match ParseDecimal(pieces[0])
      case None => Err(ParseError(pieces[0]))
      case Some(q) =>
        if |pieces| < 2 then Err(Misuse)
        else Ok((ChargesRound(ToInt(q)), ParseBoolean(pieces[1])))
  }

  /** Writing back the text "<charges> <ward>" of a charge count the field
      can hold restores both the count and the ward. */
  lemma ChargesTextRoundTrip(n: int, ward: bool)
    requires 0 <= n <= Int32Max && Rem(n, 5) == 0
    ensures ChargesText(IntToString(n) + " " + BoolText(ward)) == Ok((n, ward))
  {
    var a := IntToString(n);
    var b := BoolText(ward);
    SplitTwoWords(a, b);
    ParseDecimalOfInt(n);
  }

  /** Two points per charge, ten percent more (rounded down) with a ward. */
  function ChargesCost(v: int, ward: bool): (c: int) {
    if ward then Quot(v * 2 * 110, 100) else v * 2
  }

  /** Five charges cost ten points; a ward adds a tenth, rounded down. */
  lemma ChargesCostBounds(v: int, ward: bool)
    requires 0 <= v
    ensures !ward ==> ChargesCost(v, ward) == 2 * v
    ensures ward ==> 5 * ChargesCost(v, ward) <= 11 * v < 5 * ChargesCost(v, ward) + 5
    ensures ChargesCost(v, false) <= ChargesCost(v, true)
  {
  }

  /* ---------------------------------------------------------------------
     Fractions
     --------------------------------------------------------------------- */

  /** The proportion of a total, a default, and whether the default is
      pinned. */
  datatype Frac = Frac(f: Ratio, default: Ratio, fixed: bool)

  /** A new fraction: one half, default one half, not pinned. */
  const NewFrac: Frac := Frac(Ratio(1, 2), Ratio(1, 2), false)

  /** SFXFraction.getCost(int): `f * total + 0.5` cast to int. */
  function Part(f: Ratio, total: int): int {
    ToInt(Ratio(2 * f.num * total + f.den, 2 * f.den))
  }

  /** For a proportion between 0 and 1 and a non-negative total, the part is
      `f * total` rounded to the nearest int (halves up), and both the part
      and the rest lie between 0 and the total. */
  lemma PartSplitsTotal(f: Ratio, total: int)
    requires 0 <= f.num <= f.den
    requires 0 <= total <= Int32Max
    ensures 2 * f.den * Part(f, total) <= 2 * f.num * total + f.den < 2 * f.den * (Part(f, total) + 1)
    ensures 0 <= Part(f, total) <= total
    ensures 0 <= total - Part(f, total) <= total
  {
    var n := f.num * total;
    var m := f.den * total;
    MulMono(0, f.num, total);
    MulMono(f.num, f.den, total);
    assert 0 <= n <= m;
    var a := 2 * n + f.den;
    var b: Pos := 2 * f.den;
    assert a == 2 * f.num * total + f.den;
    assert b * (total + 1) == 2 * m + 2 * f.den;
    QuotBelow(a, b, total);
    assert Part(f, total) == ToInt(Ratio(a, b)) == Quot(a, b);
  }

  /** The quotient of a non-negative number below `b * (t + 1)` lies
      between 0 and t. */
  lemma QuotBelow(a: int, b: Pos, t: int)
    requires 0 <= a < b * (t + 1) && 0 <= t
    ensures 0 <= Quot(a, b) <= t
    ensures b * Quot(a, b) <= a < b * (Quot(a, b) + 1)
  {
    var q := Quot(a, b);
    assert 0 <= a - b * q < b;
    if q < 0 {
      MulMono(q, -1, b);
      assert false;
    }
    if t < q {
      MulMono(t + 1, q, b);
      assert false;
    }
  }

  lemma MulMono(x: int, y: int, c: int)
    requires x <= y && 0 <= c
    ensures x * c <= y * c
  {
    assert y * c - x * c == (y - x) * c;
  }

  /** At one half the part is the larger half: (total + 1) / 2. */
  lemma HalfPartRoundsUp(total: int)
    requires 0 <= total <= Int32Max
    ensures Part(Ratio(1, 2), total) == (total + 1) / 2
  {
    PartSplitsTotal(Ratio(1, 2), total);
  }

  /** SFXFraction.setValue(String): DEFAULT pins the default, FRACTION
      unpins, anything else is a number that replaces the proportion unless
      the default is pinned. */
  function FracText(fr: Frac, s: string): (r: Result<Frac>)
    ensures r.Ok? ==> r.value.default == fr.default
    ensures r.Ok? && r.value.fixed ==> r.value.f == fr.default || r.value.f == fr.f
    ensures StartsWith(s, "DEFAULT") ==> r == Ok(Frac(fr.default, fr.default, true))
    ensures !StartsWith(s, "DEFAULT") && StartsWith(s, "FRACTION") ==> r == Ok(fr.(fixed := false))
    ensures !StartsWith(s, "DEFAULT") && !StartsWith(s, "FRACTION") ==> (r.Err? <==> ParseDecimal(s).None?)
    ensures !StartsWith(s, "DEFAULT") && !StartsWith(s, "FRACTION") && ParseDecimal(s).Some? ==>
      r == Ok(fr.(f := if fr.fixed then fr.default else ParseDecimal(s).value))
  {
    if StartsWith(s, "DEFAULT") then Ok(fr.(fixed := true, f := fr.default))
    else if StartsWith(s, "FRACTION") then Ok(fr.(fixed := false))
    else match ParseDecimal(s)
      case None => Err(ParseError(s))
      case Some(q) => Ok(fr.(f := if fr.fixed then fr.default else q))
  }

  /** Typing a whole number n sets an unpinned proportion to n and leaves a
      pinned one on its default. */
  lemma FracTextTakesNumber(fr: Frac, n: int)
    ensures FracText(fr, IntToString(n)) == Ok(fr.(f := if fr.fixed then fr.default else Ratio(n, 1)))
  {
    var s := IntToString(n);
    ParseDecimalOfInt(n);
    IntTextHead(n);
  }

  /** Applies text commands in turn, stopping at the first refused one. */
  function FracTexts(fr: Frac, ss: seq<string>): Result<Frac>
    decreases |ss|
  {
    if |ss| == 0 then Ok(fr)
    else match FracText(fr, ss[0])
      case Err(e) => Err(e)
      case Ok(next) => FracTexts(next, ss[1..])
  }

  /** Once DEFAULT is given, numbers no longer move the proportion off the
      default until FRACTION is given. */
  lemma {:induction false} DefaultPinsProportion(fr: Frac, ss: seq<string>)
    requires fr.fixed && fr.f == fr.default
    requires forall i :: 0 <= i < |ss| ==> !StartsWith(ss[i], "FRACTION")
    ensures FracTexts(fr, ss).Ok? ==> FracTexts(fr, ss).value.f == fr.default && FracTexts(fr, ss).value.fixed
    decreases |ss|
  {
    if |ss| > 0 {
      match FracText(fr, ss[0])
      case Err(_) =>
      case Ok(next) =>
        assert next.fixed && next.f == fr.default && next.default == fr.default;
        DefaultPinsProportion(next, ss[1..]);
    }
  }

  /** SFXFractionUnreal.getCost: the disbelief percentage of the effect's
      cost, rounded up. */
  function UnrealCost(effect: int, disbelief: int): int {
    Quot(effect * disbelief + 99, 100)
  }

  /** For a percentage between 0 and 100 the unreal cost is the least whole
      number of points covering that share of the effect, never more than the
      effect. */
  lemma UnrealCostRoundsUp(effect: int, disbelief: int)
    requires 0 <= effect && 0 <= disbelief <= 100
    ensures 100 * (UnrealCost(effect, disbelief) - 1) < effect * disbelief <= 100 * UnrealCost(effect, disbelief)
    ensures 0 <= UnrealCost(effect, disbelief) <= effect
  {
    var p := effect * disbelief;
    assert 0 <= p <= effect * 100;
    assert Quot(p + 99, 100) == (p + 99) / 100;
  }

  /* ---------------------------------------------------------------------
     The field classes
     --------------------------------------------------------------------- */

  /** How a calculated field recomputes its value from its sources. */
  datatype Formula =
    | SubMandatoryFormula    // sum of the sources' costs
    | HalfMandatoryFormula   // half of that sum, as Java int division
    | MandatoryFormula       // max(first - second, third)
    | OptionalFormula        // sum of the sources' costs

  /** Which SFXDouble a double field is. */
  datatype DoubleRule =
    | OthersRule                    // a plain SFXDouble: both ledgers typed in
    | ModifiersRule(limited: bool)  // SFXFieldModifiers and its over-limit flag
    | TotalRule                     // SFXFieldTotal

  /** Which SFXValueModifier a modifier field is, with its extra state. */
  datatype ModifierRule =
    | PlainModifier                                                // SFXValueModifier, e.g. related skill
    | ConcentrationField                                           // a third of the value cost
    | IncantationField(foreign: bool, loud: bool, profane: bool)   // one more point per flag
    | CommunityField(initial: bool)                                // table cost times offset, halved
    | ComponentField(initial: bool, destroyed: bool)               // row plus multiplier index, doubled if destroyed
    | GestureField(initial: bool)                                  // row plus multiplier index

  /** Which SFXComposite a composite field is. */
  datatype CompositeRule =
    | PlainComposite
    | CommunityComposite
    | GesturesComposite
    | ComponentsComposite(limited: bool, sources: seq<FieldId>)

  datatype Kind =
    | BaseField                                                    // SFXBase: a title only
    | ScalarField(value: int)                                      // SFXScalar
    | ChargesField(value: int, ward: bool)                         // SFXFieldCharges
    | CalculatedField(formula: Formula, value: int, sources: seq<FieldId>)
    | DoubleField(double: DoubleRule, value: int, dn: int, fv: int, sources: seq<FieldId>)
    | FractionField(frac: Frac)                                    // SFXFraction
    | UnrealField(frac: Frac, disbelief: int, effect: Option<FieldId>)
    | ValueField(v: ValueState)                                    // SFXValue
    | ModifierField(modifier: ModifierRule, v: ValueState, reduce: bool)
    | FollowsField(v: ValueState, follows: Option<FieldId>, tracking: bool)
    | CompositeField(composite: CompositeRule, children: seq<Child>)
    | OpaqueField(cls: string, value: int, sources: seq<FieldId>) // a class outside the model

  /** A field held inside a composite rather than under a name. */
  datatype Child = Child(title: string, kind: Kind)

  /** The fields a kind reads or recomputes from, in order. */
  function Refs(k: Kind): seq<FieldId> {
    match k
    case CalculatedField(_, _, src) => src
    case DoubleField(_, _, _, _, src) => src
    case OpaqueField(_, _, src) => src
    case CompositeField(ComponentsComposite(_, src), _) => src
    case FollowsField(_, Some(y), _) => [y]
    case UnrealField(_, _, Some(y)) => [y]
    case _ => []
  }

  /** Same class with the same references: only values differ. */
  predicate SameWiring(a: Kind, b: Kind) {
    && Refs(a) == Refs(b)
    && a.BaseField? == b.BaseField? && a.ScalarField? == b.ScalarField? && a.ChargesField? == b.ChargesField?
    && a.CalculatedField? == b.CalculatedField? && a.DoubleField? == b.DoubleField?
    && a.FractionField? == b.FractionField? && a.UnrealField? == b.UnrealField?
    && a.ValueField? == b.ValueField? && a.ModifierField? == b.ModifierField?
    && a.FollowsField? == b.FollowsField? && a.CompositeField? == b.CompositeField?
    && a.OpaqueField? == b.OpaqueField?
    && (a.CalculatedField? ==> a.formula == b.formula)
    && (a.DoubleField? ==> a.double.ModifiersRule? == b.double.ModifiersRule? && a.double.TotalRule? == b.double.TotalRule?)
    && (a.FollowsField? ==> a.follows == b.follows)
    && (a.UnrealField? ==> a.effect == b.effect)
    && (a.CompositeField? ==> a.composite.ComponentsComposite? == b.composite.ComponentsComposite?
                              && a.composite.CommunityComposite? == b.composite.CommunityComposite?
                              && a.composite.GesturesComposite? == b.composite.GesturesComposite?)
  }

  /** A kind that reads no other field and holds no children. */
  predicate Leaf(k: Kind) {
    !k.CompositeField? && !k.FollowsField? && !k.UnrealField?
  }

  /** A leaf whose table row and multiplier index are in range. */
  predicate LeafOk(k: Kind) {
    && Leaf(k)
    && (k.ValueField? ==> ValueOk(k.v))
    && (k.ModifierField? ==> ValueOk(k.v))
  }

  /** Every table row and multiplier index in the field is in range, and a
      composite holds only leaves. */
  predicate KindOk(k: Kind) {
    match k
    case ValueField(v) => ValueOk(v)
    case ModifierField(_, v, _) => ValueOk(v)
    case FollowsField(v, _, _) => ValueOk(v)
    case CompositeField(_, cs) => forall i :: 0 <= i < |cs| ==> LeafOk(cs[i].kind)
    case _ => true
  }

  /** m_iValue of an SFXScalar (the value or the table row), which a
      follower copies; other classes have none. */
  function IntValue(k: Kind): Option<int> {
    match k
    case ScalarField(v) => Some(v)
    case ChargesField(v, _) => Some(v)
    case CalculatedField(_, v, _) => Some(v)
    case DoubleField(_, v, _, _, _) => Some(v)
    case ValueField(v) => Some(v.index)
    case ModifierField(_, v, _) => Some(v.index)
    case FollowsField(v, _, _) => Some(v.index)
    case _ => None
  }

  /* ---------------------------------------------------------------------
     Value modifiers: a DN ledger and an FV reduction ledger
     --------------------------------------------------------------------- */

  /** SFXFieldCommunity, SFXFieldComponent and SFXFieldGesture: the classes
      a composite's reduction action accepts. */
  predicate CommunityClass(rule: ModifierRule) {
    rule.CommunityField? || rule.ComponentField? || rule.GestureField?
  }

  /** The amount a modifier contributes, whichever ledger it goes to. */
  function Combined(rule: ModifierRule, v: ValueState): int
    requires ValueOk(v)
  {
    match rule
    case PlainModifier => ValueCost(v)
    case ConcentrationField => Quot(ValueCost(v), 3)
    case IncantationField(f, l, p) =>
      var c := ValueCost(v);
      if c == 0 then 0 else c + (if f then 1 else 0) + (if l then 1 else 0) + (if p then 1 else 0)
    case CommunityField(_) => Quot(v.table[v.index].cost * GetOffset(v.mult), 2)
    case ComponentField(_, destroyed) => if destroyed then 2 * (v.index + v.mult.index) else v.index + v.mult.index
    case GestureField(_) => v.index + v.mult.index
  }

  /** getCost of SFXValueModifier and its subclasses, class by class. */
  function ModifierCost(rule: ModifierRule, v: ValueState, reduce: bool): int
    requires ValueOk(v)
  {
    match rule
    case PlainModifier => if reduce then ValueCost(v) else 0
    case ConcentrationField => if reduce then Quot(ValueCost(v), 3) else 0
    case IncantationField(f, l, p) =>
      if !reduce then 0
      else
        var c := ValueCost(v);  // getCost() + getReduction() of the superclass
        if c == 0 then 0 else c + (if f then 1 else 0) + (if l then 1 else 0) + (if p then 1 else 0)
    case CommunityField(_) => if !reduce then 0 else Quot(v.table[v.index].cost * GetOffset(v.mult), 2)
    case ComponentField(_, destroyed) =>
      if !reduce then 0 else if destroyed then (v.index + v.mult.index) * 2 else v.index + v.mult.index
    case GestureField(_) => if !reduce then 0 else v.index + v.mult.index
  }

  /** getReduction of SFXValueModifier and its subclasses, class by class. */
  function ModifierReduction(rule: ModifierRule, v: ValueState, reduce: bool): int
    requires ValueOk(v)
  {
    match rule
    case PlainModifier => if !reduce then ValueCost(v) else 0
    case ConcentrationField => if !reduce then Quot(ValueCost(v), 3) else 0
    case IncantationField(f, l, p) =>
      if reduce then 0
      else
        var c := ValueCost(v);  // getCost() + getReduction() of the superclass
        if c == 0 then 0 else c + (if f then 1 else 0) + (if l then 1 else 0) + (if p then 1 else 0)
    case CommunityField(_) => if reduce then 0 else Quot(v.table[v.index].cost * GetOffset(v.mult), 2)
    case ComponentField(_, destroyed) =>
      if reduce then 0 else if destroyed then (v.index + v.mult.index) * 2 else v.index + v.mult.index
    case GestureField(_) => if reduce then 0 else v.index + v.mult.index
  }

  /** The two ledgers split the modifier's amount: the apply flag sends all
      of it to the DN cost or all of it to the FV reduction, never both. */
  lemma LedgersSplitCombined(rule: ModifierRule, v: ValueState, reduce: bool)
    requires ValueOk(v)
    ensures ModifierCost(rule, v, reduce) + ModifierReduction(rule, v, reduce) == Combined(rule, v)
    ensures reduce ==> ModifierReduction(rule, v, reduce) == 0
    ensures !reduce ==> ModifierCost(rule, v, reduce) == 0
  {
  }

  /** The modifier text commands every SFXValueModifier accepts ahead of a
      number: DN applies the amount to the cost, FV to the reduction. */
  function ApplicationText(v: ValueState, reduce: bool, s: string): (r: Result<(ValueState, bool, bool)>)
    ensures StartsWith(s, "DN") ==> r == Ok((v, true, true))
    ensures !StartsWith(s, "DN") && StartsWith(s, "FV") ==> r == Ok((v, false, true))
    ensures r.Ok? && !r.value.2 ==> r.value.0 == v && r.value.1 == reduce
    ensures r.Ok? && ValueOk(v) ==> ValueOk(r.value.0)
  {
    if StartsWith(s, "DN") then Ok((v, true, true))
    else if StartsWith(s, "FV") then Ok((v, false, true))
    else match ValueText(v, s)
      case Err(e) => Err(e)
      case Ok((w, moved)) => Ok((w, reduce, moved))
  }

  /* ---------------------------------------------------------------------
     setValue(int), setValue(String) and getCost for every class
     --------------------------------------------------------------------- */

  /** The field after a setValue, and whether the change is propagated. */
  datatype Step = Step(title: string, kind: Kind, propagates: bool)

  /** The result of a setValue that did not propagate leaves the field as it
      was; every result keeps the class and the references. */
  predicate StepKeeps(title: string, k: Kind, r: Result<Step>) {
    r.Ok? ==> && SameWiring(k, r.value.kind)
              && (KindOk(k) ==> KindOk(r.value.kind))
              && (!r.value.propagates ==> r.value.title == title && NoValueChange(k, r.value.kind))
  }

  /** Equal, except perhaps a follower's tracking flag, which ENABLE and
      DISABLE set even when the row they select is refused. */
  predicate NoValueChange(a: Kind, b: Kind) {
    a == b || (a.FollowsField? && b.FollowsField? && b == FollowsField(a.v, a.follows, b.tracking))
  }

  /** The follower's setValue(int): while tracking, the row of the followed
      field; otherwise a step from the current row. */
  function FollowsDelta(v: ValueState, tracking: bool, d: int, tracked: Option<int>): (r: Result<(ValueState, bool)>)
    ensures r.Err? <==> tracking && tracked.None?
    ensures r.Ok? && ValueOk(v) ==> ValueOk(r.value.0)
    ensures r.Ok? && !r.value.1 ==> r.value.0 == v
    ensures r.Ok? && tracking && r.value.1 ==> r.value.0.index == tracked.value
  {
    if tracking then
      match tracked
      case None => Err(Misuse)
      case Some(t) => Ok(SelectRow(v, t))
    else Ok(ValueDelta(v, d))
  }

  /** setValue(int) of every class. `tracked` is the row of the field a
      follower follows. */
  function SetInt(title: string, k: Kind, d: int, tracked: Option<int>): (r: Result<Step>)
    ensures StepKeeps(title, k, r)
    ensures r.Ok? ==> r.value.title == title
    ensures r.Err? ==> k.OpaqueField? || (k.FollowsField? && k.tracking && tracked.None?)
  {
    match k
    case BaseField => Ok(Step(title, k, true))
    case ScalarField(v) => Ok(Step(title, ScalarField(ScalarDelta(v, d)), true))
    case ChargesField(v, w) => Ok(Step(title, ChargesField(ChargesDelta(v, d), w), true))
    case CalculatedField(f, _, src) => Ok(Step(title, CalculatedField(f, d, src), true))
    case DoubleField(rule, _, dn, fv, src) => Ok(Step(title, DoubleField(rule, d, dn, fv, src), true))
    case FractionField(_) => Ok(Step(title, k, true))
    case UnrealField(_, _, _) => Ok(Step(title, k, true))
    case ValueField(v) =>
      var (w, moved) := ValueDelta(v, d);
      Ok(Step(title, ValueField(w), moved))
    case ModifierField(rule, v, reduce) =>
      var (w, moved) := if CommunityClass(rule) then SelectRow(v, d) else ValueDelta(v, d);
      Ok(Step(title, ModifierField(rule, w, reduce), moved))
    case FollowsField(v, f, tracking) =>
      (match FollowsDelta(v, tracking, d, tracked)
       case Err(e) => Err(e)
       case Ok((w, moved)) => Ok(Step(title, FollowsField(w, f, tracking), moved)))
    case CompositeField(_, _) => Ok(Step(title, k, true))
    case OpaqueField(_, _, _) => Err(NotModelled)
  }

  /** setValue(String) of a modifier: first the class's own flags, then DN or
      FV, then a number. */
  function ModifierText(rule: ModifierRule, v: ValueState, reduce: bool, s: string): (r: Result<(ModifierRule, ValueState, bool, bool)>)
    ensures r.Ok? ==> CommunityClass(r.value.0) == CommunityClass(rule)
    ensures r.Ok? && ValueOk(v) ==> ValueOk(r.value.1)
    ensures r.Ok? && !r.value.3 ==> r.value.0 == rule && r.value.1 == v && r.value.2 == reduce
  {
    match rule
    case ComponentField(initial, destroyed) =>
      if StartsWith(s, "DESTROY") then Ok((ComponentField(initial, true), v, reduce, true))
      else if StartsWith(s, "PRESERVE") then Ok((ComponentField(initial, false), v, reduce, true))
      else Applied(rule, ApplicationText(v, reduce, s))
    case IncantationField(f, l, p) =>
      if StartsWith(s, "FOREIGN") then Ok((IncantationField(true, l, p), v, reduce, true))
      else if StartsWith(s, "NATIVE") then Ok((IncantationField(false, l, p), v, reduce, true))
      else if StartsWith(s, "LOUD") then Ok((IncantationField(f, true, p), v, reduce, true))
      else if StartsWith(s, "SOFT") then Ok((IncantationField(f, false, p), v, reduce, true))
      else if StartsWith(s, "PROFANE") then Ok((IncantationField(f, l, true), v, reduce, true))
      else if StartsWith(s, "POLITE") then Ok((IncantationField(f, l, false), v, reduce, true))
      else Applied(rule, ApplicationText(v, reduce, s))
    case _ => Applied(rule, ApplicationText(v, reduce, s))
  }

  function Applied(rule: ModifierRule, r: Result<(ValueState, bool, bool)>): Result<(ModifierRule, ValueState, bool, bool)> {
    match r
    case Err(e) => Err(e)
    case Ok((w, reduce, moved)) => Ok((rule, w, reduce, moved))
  }

  /** setValue(String) of a double: "DN n" or "FV n" replaces one ledger;
      any other text only propagates. */
  function DoubleText(dn: int, fv: int, s: string): (r: Result<(int, int)>)
    ensures !StartsWith(s, "DN") && !StartsWith(s, "FV") ==> r == Ok((dn, fv))
    ensures r.Ok? && StartsWith(s, "DN") ==> r.value.1 == fv
    ensures r.Ok? && StartsWith(s, "FV") ==> r.value.0 == dn
  {
    if StartsWith(s, "DN") then
      match Suffix(s, 3)
      case None => Err(Misuse)
      case Some(t) =>
        (match ParseInt(t) case None => Err(ParseError(t)) case Some(n) => Ok((n, fv)))
    else if StartsWith(s, "FV") then
      match Suffix(s, 3)
      case None => Err(Misuse)
      case Some(t) =>
        (match ParseInt(t) case None => Err(ParseError(t)) case Some(n) => Ok((dn, n)))
    else Ok((dn, fv))
  }

  /** Typing "DN n" or "FV n" sets that ledger to n and keeps the other. */
  lemma DoubleTextSetsLedger(dn: int, fv: int, n: int)
    requires IsInt32(n)
    ensures DoubleText(dn, fv, "DN " + IntToString(n)) == Ok((n, fv))
    ensures DoubleText(dn, fv, "FV " + IntToString(n)) == Ok((dn, n))
  {
    ParseIntToString(n);
    var t := IntToString(n);
    assert ("DN " + t)[..2] == "DN" && ("DN " + t)[3..] == t;
    assert ("FV " + t)[..2] == "FV" && ("FV " + t)[3..] == t;
  }

  /** setValue(String) of the scalar classes: a number replaces the value
      (a calculated field inherits this from SFXScalar); a double reads DN
      and FV commands. */
  function ScalarsText(title: string, k: Kind, s: string): (r: Result<Step>)
    requires k.ScalarField? || k.ChargesField? || k.CalculatedField? || k.DoubleField?
    ensures StepKeeps(title, k, r)
    ensures r.Ok? ==> r.value.title == title && r.value.propagates
  {
    match k
    case ScalarField(_) =>
      (match ScalarText(s) case Err(e) => Err(e) case Ok(n) => Ok(Step(title, ScalarField(n), true)))
    case ChargesField(_, _) =>
      (match ChargesText(s) case Err(e) => Err(e) case Ok((n, w)) => Ok(Step(title, ChargesField(n, w), true)))
    case CalculatedField(f, _, src) =>
      (match ScalarText(s) case Err(e) => Err(e) case Ok(n) => Ok(Step(title, CalculatedField(f, n, src), true)))
    case DoubleField(rule, v, dn, fv, src) =>
      (match DoubleText(dn, fv, s)
       case Err(e) => Err(e)
       case Ok((a, b)) => Ok(Step(title, DoubleField(rule, v, a, b, src), true)))
  }

  /** setValue(String) of the fraction classes; the unreal fraction also
      reads "LEVEL n" as its disbelief percentage. */
  function FractionsText(title: string, k: Kind, s: string): (r: Result<Step>)
    requires k.FractionField? || k.UnrealField?
    ensures StepKeeps(title, k, r)
    ensures r.Ok? ==> r.value.title == title && r.value.propagates
  {
    match k
    case FractionField(fr) =>
      (match FracText(fr, s) case Err(e) => Err(e) case Ok(g) => Ok(Step(title, FractionField(g), true)))
    case UnrealField(fr, disbelief, effect) =>
      if StartsWith(s, "LEVEL") then
        match Suffix(s, 6)
        case None => Err(Misuse)
        case Some(t) =>
          (match ParseInt(t)
           case None => Err(ParseError(t))
           case Some(n) => Ok(Step(title, UnrealField(fr, n, effect), true)))
      else
        (match FracText(fr, s)
         case Err(e) => Err(e)
         case Ok(g) => Ok(Step(title, UnrealField(g, disbelief, effect), true)))
  }

  /** setValue(String) of the table-backed classes. A follower reads ENABLE
      and DISABLE, which set its tracking flag and then re-select its row
      through setValue(0). */
  function ValuesText(title: string, k: Kind, s: string, tracked: Option<int>): (r: Result<Step>)
    requires k.ValueField? || k.ModifierField? || k.FollowsField?
    ensures StepKeeps(title, k, r)
    ensures r.Ok? ==> r.value.title == title
  {
    match k
    case ValueField(v) =>
      (match ValueText(v, s) case Err(e) => Err(e) case Ok((w, moved)) => Ok(Step(title, ValueField(w), moved)))
    case ModifierField(rule, v, reduce) =>
      (match ModifierText(rule, v, reduce, s)
       case Err(e) => Err(e)
       case Ok((rule', w, reduce', moved)) => Ok(Step(title, ModifierField(rule', w, reduce'), moved)))
    case FollowsField(v, f, tracking) =>
      if StartsWith(s, "ENABLE") || StartsWith(s, "DISABLE") then
        var on := StartsWith(s, "ENABLE");
        (match FollowsDelta(v, on, 0, tracked)
         case Err(e) => Err(e)
         case Ok((w, moved)) => Ok(Step(title, FollowsField(w, f, on), moved)))
      else
        (match ValueText(v, s)
         case Err(e) => Err(e)
         case Ok((w, moved)) => Ok(Step(title, FollowsField(w, f, tracking), moved)))
  }

  /** setValue(String) of every class: SFXBase and SFXComposite take the
      text as their label. `tracked` is the row of the field a follower
      follows. */
  function SetText(title: string, k: Kind, s: string, tracked: Option<int>): (r: Result<Step>)
    ensures StepKeeps(title, k, r)
    ensures r.Ok? && !k.BaseField? && !k.CompositeField? ==> r.value.title == title
    ensures r.Ok? && (k.BaseField? || k.CompositeField?) ==> r.value == Step(s, k, true)
  {
    match k
    case BaseField => Ok(Step(s, k, true))
    case CompositeField(_, _) => Ok(Step(s, k, true))
    case OpaqueField(_, _, _) => Err(NotModelled)
    case ScalarField(_) => ScalarsText(title, k, s)
    case ChargesField(_, _) => ScalarsText(title, k, s)
    case CalculatedField(_, _, _) => ScalarsText(title, k, s)
    case DoubleField(_, _, _, _, _) => ScalarsText(title, k, s)
    case FractionField(_) => FractionsText(title, k, s)
    case UnrealField(_, _, _) => FractionsText(title, k, s)
    case ValueField(_) => ValuesText(title, k, s, tracked)
    case ModifierField(_, _, _) => ValuesText(title, k, s, tracked)
    case FollowsField(_, _, _) => ValuesText(title, k, s, tracked)
  }

  /** setMultiplierIndex of a value field: the index moves only when the
      multiplier has it, and the change is propagated either way. */
  function SetMultiplierIndex(k: Kind, m: int): (r: Result<Kind>)
    ensures r.Ok? <==> k.ValueField? || k.ModifierField? || k.FollowsField?
    ensures r.Ok? ==> SameWiring(k, r.value) && (KindOk(k) ==> KindOk(r.value))
    ensures r.Ok? ==> r.value.v.index == k.v.index && r.value.v.mult == SetIndex(k.v.mult, m)
  {
    match k
    case ValueField(v) => Ok(ValueField(v.(mult := SetIndex(v.mult, m))))
    case ModifierField(rule, v, reduce) => Ok(ModifierField(rule, v.(mult := SetIndex(v.mult, m)), reduce))
    case FollowsField(v, f, t) => Ok(FollowsField(v.(mult := SetIndex(v.mult, m)), f, t))
    case _ => Err(Misuse)
  }

  /** getCost of a leaf. */
  function LeafCost(k: Kind): int
    requires LeafOk(k)
  {
    match k
    case BaseField => 0
    case ScalarField(v) => v
    case ChargesField(v, w) => ChargesCost(v, w)
    case CalculatedField(_, v, _) => v
    case DoubleField(_, _, dn, fv, _) => dn + fv
    case FractionField(_) => 0
    case ValueField(v) => ValueCost(v)
    case ModifierField(rule, v, reduce) => ModifierCost(rule, v, reduce)
    case OpaqueField(_, v, _) => v
  }

  /** SFXComposite.getCost: the sum of the children's costs. */
  function ChildrenCost(cs: seq<Child>): int
    requires forall i :: 0 <= i < |cs| ==> LeafOk(cs[i].kind)
  {
    if |cs| == 0 then 0 else ChildrenCost(cs[..|cs| - 1]) + LeafCost(cs[|cs| - 1].kind)
  }

  /** getCost of every class; `ref` is the cost of the field a follower
      follows or the unreal fraction's effect. */
  function Cost(k: Kind, ref: int): int
    requires KindOk(k)
  {
    match k
    case UnrealField(_, disbelief, _) => UnrealCost(ref, disbelief)
    case FollowsField(v, _, tracking) => if tracking then ValueCost(v) - ref else ValueCost(v)
    case CompositeField(_, cs) => ChildrenCost(cs)
    case _ => LeafCost(k)
  }

  /** SFXCompositeActionReduction: the summed reductions of the children;
      the cast of a child that is not of a community class fails the whole
      action. */
  function ChildrenReduction(cs: seq<Child>): (r: Option<int>)
    requires forall i :: 0 <= i < |cs| ==> LeafOk(cs[i].kind)
    ensures r.Some? <==> AllCommunityClass(cs)
  {
    if AllCommunityClass(cs) then Some(ReductionSum(cs)) else None
  }

  /** The children's reductions added up in order. */
  function ReductionSum(cs: seq<Child>): int
    requires forall i :: 0 <= i < |cs| ==> LeafOk(cs[i].kind)
    requires AllCommunityClass(cs)
  {
    if |cs| == 0 then 0 else ReductionSum(cs[..|cs| - 1]) + ChildReduction(cs[|cs| - 1])
  }

  /** A child the reduction action can cast to SFXFieldCommunity. */
  predicate CommunityChild(c: Child) {
    c.kind.ModifierField? && CommunityClass(c.kind.modifier)
  }

  predicate AllCommunityClass(cs: seq<Child>) {
    forall i :: 0 <= i < |cs| ==> CommunityChild(cs[i])
  }

  /** The reduction a community-class child contributes. */
  function ChildReduction(c: Child): int
    requires LeafOk(c.kind) && CommunityChild(c)
  {
    ModifierReduction(c.kind.modifier, c.kind.v, c.kind.reduce)
  }

  /** Appending a community-class child adds its reduction to the sum. */
  lemma ChildrenReductionAppend(cs: seq<Child>, c: Child)
    requires forall i :: 0 <= i < |cs| ==> LeafOk(cs[i].kind)
    requires LeafOk(c.kind) && CommunityChild(c) && AllCommunityClass(cs)
    ensures ChildrenReduction(cs + [c]) == Some(ChildrenReduction(cs).value + ChildReduction(c))
  {
    var s := cs + [c];
    CommunityLeavesJoin(cs, [c]);
    assert s[..|s| - 1] == cs;
  }

  /** The reduction of two runs of community-class children is the sum of
      their reductions, so the action's total is the sum over the children
      whatever their grouping. */
  lemma ChildrenReductionConcat(a: seq<Child>, b: seq<Child>)
    requires forall i :: 0 <= i < |a| ==> LeafOk(a[i].kind)
    requires forall i :: 0 <= i < |b| ==> LeafOk(b[i].kind)
    requires AllCommunityClass(a) && AllCommunityClass(b)
    ensures forall i :: 0 <= i < |a + b| ==> LeafOk((a + b)[i].kind)
    ensures ChildrenReduction(a + b).Some?
    ensures ChildrenReduction(a + b).value == ChildrenReduction(a).value + ChildrenReduction(b).value
  {
    CommunityLeavesJoin(a, b);
    ReductionSumConcat(a, b);
  }

  /** The sum over two runs, by induction on the second. */
  lemma {:induction false} ReductionSumConcat(a: seq<Child>, b: seq<Child>)
    requires forall i :: 0 <= i < |a + b| ==> LeafOk((a + b)[i].kind)
    requires forall i :: 0 <= i < |a| ==> LeafOk(a[i].kind)
    requires forall i :: 0 <= i < |b| ==> LeafOk(b[i].kind)
    requires AllCommunityClass(a) && AllCommunityClass(b) && AllCommunityClass(a + b)
    ensures ReductionSum(a + b) == ReductionSum(a) + ReductionSum(b)
    decreases |b|
  {
    if |b| == 0 {
      assert a + b == a;
    } else {
      var init := b[..|b| - 1];
      CommunityLeavesSplit(b, |b| - 1);
      assert (a + b)[..|a + b| - 1] == a + init;
      CommunityLeavesSplit(a + b, |a + b| - 1);
      ReductionSumConcat(a, init);
    }
  }

  lemma CommunityLeavesSplit(b: seq<Child>, k: nat)
    requires k < |b|
    requires forall i :: 0 <= i < |b| ==> LeafOk(b[i].kind)
    requires AllCommunityClass(b)
    ensures forall i :: 0 <= i < k ==> LeafOk(b[..k][i].kind)
    ensures AllCommunityClass(b[..k]) && LeafOk(b[k].kind) && CommunityChild(b[k])
  {
  }

  lemma CommunityLeavesJoin(a: seq<Child>, b: seq<Child>)
    requires forall i :: 0 <= i < |a| ==> LeafOk(a[i].kind)
    requires forall i :: 0 <= i < |b| ==> LeafOk(b[i].kind)
    requires AllCommunityClass(a) && AllCommunityClass(b)
    ensures forall i :: 0 <= i < |a + b| ==> LeafOk((a + b)[i].kind)
    ensures AllCommunityClass(a + b)
  {
    forall i | 0 <= i < |a + b|
      ensures LeafOk((a + b)[i].kind) && CommunityChild((a + b)[i])
    {
      if i < |a| { assert (a + b)[i] == a[i]; } else { assert (a + b)[i] == b[i - |a|]; }
    }
  }

  /** Appending a child adds its cost to the composite's cost. */
  lemma ChildrenCostAppend(cs: seq<Child>, c: Child)
    requires forall i :: 0 <= i < |cs| ==> LeafOk(cs[i].kind)
    requires LeafOk(c.kind)
    ensures ChildrenCost(cs + [c]) == ChildrenCost(cs) + LeafCost(c.kind)
  {
    assert (cs + [c])[..|cs|] == cs;
  }

  /** Removing the child at `i` takes its cost off the composite's cost. */
  lemma {:induction false} ChildrenCostRemove(cs: seq<Child>, i: nat)
    requires i < |cs|
    requires forall j :: 0 <= j < |cs| ==> LeafOk(cs[j].kind)
    ensures ChildrenCost(cs[..i] + cs[i + 1..]) == ChildrenCost(cs) - LeafCost(cs[i].kind)
    decreases |cs|
  {
    var n := |cs| - 1;
    var init := cs[..n];
    if i == n {
      assert cs[..i] + cs[i + 1..] == init;
    } else {
      ChildrenCostRemove(init, i);
      var rest := init[..i] + init[i + 1..];
      RemoveBeforeLast(cs, i);
      ChildrenCostAppend(rest, cs[n]);
    }
  }

  lemma RemoveBeforeLast(cs: seq<Child>, i: nat)
    requires i < |cs| - 1
    ensures var init := cs[..|cs| - 1];
      && init[i] == cs[i]
      && cs[..i] + cs[i + 1..] == (init[..i] + init[i + 1..]) + [cs[|cs| - 1]]
  {
    var init := cs[..|cs| - 1];
    assert init[..i] == cs[..i];
    assert init[i + 1..] + [cs[|cs| - 1]] == cs[i + 1..];
  }

  /** Replacing the child at `i` swaps its cost for the new child's. */
  lemma {:induction false} ChildrenCostReplace(cs: seq<Child>, i: nat, c: Child)
    requires i < |cs|
    requires forall j :: 0 <= j < |cs| ==> LeafOk(cs[j].kind)
    requires LeafOk(c.kind)
    ensures ChildrenCost(cs[i := c]) == ChildrenCost(cs) - LeafCost(cs[i].kind) + LeafCost(c.kind)
    decreases |cs|
  {
    var n := |cs| - 1;
    var cs2 := cs[i := c];
    assert cs2[..n] == if i == n then cs[..n] else cs[..n][i := c];
    if i < n {
      ChildrenCostReplace(cs[..n], i, c);
    }
  }

  /* ---------------------------------------------------------------------
     Children of the specialised composites
     --------------------------------------------------------------------- */

  /** The title, table and multiplier a specialised composite gives every
      child it adds; a plain composite gives none. */
  function ChildSetup(rule: CompositeRule): Option<(string, Table, Scale)> {
    match rule
    case PlainComposite => None
    case CommunityComposite => Some(("Community", SetInitialValuesAsWritten(32), CommunityModifier))
    case ComponentsComposite(_, _) => Some(("Component", SetInitialValuesAsWritten(4), Component))
    case GesturesComposite => Some(("Gesture", SetInitialValuesAsWritten(4), Gesture))
  }

  /** The class a specialised composite casts its new children to. */
  predicate Accepts(rule: CompositeRule, k: Kind) {
    match rule
    case PlainComposite => true
    case CommunityComposite => k.ModifierField? && k.modifier.CommunityField?
    case ComponentsComposite(_, _) => k.ModifierField? && k.modifier.ComponentField?
    case GesturesComposite => k.ModifierField? && k.modifier.GestureField?
  }

  /** addField's preparation of a child: a specialised composite relabels it
      and puts it on its own table with a fresh multiplier at row 0; a child
      of the wrong class is refused. */
  function Attach(rule: CompositeRule, c: Child): (r: Result<Child>)
    ensures r.Ok? <==> Accepts(rule, c.kind)
    ensures r.Ok? && rule.PlainComposite? ==> r.value == c
    ensures r.Ok? && !rule.PlainComposite? ==> && r.value.kind.ModifierField? && LeafOk(r.value.kind)
                                               && r.value.kind.v.index == 0
                                               && r.value.kind.modifier == c.kind.modifier
                                               && r.value.kind.reduce == c.kind.reduce
  {
    if !Accepts(rule, c.kind) then Err(Misuse)
    else match ChildSetup(rule)
      case None => Ok(c)
      case Some((title, table, scale)) =>
        Ok(Child(title, ModifierField(c.kind.modifier, NewValue(table, scale), c.kind.reduce)))
  }

  /** addFirst: the initial child of a specialised composite is marked
      initial before it is added. */
  function MarkInitial(k: Kind): (r: Kind)
    ensures r.ModifierField? == k.ModifierField?
  {
    match k
    case ModifierField(CommunityField(_), v, reduce) => ModifierField(CommunityField(true), v, reduce)
    case ModifierField(ComponentField(_, d), v, reduce) => ModifierField(ComponentField(true, d), v, reduce)
    case ModifierField(GestureField(_), v, reduce) => ModifierField(GestureField(true), v, reduce)
    case _ => k
  }
}
