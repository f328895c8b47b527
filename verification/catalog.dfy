/**
 * The names of the fields of an SFX form, as the model registers them, and a
 * static rank over them: every field a name's factory reads or registers
 * with has a strictly lower rank, so change propagation climbs the ranks and
 * cost evaluation descends them.
 */
module Catalog {
  import opened Wrappers

  datatype FieldId =
    | Name | Effect | Range | Speed | Duration | SubMandatory | HalfMandatory | Casting | Mandatory
    | AreaEffect | MultiTarget | MultiAttribute | ChangeTarget | VariableEffect | VariableDuration
    | Apportation | Maintenance | Focus | Charges | Optional
    | Community | Components | Concentration | Gestures | Incantation | RelatedSkill | Other | Unreal | Modifiers
    | Fraction | Total
    | Skill | ConcentrationAdd | Reception | Trance | Lock | Countenance | Specific

  /** Every name, in the order the model lists them. */
  const AllIds: seq<FieldId> := [
    Name,
    Effect, Range, Speed, Duration, SubMandatory, HalfMandatory, Casting, Mandatory,
    AreaEffect, MultiTarget, MultiAttribute, ChangeTarget, VariableEffect, VariableDuration,
    Apportation, Maintenance, Focus, Charges, Optional,
    Community, Components, Concentration, Gestures, Incantation, RelatedSkill, Other, Unreal, Modifiers,
    Fraction, Total,
    Skill, ConcentrationAdd, Reception, Trance, Lock, Countenance, Specific
  ]

  /** The string key the registry stores each field under. */
  function Key(id: FieldId): string {
    match id
    case Name => "Name"
    case Effect => "Effect"
    case Range => "Range"
    case Speed => "Speed"
    case Duration => "Duration"
    case SubMandatory => "SubMandatory"
    case HalfMandatory => "HalfMandatory"
    case Casting => "Casting"
    case Mandatory => "Mandatory"
    case AreaEffect => "AreaEffect"
    case MultiTarget => "MultiTarget"
    case MultiAttribute => "MultiAttribute"
    case ChangeTarget => "ChangeTarget"
    case VariableEffect => "VariableEffect"
    case VariableDuration => "VariableDuration"
    case Apportation => "Apportation"
    case Maintenance => "Maintenance"
    case Focus => "Focus"
    case Charges => "Charges"
    case Optional => "Optional"
    case Community => "Community"
    case Components => "Components"
    case Concentration => "Concentration"
    case Gestures => "Gestures"
    case Incantation => "Incantation"
    case RelatedSkill => "RelatedSkill"
    case Other => "Other"
    case Unreal => "Unreal"
    case Modifiers => "Modifiers"
    case Fraction => "Fraction"
    case Total => "Total"
    case Skill => "Skill"
    case ConcentrationAdd => "ConcentrationAdd"
    case Reception => "Reception"
    case Trance => "Trance"
    case Lock => "Lock"
    case Countenance => "Countenance"
    case Specific => "Specific"
  }

  /** The name stored under a string key, if any. The keys are told apart
      by their length first, then by their text. */
  function Lookup(s: string): Option<FieldId> {
    match |s|
    case 4 =>
      (match s
      case "Name" => Some(Name)
      case "Lock" => Some(Lock)
      case _ => None)
    case 5 =>
      (match s
      case "Range" => Some(Range)
      case "Speed" => Some(Speed)
      case "Focus" => Some(Focus)
      case "Other" => Some(Other)
      case "Total" => Some(Total)
      case "Skill" => Some(Skill)
      case _ => None)
    case 6 =>
      (match s
      case "Effect" => Some(Effect)
      case "Unreal" => Some(Unreal)
      case "Trance" => Some(Trance)
      case _ => None)
    case 7 =>
      (match s
      case "Casting" => Some(Casting)
      case "Charges" => Some(Charges)
      case _ => None)
    case 8 =>
      (match s
      case "Duration" => Some(Duration)
      case "Optional" => Some(Optional)
      case "Gestures" => Some(Gestures)
      case "Fraction" => Some(Fraction)
      case "Specific" => Some(Specific)
      case _ => None)
    case 9 =>
      (match s
      case "Mandatory" => Some(Mandatory)
      case "Community" => Some(Community)
      case "Modifiers" => Some(Modifiers)
      case "Reception" => Some(Reception)
      case _ => None)
    case 10 =>
      (match s
      case "AreaEffect" => Some(AreaEffect)
      case "Components" => Some(Components)
      case _ => None)
    case 11 =>
      (match s
      case "MultiTarget" => Some(MultiTarget)
      case "Apportation" => Some(Apportation)
      case "Maintenance" => Some(Maintenance)
      case "Incantation" => Some(Incantation)
      case "Countenance" => Some(Countenance)
      case _ => None)
    case 12 =>
      (match s
      case "SubMandatory" => Some(SubMandatory)
      case "ChangeTarget" => Some(ChangeTarget)
      case "RelatedSkill" => Some(RelatedSkill)
      case _ => None)
    case 13 =>
      (match s
      case "HalfMandatory" => Some(HalfMandatory)
      case "Concentration" => Some(Concentration)
      case _ => None)
    case 14 =>
      (match s
      case "MultiAttribute" => Some(MultiAttribute)
      case "VariableEffect" => Some(VariableEffect)
      case _ => None)
    case 16 =>
      (match s
      case "VariableDuration" => Some(VariableDuration)
      case "ConcentrationAdd" => Some(ConcentrationAdd)
      case _ => None)
    case _ => None
  }

  /** Every name is found again under its key, so no two names share a key. */
  lemma LookupInvertsKey(id: FieldId)
    ensures Lookup(Key(id)) == Some(id)
  {
    match id
    case Name | Effect | Range | Speed | Duration | SubMandatory | HalfMandatory | Casting | Mandatory | AreaEffect | MultiTarget | MultiAttribute | ChangeTarget | VariableEffect | VariableDuration | Apportation | Maintenance | Focus | Charges =>
      LookupInvertsEarly(id);
    case Optional | Community | Components | Concentration | Gestures | Incantation | RelatedSkill | Other | Unreal | Modifiers =>
      LookupInvertsMiddle(id);
    case Fraction | Total | Skill | ConcentrationAdd | Reception | Trance | Lock | Countenance | Specific =>
      LookupInvertsLate(id);
  }

  lemma LookupInvertsEarly(id: FieldId)
    requires id.Name?
      || id.Effect?
      || id.Range?
      || id.Speed?
      || id.Duration?
      || id.SubMandatory?
      || id.HalfMandatory?
      || id.Casting?
      || id.Mandatory?
      || id.AreaEffect?
      || id.MultiTarget?
      || id.MultiAttribute?
      || id.ChangeTarget?
      || id.VariableEffect?
      || id.VariableDuration?
      || id.Apportation?
      || id.Maintenance?
      || id.Focus?
      || id.Charges?
    ensures Lookup(Key(id)) == Some(id)
  {
  }

  lemma LookupInvertsMiddle(id: FieldId)
    requires id.Optional?
      || id.Community?
      || id.Components?
      || id.Concentration?
      || id.Gestures?
      || id.Incantation?
      || id.RelatedSkill?
      || id.Other?
      || id.Unreal?
      || id.Modifiers?
    ensures Lookup(Key(id)) == Some(id)
  {
  }

  lemma LookupInvertsLate(id: FieldId)
    requires id.Fraction?
      || id.Total?
      || id.Skill?
      || id.ConcentrationAdd?
      || id.Reception?
      || id.Trance?
      || id.Lock?
      || id.Countenance?
      || id.Specific?
    ensures Lookup(Key(id)) == Some(id)
  {
  }

  /** The position of a name in AllIds. */
  function Position(id: FieldId): (p: nat)
    ensures p < |AllIds| && AllIds[p] == id
  {
    match id
    case Name => 0
    case Effect => 1
    case Range => 2
    case Speed => 3
    case Duration => 4
    case SubMandatory => 5
    case HalfMandatory => 6
    case Casting => 7
    case Mandatory => 8
    case AreaEffect => 9
    case MultiTarget => 10
    case MultiAttribute => 11
    case ChangeTarget => 12
    case VariableEffect => 13
    case VariableDuration => 14
    case Apportation => 15
    case Maintenance => 16
    case Focus => 17
    case Charges => 18
    case Optional => 19
    case Community => 20
    case Components => 21
    case Concentration => 22
    case Gestures => 23
    case Incantation => 24
    case RelatedSkill => 25
    case Other => 26
    case Unreal => 27
    case Modifiers => 28
    case Fraction => 29
    case Total => 30
    case Skill => 31
    case ConcentrationAdd => 32
    case Reception => 33
    case Trance => 34
    case Lock => 35
    case Countenance => 36
    case Specific => 37
  }

  /** Every name is listed. */
  lemma AllIdsComplete()
    ensures forall id: FieldId :: id in AllIds
  {
    forall id: FieldId
      ensures id in AllIds
    {
      assert AllIds[Position(id)] == id;
    }
  }

  /** The static rank of a name; 9 is the highest. */
  const MaxLevel: nat := 9

  function Level(id: FieldId): (l: nat)
    ensures l <= MaxLevel
  {
    match id
    case Speed | MultiTarget | Focus | Unreal | ConcentrationAdd | Reception | Trance => 1
    case SubMandatory | HalfMandatory | ChangeTarget => 2
    case Mandatory => 3
    case Apportation => 4
    case Maintenance => 5
    case Optional => 6
    case Components => 7
    case Modifiers => 8
    case Total | Specific => 9
    case _ => 0
  }
}
