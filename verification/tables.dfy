/**
 * Lookup tables (SFXTable) and multiplier tables (SFXTableMultiplier and its
 * subclasses). A lookup table cross-references a linear cost with an
 * exponentially growing value; a multiplier table is a fixed list of
 * (offset, name) pairs selected by an index.
 */
module Tables {
  import opened Wrappers
  import opened Arith

  /* ---------------------------------------------------------------------
     Lookup table
     --------------------------------------------------------------------- */

  /** The base values 1, 1.5, 2.5, 4, 6, doubled so that they are whole. */
  const Base2: seq<int> := [2, 3, 5, 8, 12]

  /** Twice the value of entry `i`: the base values cycle every five entries
      and each cycle is ten times the previous one. */
  function Value2(i: nat): nat {
    Base2[i % 5] * Pow10(i / 5)
  }

  /** One row: the cost and twice the (float) value. */
  datatype Entry = Entry(cost: int, value2: int)

  type Table = seq<Entry>

  /** Every row follows the generation rule. */
  predicate Generated(t: Table) {
    forall i :: 0 <= i < |t| ==> t[i] == Entry(i, Value2(i))
  }

  /** Every row's cost is its index, as the generation loop makes it. */
  predicate Indexed(t: Table) {
    forall i :: 0 <= i < |t| ==> t[i].cost == i
  }

  /** setInitialValues(range): one row per cost 0 .. range-1. */
  function SetInitialValues(range: int): (t: Table)
    ensures |t| == Max(range, 0)
    ensures Indexed(t)
    ensures forall i :: 0 <= i < |t| ==> t[i].value2 == Base2[i % 5] * Pow10(i / 5)
  {
    Fill([], range, 1)
  }

  /** The generation loop: `|t|` plays the running cost and `mult` the running
      multiplier, which is multiplied by ten whenever the cost reaches a
      multiple of five. */
  function Fill(t: Table, range: int, mult: int): (r: Table)
    requires mult == Pow10(|t| / 5)
    requires Generated(t)
    ensures Generated(r)
    ensures |r| == Max(range, |t|)
    decreases range - |t|
  {
    if range <= |t| then t
    else
      var c := |t|;
      var next := t + [Entry(c, Base2[c % 5] * mult)];
      assert (c + 1) % 5 == 0 ==> (c + 1) / 5 == c / 5 + 1;
      assert (c + 1) % 5 != 0 ==> (c + 1) / 5 == c / 5;
      Fill(next, range, if (c + 1) % 5 == 0 then mult * 10 else mult)
  }

  /** outRange: the index is not a row of the table. */
  predicate OutRange(t: Table, i: int) {
    i < 0 || |t| <= i
  }

  /** The entry's value is at least `v`. */
  predicate Reaches(e: Entry, v: Ratio) {
    2 * v.num <= e.value2 * v.den
  }

  /** closestValue: the cost of the first row whose value is at least `v`,
      or -1 when every row is below `v`. */
  function ClosestValue(t: Table, v: Ratio): (r: int)
    ensures (forall i :: 0 <= i < |t| ==> !Reaches(t[i], v)) ==> r == -1
    ensures forall i :: 0 <= i < |t| && Reaches(t[i], v) && (forall j :: 0 <= j < i ==> !Reaches(t[j], v))
                        ==> r == t[i].cost
  {
    if |t| == 0 then -1
    else if Reaches(t[0], v) then t[0].cost
    else
      var r := ClosestValue(t[1..], v);
      assert forall i :: 1 <= i < |t| ==> t[i] == t[1..][i - 1];
      r
  }

  lemma ValueStep(i: nat)
    ensures Value2(i) < Value2(i + 1)
  {
    var p := Pow10(i / 5);
    if (i + 1) % 5 == 0 {
      assert (i + 1) / 5 == i / 5 + 1 && i % 5 == 4;
      assert Value2(i + 1) == 2 * (10 * p);
    } else {
      assert (i + 1) / 5 == i / 5 && (i + 1) % 5 == i % 5 + 1;
      assert Base2[i % 5] < Base2[(i + 1) % 5];
      assert Value2(i + 1) - Value2(i) == (Base2[(i + 1) % 5] - Base2[i % 5]) * p;
    }
  }

  /** Values strictly increase with the index. */
  lemma {:induction false} ValuesIncrease(i: nat, j: nat)
    requires i < j
    ensures Value2(i) < Value2(j)
    decreases j - i
  {
    ValueStep(i);
    if i + 1 < j {
      ValuesIncrease(i + 1, j);
    }
  }

  /** On any table whose costs are its indexes, closestValue is -1 exactly
      when no row reaches `v`, and otherwise the smallest index of a row that
      does. No ordering of the values is needed. */
  lemma ClosestIsFirstReaching(t: Table, v: Ratio)
    requires Indexed(t)
    ensures var r := ClosestValue(t, v);
      && (r == -1 <==> forall i :: 0 <= i < |t| ==> !Reaches(t[i], v))
      && (r != -1 ==> 0 <= r < |t| && Reaches(t[r], v) && forall j :: 0 <= j < r ==> !Reaches(t[j], v))
  {
    if n :| 0 <= n < |t| && Reaches(t[n], v) {
      FirstReaching(t, v, n);
      var k :| 0 <= k <= n && Reaches(t[k], v) && forall j :: 0 <= j < k ==> !Reaches(t[j], v);
      SelectsFirstReaching(t, v, k);
    }
  }

  /** On a generated table closestValue is the smallest index whose value
      reaches `v`; it is -1 exactly when even the last row is below `v`. */
  lemma ClosestIsFirstIndex(t: Table, v: Ratio)
    requires Generated(t)
    ensures var r := ClosestValue(t, v);
      && (r == -1 <==> (|t| == 0 || !Reaches(t[|t| - 1], v)))
      && (r != -1 ==> 0 <= r < |t| && Reaches(t[r], v) && forall j :: 0 <= j < r ==> !Reaches(t[j], v))
  {
    if |t| > 0 && Reaches(t[|t| - 1], v) {
      FirstReaching(t, v, |t| - 1);
      var k :| 0 <= k < |t| && Reaches(t[k], v) && forall j :: 0 <= j < k ==> !Reaches(t[j], v);
      assert ClosestValue(t, v) == t[k].cost;
    } else {
      forall i | 0 <= i < |t| - 1
        ensures !Reaches(t[i], v)
      {
        ValuesIncrease(i, |t| - 1);
        if Reaches(t[i], v) {
          ReachesMonotone(t[i], t[|t| - 1], v);
        }
      }
    }
  }

  /** A larger value reaches whatever a smaller one reaches. */
  lemma ReachesMonotone(a: Entry, b: Entry, v: Ratio)
    requires a.value2 <= b.value2 && Reaches(a, v)
    ensures Reaches(b, v)
  {
    assert (b.value2 - a.value2) * v.den >= 0;
  }

  /** Some row reaching `v` means there is a first one. */
  lemma {:induction false} FirstReaching(t: Table, v: Ratio, n: nat)
    requires n < |t| && Reaches(t[n], v)
    ensures exists k :: 0 <= k <= n && Reaches(t[k], v) && forall j :: 0 <= j < k ==> !Reaches(t[j], v)
  {
    if exists j :: 0 <= j < n && Reaches(t[j], v) {
      var j :| 0 <= j < n && Reaches(t[j], v);
      FirstReaching(t, v, j);
    }
  }

  /* ---------------------------------------------------------------------
     The generation loop as written, with a Java int multiplier
     --------------------------------------------------------------------- */

  /** The multiplier after `k` cycles when it is a Java int: ten times the
      previous one, wrapped to 32 bits. */
  function MultiplierAsWritten(k: nat): int {
    if k == 0 then 1 else Wrap32(MultiplierAsWritten(k - 1) * 10)
  }

  predicate GeneratedAsWritten(t: Table) {
    forall i :: 0 <= i < |t| ==> t[i] == Entry(i, Base2[i % 5] * MultiplierAsWritten(i / 5))
  }

  /** setInitialValues exactly as the loop computes it with `int iMultiplier`. */
  function SetInitialValuesAsWritten(range: int): (t: Table)
    ensures |t| == Max(range, 0)
    ensures GeneratedAsWritten(t) && Indexed(t)
  {
    FillAsWritten([], range, 1)
  }

  function FillAsWritten(t: Table, range: int, mult: int): (r: Table)
    requires mult == MultiplierAsWritten(|t| / 5)
    requires GeneratedAsWritten(t)
    ensures GeneratedAsWritten(r)
    ensures |r| == Max(range, |t|)
    decreases range - |t|
  {
    if range <= |t| then t
    else
      var c := |t|;
      var next := t + [Entry(c, Base2[c % 5] * mult)];
      assert (c + 1) % 5 == 0 ==> (c + 1) / 5 == c / 5 + 1;
      assert (c + 1) % 5 != 0 ==> (c + 1) / 5 == c / 5;
      FillAsWritten(next, range, if (c + 1) % 5 == 0 then Wrap32(mult * 10) else mult)
  }

  /** With the Java int multiplier the default table stops increasing at row
      50: 10^10 wraps to 1410065408, so row 50 holds about 1.41e9 while row 49
      holds 6e9. */
  lemma AsWrittenValuesDrop()
    ensures var t := SetInitialValuesAsWritten(DefaultRange);
      |t| == 100 && t[50].value2 < t[49].value2
  {
    var t := SetInitialValuesAsWritten(DefaultRange);
    assert MultiplierAsWritten(1) == 10;
    assert MultiplierAsWritten(2) == 100;
    assert MultiplierAsWritten(3) == 1000;
    assert MultiplierAsWritten(4) == 10000;
    assert MultiplierAsWritten(5) == 100000;
    assert MultiplierAsWritten(6) == 1000000;
    assert MultiplierAsWritten(7) == 10000000;
    assert MultiplierAsWritten(8) == 100000000;
    assert MultiplierAsWritten(9) == 1000000000;
    assert MultiplierAsWritten(10) == 1410065408;
    assert t[49].value2 == 12 * 1000000000;
    assert t[50].value2 == 2 * 1410065408;
  }

  /* ---------------------------------------------------------------------
     The shared default table
     --------------------------------------------------------------------- */

  const DefaultRange: int := 100

  /** The table getDefaultValueTable builds and every value field shares:
      100 rows made with the wrapping int multiplier. */
  function DefaultTable(): Table {
    SetInitialValuesAsWritten(DefaultRange)
  }

  /** The same 100 rows with the multiplier kept exact. */
  function CorrectedDefaultTable(): Table {
    SetInitialValues(DefaultRange)
  }

  /** The static slot holding the shared default table once created. */
  datatype TableCache = TableCache(table: Option<Table>)

  /** getDefaultValueTable: create the 100-row table on first use, then keep
      returning it. */
  function GetDefaultValueTable(c: TableCache): (r: (Table, TableCache))
    ensures c.table.Some? ==> r == (c.table.value, c)
    ensures c.table.None? ==> r.1.table == Some(r.0) && |r.0| == 100 && GeneratedAsWritten(r.0)
  {
    match c.table
    case Some(t) => (t, c)
    case None =>
      var t := SetInitialValuesAsWritten(DefaultRange);
      (t, TableCache(Some(t)))
  }

  /** After the first call every call returns the same table and leaves the
      slot alone. */
  lemma DefaultTableCreatedOnce(c: TableCache)
    ensures var (t1, c1) := GetDefaultValueTable(c);
      GetDefaultValueTable(c1) == (t1, c1)
      && (c.table.None? ==> t1 == DefaultTable())
  {
  }

  /** Rows 0-9 of the default table and the two closestValue examples. */
  lemma DefaultTableExamples()
    ensures var t := DefaultTable();
      && |t| == 100
      && t[0].value2 == 2 && t[1].value2 == 3 && t[2].value2 == 5 && t[3].value2 == 8 && t[4].value2 == 12
      && t[5].value2 == 20 && t[6].value2 == 30 && t[7].value2 == 50 && t[8].value2 == 80 && t[9].value2 == 120
      && ClosestValue(t, Ratio(5, 2)) == 2
      && ClosestValue(t, Ratio(9, 10)) == 0
  {
    var t := DefaultTable();
    assert MultiplierAsWritten(1) == 10;
    assert !Reaches(t[0], Ratio(5, 2)) && !Reaches(t[1], Ratio(5, 2)) && Reaches(t[2], Ratio(5, 2));
    assert Reaches(t[0], Ratio(9, 10));
  }

  /** Below ten cycles the wrapping multiplier is still the exact power of
      ten. */
  lemma {:induction false} MultiplierExactBelowTen(k: nat)
    requires k < 10
    ensures MultiplierAsWritten(k) == Pow10(k) <= 1000000000
  {
    if k > 0 {
      MultiplierExactBelowTen(k - 1);
      Pow10Monotone(k - 1, 8);
      assert Pow10(8) == 100000000;
    }
  }

  lemma {:induction false} Pow10Monotone(a: nat, b: nat)
    requires a <= b
    ensures Pow10(a) <= Pow10(b)
    decreases b
  {
    if a < b {
      Pow10Monotone(a, b - 1);
    }
  }

  /** Tables of at most 50 rows, such as the 32-row community table and the
      4-row bonus tables, come out the same with either multiplier. */
  lemma AsWrittenAgreesUpToFifty(range: int)
    requires range <= 50
    ensures SetInitialValuesAsWritten(range) == SetInitialValues(range)
  {
    var a := SetInitialValuesAsWritten(range);
    var b := SetInitialValues(range);
    forall i | 0 <= i < |a|
      ensures a[i] == b[i]
    {
      MultiplierExactBelowTen(i / 5);
    }
  }

  /** Row `i` below 50 is the same in the shared table and its corrected
      form. */
  lemma RowAgrees(i: nat)
    requires i < 50
    ensures DefaultTable()[i] == CorrectedDefaultTable()[i]
  {
    MultiplierExactBelowTen(i / 5);
  }

  /** The shared table and its corrected form agree on rows 0-49 and part at
      row 50. */
  lemma DefaultTablesPartAtFifty()
    ensures DefaultTable()[..50] == CorrectedDefaultTable()[..50]
    ensures DefaultTable()[50] != CorrectedDefaultTable()[50]
  {
    var a := DefaultTable();
    var b := CorrectedDefaultTable();
    forall i | 0 <= i < 50
      ensures a[i] == b[i]
    {
      RowAgrees(i);
    }
    assert a[50].value2 == 2 * MultiplierAsWritten(10);
    assert b[50].value2 == 2 * Pow10(10);
    MultiplierExactBelowTen(9);
    assert MultiplierAsWritten(10) == 1410065408;
  }

  /** Rows 0-49 of both tables hold less than 7e9. */
  lemma ShortOfSevenBillion(j: nat)
    requires j < 50
    ensures !Reaches(CorrectedDefaultTable()[j], Ratio(7000000000, 1))
    ensures !Reaches(DefaultTable()[j], Ratio(7000000000, 1))
  {
    var b := CorrectedDefaultTable();
    assert b[49].value2 == 12 * Pow10(9);
    MultiplierExactBelowTen(9);
    if j < 49 {
      ValuesIncrease(j, 49);
    }
    RowAgrees(j);
  }

  /** The overflow seen from setValue("7000000000") on a value field: the
      shared table selects row 54, the corrected one row 50. */
  lemma AsWrittenSelectsLaterRow()
    ensures ClosestValue(DefaultTable(), Ratio(7000000000, 1)) == 54
    ensures ClosestValue(CorrectedDefaultTable(), Ratio(7000000000, 1)) == 50
  {
    SharedTableSelects54();
    CorrectedTableSelects50();
  }

  lemma SharedTableSelects54()
    ensures ClosestValue(DefaultTable(), Ratio(7000000000, 1)) == 54
  {
    var v := Ratio(7000000000, 1);
    var a := DefaultTable();
    assert Reaches(a[54], v) by {
      WrappedRows();
    }
    SharedRowsFallShort();
    SelectsFirstReaching(a, v, 54);
  }

  /** Rows 0 to 53 of the shared table fall short of seven billion. */
  lemma SharedRowsFallShort()
    ensures |DefaultTable()| > 54
    ensures forall j :: 0 <= j < 54 ==> !Reaches(DefaultTable()[j], Ratio(7000000000, 1))
  {
    var a := DefaultTable();
    var v := Ratio(7000000000, 1);
    forall j | 0 <= j < 50
      ensures !Reaches(a[j], v)
    {
      ShortOfSevenBillion(j);
    }
    WrappedRowsFallShort();
  }

  /** Rows 50 to 53 of the shared table, wrapped by the int multiplier,
      fall short of seven billion. */
  lemma WrappedRowsFallShort()
    ensures |DefaultTable()| > 54
    ensures forall j :: 50 <= j < 54 ==> !Reaches(DefaultTable()[j], Ratio(7000000000, 1))
  {
    WrappedRows();
  }

  /** A row that reaches `v` after rows that all fall short is the one
      closestValue picks. */
  lemma SelectsFirstReaching(t: Table, v: Ratio, k: nat)
    requires Indexed(t) && k < |t| && Reaches(t[k], v)
    requires forall j :: 0 <= j < k ==> !Reaches(t[j], v)
    ensures ClosestValue(t, v) == k
  {
  }

  /** Rows 50-54 of the shared table, on the wrapped multiplier 1410065408. */
  lemma WrappedRows()
    ensures var a := DefaultTable();
      && a[50].value2 == 2 * 1410065408 && a[51].value2 == 3 * 1410065408
      && a[52].value2 == 5 * 1410065408 && a[53].value2 == 8 * 1410065408
      && a[54].value2 == 12 * 1410065408
  {
    MultiplierExactBelowTen(9);
    assert MultiplierAsWritten(10) == 1410065408;
  }

  lemma CorrectedTableSelects50()
    ensures ClosestValue(CorrectedDefaultTable(), Ratio(7000000000, 1)) == 50
  {
    var v := Ratio(7000000000, 1);
    var b := CorrectedDefaultTable();
    forall j | 0 <= j < 50
      ensures !Reaches(b[j], v)
    {
      ShortOfSevenBillion(j);
    }
    MultiplierExactBelowTen(9);
    assert b[50].value2 == 2 * Pow10(10);
    SelectsFirstReaching(b, v, 50);
  }

  /* ---------------------------------------------------------------------
     Multiplier tables
     --------------------------------------------------------------------- */

  /** The multiplier table subclasses. */
  datatype Scale =
    | Time | Distance | Speed | Weight | Shape | Switch | CommunityModifier
    | Component | Gesture | Incantation | RelatedSkill | Skill | Reception
    | Trance | Lock | Countenance | MultiAttribute

  function Offsets(s: Scale): (o: seq<int>)
    ensures 0 < |o|
  {
    match s
    case Time => [0, 9, 18, 25, 29, 32, 38]
    case Distance => [0, 15, -3, 16, 10, 11, 23, 30, 32, 33, 34, 35, 38]
    case Speed => [0, 2, 3]
    case Weight => [0, -2, 15]
    case Shape => [0, 1, 3, 6]
    case Switch => [0, 4, 8]
    case CommunityModifier => [1, 2, 3, 4, 5, 6, 7]
    case Component => [0, 1, 2, 3, 4, 5, 6, 7]
    case Gesture => [0, 1, 2, 3, 4, 5, 6]
    case Incantation => [0, 1, 2, 3, 4, 5, 6]
    case RelatedSkill => [0, 1, 2, 3, 4, 5, 6, 7]
    case Skill => [0, 1, 2, 3, 4, 5, 6, 7, 8, 9, 10]
    case Reception => [0, 1, 2, 3, 4]
    case Trance => [0, 1, 2, 3, 4, 5, 6]
    case Lock => [0, 1, 2, 3, 4]
    case Countenance => [0, 1, 2]
    case MultiAttribute => [0, 3, 6, 9, 12, 15, 18, 21]
  }

  function Names(s: Scale): seq<string> {
    match s
    case Time => ["seconds", "minutes", "hours", "days", "months", "years"]
    case Distance => ["meters", "kilometers", "feet", "miles", "football field", "city block", "marathon race",
                      "length of state", "Paris to Moscow", "NY to LA", "NY to London", "London to Tokyo",
                      "Round the World"]
    case Speed => ["meters per round", "kph", "mph"]
    case Weight => ["kg", "pounds", "tons"]
    case Shape => ["none", "single", "any", "fluid"]
    case Switch => ["none", "off", "off/on"]
    case CommunityModifier => ["Simple", "DN 8", "DN 10", "DN 12", "DN 14", "DN 16", "DN 18"]
    case Component => ["unset", "common, free", "common, cheap", "common, affordable", "uncommon, affordable",
                       "rare, expensive", "very rare, expensive", "unique, fabulously expensive"]
    case Gesture => ["simple", "average", "complex", "very complex", "extremely complex", "downright hard"]
    case Incantation => ["none", "few words", "sentence", "incantation", "litany", "complex formula",
                         "extensive complex elements"]
    case RelatedSkill => ["none", "DN 6", "DN 7", "DN 8", "DN 9", "DN 10", "DN 11", "DN 12"]
    case Skill => ["Unset", "Necroscope", "Necromancer", "Prescient", "Seer", "Sensitive", "Shaman",
                   "Spotter", "Telepath", "Numerancer", "Witch - self"]
    case Reception => ["Unset", "Feeling", "INT roll", "Perception roll", "Automatically knows the effect"]
    case Trance => ["None", "Will DN 7 to break trance", "Will DN 8 to break trance", "Will DN 10 to break trance",
                    "Will DN 12 to break trance", "Will DN 15 to break trance", "Will DN 19 to break trance"]
    case Lock => ["Unset", "Target makes Will DN 7 or +2 modifier", "Target makes Will DN 8 or +2 modifier",
                  "Target makes Will DN 10 or +2 modifier", "Target makes Will DN 12 or +2 modifier"]
    case Countenance => ["Unset", "Noticable - grey pallor, foaming mouth", "Extreme - convulsions, psychic image"]
    case MultiAttribute => ["unset", "TWO attributes", "three", "four", "five", "six", "seven", "ALL"]
  }

  /** A multiplier table with its selected index. */
  datatype Multiplier = Multiplier(scale: Scale, index: int)

  /** The selected index names an offset. */
  predicate ValidMultiplier(m: Multiplier) {
    0 <= m.index < |Offsets(m.scale)|
  }

  /** A freshly constructed multiplier table selects index 0. */
  function NewMultiplier(s: Scale): Multiplier {
    Multiplier(s, 0)
  }

  /** setIndex: an index outside the offsets is ignored. */
  function SetIndex(m: Multiplier, k: int): (r: Multiplier)
    ensures r.scale == m.scale
    ensures (k < 0 || |Offsets(m.scale)| <= k) ==> r == m
    ensures 0 <= k < |Offsets(m.scale)| ==> r.index == k
    ensures ValidMultiplier(m) ==> ValidMultiplier(r)
  {
    if k < 0 then m
    else if |Offsets(m.scale)| <= k then m
    else m.(index := k)
  }

  /** getOffset: the offset at the selected index. */
  function GetOffset(m: Multiplier): int
    requires ValidMultiplier(m)
  {
    Offsets(m.scale)[m.index]
  }

  /** getName: the name at the selected index, if the names reach that far. */
  function GetName(m: Multiplier): (r: Option<string>)
    requires ValidMultiplier(m)
    ensures r.Some? <==> m.index < |Names(m.scale)|
  {
    if m.index < |Names(m.scale)| then Some(Names(m.scale)[m.index]) else None
  }

  /** Starting from any valid multiplier, a run of setIndex calls keeps the
      index valid, so getOffset never reads outside the offsets, and after
      an accepted setIndex(k) the offset is the k-th one. */
  lemma {:induction false} SetIndexKeepsOffsetDefined(m: Multiplier, ks: seq<int>)
    requires ValidMultiplier(m)
    ensures ValidMultiplier(SetIndexAll(m, ks))
    ensures 0 < |ks| && 0 <= ks[|ks| - 1] < |Offsets(m.scale)|
            ==> GetOffset(SetIndexAll(m, ks)) == Offsets(m.scale)[ks[|ks| - 1]]
    decreases |ks|
  {
    if |ks| > 0 {
      SetIndexKeepsOffsetDefined(m, ks[..|ks| - 1]);
    }
  }

  /** Applies setIndex with each argument in turn. */
  function SetIndexAll(m: Multiplier, ks: seq<int>): (r: Multiplier)
    ensures r.scale == m.scale
  {
    if |ks| == 0 then m else SetIndex(SetIndexAll(m, ks[..|ks| - 1]), ks[|ks| - 1])
  }

  /** Time and Gesture have one more offset than names: index 6 is accepted by
      setIndex, yet getName has no name for it. */
  lemma NamesShortOfOffsets()
    ensures |Offsets(Time)| == |Names(Time)| + 1
    ensures |Offsets(Gesture)| == |Names(Gesture)| + 1
    ensures SetIndex(NewMultiplier(Time), 6).index == 6 && GetName(SetIndex(NewMultiplier(Time), 6)).None?
    ensures SetIndex(NewMultiplier(Gesture), 6).index == 6 && GetName(SetIndex(NewMultiplier(Gesture), 6)).None?
  {
  }
}
