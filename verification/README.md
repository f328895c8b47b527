# SFX point-cost engine

This Dafny project models the part of MasterBook-SFX that computes the point
cost of a special effect (an "SFX" form).

The form is a map from field names to fields. Each field starts as a factory
placeholder and is built the first time it is fetched (`getField`). While it
is built, it resolves the fields it reads. Fields have these classes:

- Scalars and charges.
- Table-backed values with a unit multiplier.
- Value modifiers that charge either the DN cost or the FV reduction.
- Followers that copy another field's row.
- Fractions.
- Composites that sum their children.
- The derived fields SubMandatory, HalfMandatory, Mandatory, Optional,
  Components, Modifiers and Total.

A change to one field runs `propagateChange`. It recomputes the field's
dependents in list order, and then the model's listeners are told. The model
also adds and removes listeners, and replaces the whole content with a loaded
form, announcing the removed, replaced and added fields.

The modules follow the source files:

- `Arith` holds Java int semantics: 32-bit wrap-around, truncating division,
  `Integer.parseInt` and `Integer.toString`, decimal parsing and the float-to-int cast.
- `Tables` is `SFXTable.java`: the value table and the unit multipliers.
- `Fields` holds the per-class behaviour of `SFXField.java`: setValue,
  getCost and getReduction.
- `Formulas` holds the derived-field arithmetic of the same file.
- `Catalog` holds the field names, their string keys and a static rank.
- `Graph` is the registry: cost lookup, `updateValue`, `propagateChange`.
- `Edits` covers setValue and setMultiplierIndex on a named field, child
  edits, addField and removeField, and addDepends and removeDepends.
- `Factory` is `SFXFieldFactory.java`: lazy resolution and the per-name wiring.
- `Model` is `SFXModel.java`.
- `Staleness` is a worked propagation example showing the Mandatory finding below.

Floats are exact rationals. Table values are stored doubled, so the bases
1, 1.5, 2.5, 4 and 6 become the ints 2, 3, 5, 8 and 12.

The model comes in two editions (`Factory.Edition`). `AsWritten` builds fields
as the code does: every value field gets the shared default table made with
the wrapping int multiplier, and Mandatory reads HalfMandatory without
registering on it. `Corrected` repairs both findings below: the exact table,
and Mandatory registered on the half. Resolution, getField and replaceContent
take the edition, and their contracts hold for both.

Every name has a static rank (`Catalog.Level`). Every field a factory fetches
ranks below the name it builds. That rank is what makes resolution and
propagation terminate.

Three details of the code that the model keeps:

- HalfMandatory halves with Java's truncating `/`, not a floor. This matters
  for negative sums, because some unit offsets are negative.
- A tracking follower costs its own cost minus the followed field's cost.
- removeDepends on Components leaves the source in Components' own source
  list, because the class overrides only addDepends. The model does the same.

## Model

| member | source | states |
|---|---|---|
| Arith.ParseInt | src/sfx/SFXField.java:206 | Integer.parseInt accepts only an optional sign followed by ASCII digits, gives a value in the int range, and is never negative without a minus sign; empty text is refused |
| Arith.ParseIntToString | src/sfx/SFXField.java:206-215 | the Integer.toString text of every int parses back to that int |
| Arith.ParseDecimal | src/sfx/SFXField.java:373 | Float.parseFloat, as modelled, accepts only a sign, digits and a point, and is never negative without a minus sign; empty text is refused |
| Arith.ParseDecimalOfInt | src/sfx/SFXField.java:1217 | the text of an int reads back as exactly that number, and holds no space |
| Arith.SplitSpace | src/sfx/SFXField.java:1216 | split(" ") keeps text without a space whole, yields pieces without spaces, and drops trailing empty pieces |
| Arith.SplitTwoWords | src/sfx/SFXField.java:1216 | two words joined by one space split back into those two words |
| Arith.ParseBooleanReadsText | src/sfx/SFXField.java:1218 | parseBoolean reads back what Boolean.toString writes, and ignores letter case |
| Tables.SetInitialValues | src/sfx/SFXTable.java:25-46 | a table of `range` entries (none for a negative range) in which entry i costs i and holds base[i mod 5]·10^(i div 5) |
| Tables.Fill | src/sfx/SFXTable.java:33-43 | the generating loop extends a well-formed table to the requested length and keeps every entry well-formed while the multiplier is 10^(length div 5) |
| Tables.ValuesIncrease | src/sfx/SFXTable.java:30-42 | with the multiplier kept exact, values strictly increase along the table |
| Tables.ClosestValue | src/sfx/SFXTable.java:76-81 | the index of the first entry whose value reaches the number, and -1 when no entry does |
| Tables.ClosestIsFirstReaching | src/sfx/SFXTable.java:76-81 | on any table whose costs are its indexes, the result is -1 exactly when no entry reaches the number, and otherwise the first entry that does; it needs no ordering of the values |
| Tables.ClosestIsFirstIndex | src/sfx/SFXTable.java:76-81 | on a generated table the result is -1 exactly when the last entry falls short; otherwise it is the first reaching index |
| Tables.SetInitialValuesAsWritten | src/sfx/SFXTable.java:31-42 | the table the code builds with its 32-bit int multiplier, entry by entry |
| Tables.AsWrittenValuesDrop | src/sfx/SFXTable.java:42 | in the code's default table of 100 entries, entry 50 is worth less than entry 49 |
| Tables.GetDefaultValueTable | src/sfx/SFXTable.java:13-21 | the first call builds and caches the 100-entry table with the wrapping int multiplier; later calls return the cached table and leave the cache alone |
| Tables.DefaultTableCreatedOnce | src/sfx/SFXTable.java:13-21 | a second call returns the same table and the same cache as the first |
| Tables.DefaultTableExamples | src/sfx/SFXTable.java:30-42 | the first ten values of the shared table are 1, 1.5, 2.5, 4, 6, 10, 15, 25, 40, 60, and closestValue picks the first entry at or above the number |
| Tables.AsWrittenAgreesUpToFifty | src/sfx/SFXTable.java:25-46 | a table of at most 50 entries, such as the 32-entry community table and the 4-entry bonus tables, is the same with either multiplier |
| Tables.DefaultTablesPartAtFifty | src/sfx/SFXTable.java:31-42 | the shared table and its exact form agree on entries 0-49 and differ at entry 50 |
| Tables.AsWrittenSelectsLaterRow | src/sfx/SFXTable.java:76-81 | the number 7·10^9 selects entry 54 in the shared table and entry 50 in its exact form |
| Tables.Offsets | src/sfx/SFXTable.java:244-547 | every unit multiplier has at least one offset, so index 0 is always valid; MultiAttribute's offsets are the ones SFXField.java declares at 926-938 |
| Tables.SetIndex | src/sfx/SFXTable.java:218-224 | a negative or too-large index is ignored; any other index is taken; the index stays valid |
| Tables.SetIndexKeepsOffsetDefined | src/sfx/SFXTable.java:218-229 | after any series of setIndex calls, getOffset stays in bounds, and a final in-range index selects its offset |
| Tables.GetName | src/sfx/SFXTable.java:231-234 | a unit name exists exactly when the index is below the number of names |
| Tables.NamesShortOfOffsets | src/sfx/SFXTable.java:248-249 | Time and Gesture have one more offset than names, so index 6 is accepted but has no name |
| Catalog.LookupInvertsKey | src/sfx/SFXModel.java:74-119 | every name is found again under its string key, so no two names share a key |
| Fields.SelectRow | src/sfx/SFXField.java:425-430 | a row outside the table leaves the field unchanged and unpropagated; any other row is taken and propagated |
| Fields.ValueDelta | src/sfx/SFXField.java:422-431 | the step is added to the row as Java ints, and the field moves and propagates exactly when the new row is in the table |
| Fields.ValueText | src/sfx/SFXField.java:435-444 | text that is not a number is refused; a refused row leaves the field as it was |
| Fields.ValueTextSelectsFirstReachingRow | src/sfx/SFXField.java:435-444 | on any table whose costs are its indexes, the shared wrapping table included, a number selects the first row whose value reaches it, is refused exactly when no row reaches it, and a refusal leaves the field as it was |
| Fields.ScalarDelta | src/sfx/SFXField.java:195-201 | the step is added and the result clamped at zero, so the value is never negative |
| Fields.ScalarText | src/sfx/SFXField.java:204-210 | the value becomes the larger of zero and the parsed int, replacing rather than adding to the old value; text that is not an int is refused |
| Fields.ScalarTextRoundTrip | src/sfx/SFXField.java:204-216 | writing back a scalar's displayed text restores the value, and a negative number gives zero |
| Fields.ChargesRound | src/sfx/SFXField.java:1203-1211 | the charges are rounded toward zero to a multiple of five and are never negative |
| Fields.ChargesDelta | src/sfx/SFXField.java:1203-1211 | the charges become the Java-int sum of value and step, rounded toward zero to the multiple of five at or below it, and zero when that sum is negative |
| Fields.ChargesText | src/sfx/SFXField.java:1213-1224 | refused exactly when there is no second word or the first word is not a number; otherwise the charges are the first word cast to int, rounded toward zero to a multiple of five and clamped at zero, and the ward is the second word read as a boolean |
| Fields.ChargesTextRoundTrip | src/sfx/SFXField.java:1213-1224 | the text "n ward" of a count the field can hold, written back, restores both the count and the ward |
| Fields.ChargesCostBounds | src/sfx/SFXField.java:1226-1232 | two points per charge; a ward adds a tenth, rounded down, and never lowers the cost |
| Fields.PartSplitsTotal | src/sfx/SFXField.java:385-390 | for a proportion in [0, 1] the part is the proportion of the total rounded to nearest, and both the part and the rest lie in [0, total] |
| Fields.HalfPartRoundsUp | src/sfx/SFXField.java:380-390 | at one half the part is the larger half, (total + 1) / 2 |
| Fields.FracText | src/sfx/SFXField.java:358-378 | DEFAULT pins the proportion to the default and FRACTION unpins it; any other text is refused exactly when it is not a number, and a number becomes the proportion unless the default is pinned, in which case the proportion is the default |
| Fields.FracTextTakesNumber | src/sfx/SFXField.java:373-376 | typing a whole number n sets an unpinned proportion to n and puts a pinned one on its default |
| Fields.DefaultPinsProportion | src/sfx/SFXField.java:358-378 | after DEFAULT, no series of commands without FRACTION moves the proportion off the default |
| Fields.UnrealCostRoundsUp | src/sfx/SFXField.java:1729-1733 | the unreal cost is the disbelief share of the effect's cost, rounded up, and never more than that cost |
| Fields.LedgersSplitCombined | src/sfx/SFXField.java:532-554 | a modifier's cost and reduction add up to its amount, and exactly one of them can be nonzero, chosen by the apply flag |
| Fields.ApplicationText | src/sfx/SFXField.java:524-529 | DN applies the amount to the cost and FV to the reduction; other text leaves the flag alone |
| Fields.FollowsDelta | src/sfx/SFXField.java:574-586 | while tracking, the follower takes the followed field's row; otherwise it steps; a refused row changes nothing |
| Fields.SetInt | src/sfx/SFXField.java:93-96 | setValue(int) of every class keeps the class, references and title, and only fails for a class outside the model or a follower with nothing to follow |
| Fields.ModifierText | src/sfx/SFXField.java:524-529 | a modifier's commands keep it in its class family; a command that does not propagate changes nothing |
| Fields.DoubleText | src/sfx/SFXField.java:301-316 | "DN n" replaces only the DN ledger and "FV n" only the FV ledger; other text changes neither |
| Fields.DoubleTextSetsLedger | src/sfx/SFXField.java:301-316 | typing "DN n" or "FV n" sets that ledger to n and keeps the other |
| Fields.ScalarsText | src/sfx/SFXField.java:204-210 | text on a scalar, charges, calculated or double field keeps its class and title, and always propagates |
| Fields.FractionsText | src/sfx/SFXField.java:1736-1746 | text on a fraction keeps its class and title and propagates; the unreal fraction also reads LEVEL |
| Fields.ValuesText | src/sfx/SFXField.java:588-596 | text on a table-backed field keeps its class and title; ENABLE and DISABLE set a follower's tracking flag |
| Fields.SetText | src/sfx/SFXField.java:99-103 | a plain field or composite takes the text as its title and propagates; every other class keeps its title |
| Fields.SetMultiplierIndex | src/sfx/SFXField.java:492-496 | only value-backed fields have a multiplier, and its index moves as setIndex allows while the row stays |
| Fields.ChildrenReduction | src/sfx/SFXField.java:1484-1497 | the reduction action succeeds exactly when every child casts to a community-class modifier |
| Fields.ChildrenReductionAppend | src/sfx/SFXField.java:1484-1497 | appending a community-class child adds that child's reduction to the action's total |
| Fields.ChildrenReductionConcat | src/sfx/SFXField.java:1484-1497 | the action's total over two runs of children is the sum of their totals, so it is the children's reductions added up |
| Fields.ChildrenCostAppend | src/sfx/SFXField.java:673-678 | appending a child adds its cost to the composite's cost |
| Fields.ChildrenCostRemove | src/sfx/SFXField.java:673-678 | removing a child takes its cost off the composite's cost |
| Fields.ChildrenCostReplace | src/sfx/SFXField.java:673-678 | changing one child changes the composite's cost by the difference |
| Fields.Attach | src/sfx/SFXField.java:1284-1290 | a specialised composite accepts only its own child class, relabels it and puts it at row 0 with the apply flag kept; a plain composite keeps the child as given |
| Fields.MarkInitial | src/sfx/SFXField.java:1277-1281 | addFirst only marks the child as initial and keeps its class |
| Formulas.HalfRoundsTowardZero | src/sfx/SFXField.java:746-758 | half of a non-negative sum rounds down, half of a negative sum rounds up, and an even sum halves exactly |
| Formulas.MandatoryIsLargerCandidate | src/sfx/SFXField.java:759-777 | Mandatory is the larger of the sub-total less casting and the half |
| Formulas.SplitPreservesTotal | src/sfx/SFXField.java:1862-1866 | the DN and FV parts always add up to the total and lie within it for a proportion in [0, 1] |
| Formulas.ComponentsLimitIsHalfSmallerPart | src/sfx/SFXField.java:1389-1412 | the limit is the rounded-up half of the smaller part, and the flag is clear exactly when both ledgers fit under it |
| Formulas.ModifiersLimitedExactly | src/sfx/SFXField.java:1784-1839 | the unreal cost is divided between the ledgers without loss; the flag is clear exactly when each ledger fits under half its part and both fit under Mandatory |
| Formulas.TotalSplitsAndClamps | src/sfx/SFXField.java:1860-1875 | the final ledgers are never negative; a larger reduction never raises its ledger; with no reductions, the parts sum to mandatory plus optional |
| Graph.ChildEvents | src/sfx/SFXField.java:1500-1516 | the changed action reports each child once, in order |
| Graph.Recompute | src/sfx/SFXField.java:106-110 | updateValue keeps each field's class and references; a field that does not propagate is unchanged; only a composite reports its children |
| Graph.RecomputeCalculated | src/sfx/SFXField.java:724-777 | the sub-total, half and Mandatory recompute only their value, keep their sources and propagate |
| Graph.RecomputeModifiers | src/sfx/SFXField.java:1784-1842 | Modifiers recomputes its ledgers and flag, keeps its sources and propagates |
| Graph.RecomputeTotal | src/sfx/SFXField.java:1860-1878 | Total recomputes its ledgers, keeps its sources and propagates |
| Graph.RecomputeComponents | src/sfx/SFXField.java:1389-1412 | Components recomputes its flag, keeps its children and sources, and reports every child changed before propagating |
| Graph.ComponentsFlag | src/sfx/SFXField.java:1395-1409 | the flag computation keeps children and sources and reports every child |
| Graph.RecomputeFollows | src/sfx/SFXField.java:598-607 | a tracking follower moves to the followed row only when it is in the table, and is otherwise unchanged |
| Graph.CostIsLocal | src/sfx/SFXField.java:610-620 | a field's cost depends only on fields ranked at or below it |
| Graph.RecomputeIsLocal | src/sfx/SFXField.java:724-777 | recomputing a field gives the same result in any registry that agrees below the field's rank |
| Graph.Update | src/sfx/SFXField.java:146-155 | an update changes nothing ranked below the field; a non-propagating update changes nothing at all; a propagating one ends with the field's own change event |
| Graph.Propagate | src/sfx/SFXField.java:146-155 | propagation changes nothing at or below the field's rank except the field, and ends by notifying the field's listeners |
| Graph.Notify | src/sfx/SFXField.java:150-153 | each dependent updated ranks above the source, and nothing at or below the source's rank changes |
| Graph.RecomputeSettles | src/sfx/SFXField.java:724-777 | recomputing again over the same sources changes nothing more |
| Graph.UpdateLeavesFresh | src/sfx/SFXField.java:146-155 | after its update a field agrees with its sources, whatever its dependents did meanwhile |
| Edits.SetValue | src/sfx/SFXField.java:93-96 | setValue(int) on a named field changes only that field and fields ranked above it; a refused step changes nothing and notifies nobody |
| Edits.SetTextOf | src/sfx/SFXField.java:99-103 | setValue(String) on a named field changes only it and fields above it; a plain field or composite takes the text as its title |
| Edits.SetMultiplier | src/sfx/SFXField.java:492-496 | setMultiplierIndex moves the index only within range, keeps the row, and always propagates |
| Edits.SetChildValue | src/sfx/SFXField.java:680-684 | a step on a child changes only that child; the composite's cost changes by the child's difference |
| Edits.SetChildText | src/sfx/SFXField.java:680-684 | text on a child changes only that child; the composite's cost changes by the child's difference |
| Edits.AddField | src/sfx/SFXField.java:680-698 | addField appends the prepared child, adds its cost, and announces it; a specialised composite's new child costs nothing and is reset twice first |
| Edits.AttachCostsNothing | src/sfx/SFXField.java:1284-1290 | a child prepared by a specialised composite adds nothing to the cost |
| Edits.RemoveField | src/sfx/SFXField.java:702-710 | listeners hear of the removal first; the child's cost leaves the composite; the composite then recomputes |
| Edits.RemoveFirst | src/sfx/SFXField.java:138-143 | List.remove drops exactly the first occurrence when present, keeping the entries before and after it in order, and changes nothing otherwise |
| Edits.RemoveFirstMultiset | src/sfx/SFXModel.java:49-52 | removing the first occurrence takes exactly one copy of the entry out of the list's multiset |
| Edits.RemoveFirstUndoesAppend | src/sfx/SFXField.java:132-143 | removing a dependent just appended, and not there before, restores the list |
| Edits.WithSource | src/sfx/SFXField.java:271-276 | the classes that keep a source list append the new source; the unreal fraction takes it as its effect; others are unchanged |
| Edits.AddDepends | src/sfx/SFXField.java:132-136 | x joins the end of y's dependents; x records y as its class requires; nothing else changes |
| Edits.WithoutSource | src/sfx/SFXField.java:279-285 | sub-totals and doubles drop the source and stop; other classes keep their references and recompute |
| Edits.RemoveDepends | src/sfx/SFXField.java:138-143 | x leaves y's dependents, and a sub-total or double forgets y without notifying anyone |
| Edits.RemoveDependsUndoesAdd | src/sfx/SFXField.java:271-285 | removeDepends undoes addDepends for a sub-total or double that had not yet recorded the source |
| Edits.SourceRoundTrip | src/sfx/SFXField.java:271-285 | recording a new source and then forgetting it gives the field back |
| Factory.SpeedSources | src/sfx/SFXFieldFactory.java:74-84 | every field Speed's factory fetches ranks below Speed |
| Factory.SubMandatorySources | src/sfx/SFXFieldFactory.java:114-123 | every field the sub-total factories fetch ranks below them |
| Factory.MultiTargetSources | src/sfx/SFXFieldFactory.java:191-206 | every field MultiTarget's factory fetches ranks below it |
| Factory.ChangeTargetSources | src/sfx/SFXFieldFactory.java:222-241 | every field ChangeTarget's factory fetches ranks below it |
| Factory.ApportationSources | src/sfx/SFXFieldFactory.java:269-298 | every field Apportation's factory fetches ranks below it |
| Factory.MaintenanceSources | src/sfx/SFXFieldFactory.java:300-324 | every field Maintenance's factory fetches ranks below it |
| Factory.FocusSources | src/sfx/SFXFieldFactory.java:326-342 | every field Focus's factory fetches ranks below it |
| Factory.OptionalSources | src/sfx/SFXFieldFactory.java:357-382 | every field Optional's factory fetches ranks below it |
| Factory.ComponentsSources | src/sfx/SFXFieldFactory.java:402-421 | every field Components' factory fetches ranks below it |
| Factory.UnrealSources | src/sfx/SFXFieldFactory.java:494-509 | every field Unreal's factory fetches ranks below it |
| Factory.ModifiersSources | src/sfx/SFXFieldFactory.java:515-534 | every field Modifiers' factory fetches ranks below it |
| Factory.TotalSources | src/sfx/SFXFieldFactory.java:550-570 | every field Total's factory fetches ranks below it |
| Factory.ConcentrationAddSources | src/sfx/SFXFieldFactory.java:586-602 | every field ConcentrationAdd's factory fetches ranks below it |
| Factory.ReceptionSources | src/sfx/SFXFieldFactory.java:604-640 | every field the Reception and Trance factories fetch ranks below them |
| Factory.SpecificSources | src/sfx/SFXFieldFactory.java:670-695 | every field the Specific total's factory fetches ranks below it |
| Factory.ValueTable | src/sfx/SFXTable.java:13-21 | every value field's table has 100 rows, each costing its index; as written it is the wrapping table, corrected the exact one |
| Factory.MandatoryWires | src/sfx/SFXFieldFactory.java:158-172 | Mandatory's factory fetches only lower-ranked fields, and once corrected it registers on every one |
| Factory.Recipe | src/sfx/SFXFieldFactory.java:154-173 | every name's factory fetches only lower-ranked fields; only the code's Mandatory adds a source without registering |
| Factory.Resolve | src/sfx/SFXFieldFactory.java:25-34 | a built field is returned unchanged; a placeholder is replaced by its factory's field, registered with what it registers on, and started by the factory's closing setValue(0); nothing ranked above changes; a missing name is an error |
| Factory.Wiring | src/sfx/SFXFieldFactory.java:114-123 | a factory resolves each fetched name, then records it; the only new dependents are registrations |
| Factory.WiredAppends | src/sfx/SFXField.java:271-276 | a sub-total, double or Components field collects its wires' names as its sources, in order |
| Factory.CorrectedReadsAreRegistered | src/sfx/SFXFieldFactory.java:158-172 | once corrected, every factory registers on every field its field reads |
| Factory.AsWrittenMissesOnlyHalf | src/sfx/SFXFieldFactory.java:166-169 | in the code, the only field read without registering is the half that Mandatory reads |
| Factory.SubMandatoryAssembled | src/sfx/SFXFieldFactory.java:114-123 | SubMandatory reads Effect, Range, Speed and Duration |
| Factory.HalfMandatoryAssembled | src/sfx/SFXFieldFactory.java:126-138 | HalfMandatory reads the same four fields |
| Factory.MandatoryAssembled | src/sfx/SFXFieldFactory.java:158-172 | Mandatory reads SubMandatory, Casting and HalfMandatory, in that order |
| Factory.SpeedFollowsRange | src/sfx/SFXFieldFactory.java:74-84 | before its closing setValue(0), Speed follows Range with tracking on, on the edition's table, and registers on Range |
| Factory.StartedTakesRow | src/sfx/SFXField.java:571-584 | setValue on a follower whose default flag is set takes the followed field's row when its own table has that row |
| Factory.SpeedStartsOnRangeRow | src/sfx/SFXFieldFactory.java:74-84 | a new Speed starts on Range's row: the row Range has moved to when it was built before, and row 0 when it is built along with Speed |
| Factory.ComponentsAssembled | src/sfx/SFXFieldFactory.java:402-421 | Components reads Mandatory, Optional and Fraction, and holds one initial component |
| Factory.ModifiersAssembled | src/sfx/SFXFieldFactory.java:515-534 | Modifiers reads its eleven sources in the order its casts expect |
| Factory.TotalAssembled | src/sfx/SFXFieldFactory.java:555-567 | Total reads Mandatory, Optional, Fraction and Modifiers |
| Factory.ResolveHearsIffRegistered | src/sfx/SFXFieldFactory.java:25-34 | building a placeholder makes it a dependent of another name exactly when its factory registers on that name |
| Factory.MandatoryHearsHalfOnlyCorrected | src/sfx/SFXFieldFactory.java:158-172 | Mandatory always reads HalfMandatory, but becomes its dependent only in the corrected wiring |
| Factory.HalfRegisteredOnlyCorrected | src/sfx/SFXFieldFactory.java:166-169 | Mandatory's factory registers on HalfMandatory only in the corrected wiring |
| Factory.FirstChildIsAttached | src/sfx/SFXField.java:1277-1290 | a specialised composite's initial child is what addField makes of a blank child of its class, marked initial |
| Staleness.RaisingEffectUpdatesMandatory | src/sfx/SFXFieldFactory.java:166-169 | raising Effect by 10 leaves the code's Mandatory at 2, stale against a half of 5; the corrected wiring gives 5 |
| Model.CreateFields | src/sfx/SFXModel.java:70-142 | every name gets a placeholder holding its key |
| Model.CreateModel | src/sfx/SFXModel.java:33-38 | a new form has no listeners, and every name is unbuilt |
| Model.GetField | src/sfx/SFXModel.java:144-147 | in either edition, a known key yields its field, built first if it was a placeholder by that edition's factory and its closing setValue(0), which reads the fields already built; listeners and keys stay; an unknown key is an error |
| Model.GetSpeedTakesRangeRow | src/sfx/SFXModel.java:144-147 | fetching Speed after Range has been fetched and moved gives a Speed on Range's row, not row 0 |
| Model.GetFieldIdempotent | src/sfx/SFXModel.java:144-147 | a second getField of the same key changes nothing and returns the same field |
| Model.EveryKeyResolves | src/sfx/SFXModel.java:74-129 | every name of a new form can be fetched by its key, and yields its factory's field in either edition |
| Model.GetMandatoryHearsHalfOnlyCorrected | src/sfx/SFXModel.java:144-147 | fetching Mandatory from a new form, it reads HalfMandatory in both editions but is HalfMandatory's dependent only when corrected |
| Model.AddListener | src/sfx/SFXModel.java:44-47 | the listener is appended, even when already registered |
| Model.RemoveListener | src/sfx/SFXModel.java:49-52 | an unknown listener is ignored; otherwise its first registration is removed and the other listeners keep their order |
| Model.RemoveUndoesAdd | src/sfx/SFXModel.java:44-52 | registering a new listener and removing it again restores the form |
| Model.Fanout | src/sfx/SFXModel.java:231-249 | an event goes to every listener, once each, in registration order |
| Model.ChildNotices | src/sfx/SFXModel.java:199-229 | each child is announced to every listener, as added or removed, under its parent's key |
| Model.ReplacePhasesInOrder | src/sfx/SFXModel.java:181-197 | for one key every removal comes before the replacement, which comes before every addition |
| Model.ReplacementReachesEveryone | src/sfx/SFXModel.java:181-197 | every listener hears the replacement |
| Model.ContentNoticesOnlyForComposites | src/sfx/SFXModel.java:199-229 | removals or additions are announced exactly when the field is a composite with children and someone listens |
| Model.ResolveKeeps | src/sfx/SFXFieldFactory.java:25-34 | fetching a field keeps every field already built, with its title and class |
| Model.ReplaceEach | src/sfx/SFXModel.java:164-176 | in either edition, every loaded key ends up built; fields already built in either map are kept; one swap per key is recorded, carrying the fields built under the key, and the notices sent are exactly the trace of those swaps in order |
| Model.ReplaceContent | src/sfx/SFXModel.java:159-179 | in either edition, the loaded map becomes the form's map with every key built; the listeners stay; the notices are, key by key in iteration order, the outgoing composite's removals, the replacement and the incoming composite's additions, where the incoming field is the one the form now holds and the outgoing one is the field the form held |
| Model.TraceReachesEveryone | src/sfx/SFXModel.java:164-197 | in the trace of a run of replacements, every listener hears every key's replacement |
| Model.TraceOfKeys | src/sfx/SFXModel.java:164-176 | the trace of two runs of keys is the first run's trace followed by the second's, so each key's notices come as one block |
| Model.ReplaceContentTellsEveryKey | src/sfx/SFXModel.java:159-197 | replaceContent tells every listener of every loaded key's replacement, bringing in the field the form holds under that key afterwards |

## Left out

- The user interface, text templating, float formatting and serialisation are
  not modelled. The classes are fixed, so reflection becomes a match on the name.
- Floats are exact rationals. The model has no float rounding, so the shared
  table's entries and closestValue's comparisons are exact.
- Arith.ParseDecimal: a number is only a plain ASCII decimal. Float.parseFloat
  also trims surrounding whitespace, and accepts Infinity, NaN, exponent,
  hexadecimal and suffix forms. The model refuses all of these, so a value
  field returns an error where the code would take or refuse the row.
- Arith.ParseInt: only ASCII digits are accepted. Integer.parseInt also
  accepts other Unicode decimal digits.
- Sums of costs are unbounded ints. Only the steps of setValue and the
  as-written table multiplier wrap at 32 bits.
- Fields of classes outside the cost core have their wiring modelled but no
  behaviour of their own: a stored cost and their source list. These classes
  are MultiTarget, ChangeTarget, VariableEffect, Maintenance, Focus,
  ConcentrationAdd, Reception, Trance, the Specific total, AreaEffect's Area
  and Volume, and Apportation's ToHit. VariableEffect and ToHit are scalars
  that cost twice their value in the code; the model gives them a stored cost.
- Edits.RemoveDepends: Total keeps one source list in the model. The code
  keeps both m_listSource and the four fields setSources stores. So after
  removeDepends on a source of Total, the model's next recompute of Total is
  an error, where the code keeps reading the removed field. Nothing in the
  modelled core removes a source of Total.
- Edits.WithoutSource: on those classes removeDepends is an error, because
  their overrides are outside the model.
- AreaEffect's internal dependencies between its children are not modelled.
- Apportation's Move child registers on Mandatory, AreaEffect, MultiTarget,
  MultiAttribute, ChangeTarget, VariableEffect and VariableDuration, and it
  follows Effect. Move is outside the model, so the factory only fetches
  those names and records no dependent.
- Edits.CommitChild: the parent is updated once per child edit.
  AreaEffect, VariableDuration and Apportation register on each initial
  child twice: once in addField, and once more by the addDepends calls that
  close AreaEffect's addFirst and the other two createField methods
  (src/sfx/SFXField.java:683, 804, 1035, 1063). So in the code
  a change of such a child updates the composite twice. The second pass
  recomputes the same values (Graph.RecomputeSettles), so only the event
  trace differs: the model reports the composite's update events once.
- Nested composites are not modelled. Children are leaves.
- Construction-time change events are not traced. These are the setValue(0)
  calls during a factory build. Their effect on values is modelled
  (Factory.Started), but not the events they send.
- Per-field listener lists are not modelled, because all fields share the
  model's list.
- Map iteration order in replaceContent is a parameter.
- A key missing from the map is an error result where the code throws a
  NullPointerException.
- Tables.NamesShortOfOffsets: Time and Gesture accept index 6, which has no
  unit name. getName there would throw. The model returns no name.
- Name cycles in the wiring would not terminate. The static rank excludes
  them, and every recipe is proved to fetch only lower-ranked names.
- Staleness.RaisingEffectUpdatesMandatory shows the finding on one concrete
  form. It gives SubMandatory only Effect as a source, so that the example
  stays small.

## Findings

| source | as written | input that shows it | evidently intended | confidence | as-written member | corrected member |
|---|---|---|---|---|---|---|
| src/sfx/SFXTable.java:42 | the multiplier is an int multiplied by 10 every five entries, so it wraps past 10^9 | the default table of range 100: entry 49 is 6·10^9, entry 50 is 1410065408, so setValue("7000000000") selects row 54 where row 50 is the first reaching row (Tables.AsWrittenSelectsLaterRow) | values keep growing tenfold, 10^10 and beyond | not executed | Tables.AsWrittenValuesDrop | Tables.ValuesIncrease |
| src/sfx/SFXFieldFactory.java:166-169 | Mandatory adds HalfMandatory to its sources without registering on it, so a change to the half does not reach Mandatory | Effect raised by 10 with Casting at 8: SubMandatory updates Mandatory to 10 − 8 = 2 first, then the half becomes 5, and Mandatory stays 2 | Mandatory recomputes after the half changes and shows 5 | not executed | Staleness.RaisingEffectUpdatesMandatory | Factory.CorrectedReadsAreRegistered |
