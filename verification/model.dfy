/**
 * SFXModel: the form's map of named fields and the listeners of the form.
 *
 * The map starts with one placeholder per name; getField builds a field on
 * first access (see Factory). Loading a saved form replaces the content key
 * by key: every listener is told that the children of the outgoing
 * composite are removed, then that the field is replaced, then that the
 * children of the incoming composite are added; finally the loaded map
 * becomes the form's map.
 *
 * Every operation that builds fields takes the `Edition` it builds them
 * with: the factories as written, or with the default table and the
 * Mandatory wiring corrected.
 */
module Model {
  import opened Wrappers
  import opened Fields
  import opened Graph
  import opened Edits
  import opened Factory
  import Catalog

  /** A listener, by identity. */
  type Listener = nat

  /** One call on one listener. */
  datatype Notice = Notice(listener: Listener, event: Event)

  /** The state of an SFXModel: its listeners in registration order and its
      map of named fields. */
  datatype Form = Form(listeners: seq<Listener>, fields: Registry)

  /* ---------------------------------------------------------------------
     Creation and access
     --------------------------------------------------------------------- */

  /** createFields: a placeholder under every name, holding the name's key. */
  function CreateFields(): (r: Registry)
    ensures Complete(r)
    ensures forall x :: x in r ==> r[x] == Slot.Pending(Catalog.Key(x))
  {
    Catalog.AllIdsComplete();
    map x: FieldId | x in Catalog.AllIds :: Slot.Pending(Catalog.Key(x))
  }

  /** createModel: no listeners, every name a placeholder. */
  function CreateModel(): (m: Form)
    ensures m.listeners == [] && Complete(m.fields)
    ensures forall x :: x in m.fields ==> !IsBuilt(m.fields, x)
  {
    Form([], CreateFields())
  }

  /** getField(key): the field stored under the key, built first if it is
      still a placeholder. A key the map does not hold is an error (the map
      lookup yields null). */
  function GetField(m: Form, key: string, e: Edition): (res: Result<(Form, Field)>)
    ensures res.Ok? <==> Catalog.Lookup(key).Some? && Resolve(m.fields, Catalog.Lookup(key).value, e).Ok?
    ensures Catalog.Lookup(key).Some? && Complete(m.fields) ==> res.Ok?
    ensures res.Ok? ==> && res.value.0.listeners == m.listeners
                        && res.value.0.fields.Keys == m.fields.Keys
                        && var x := Catalog.Lookup(key).value;
                           IsBuilt(res.value.0.fields, x) && res.value.1 == res.value.0.fields[x].field
    ensures res.Ok? && IsBuilt(m.fields, Catalog.Lookup(key).value) ==> res.value.0 == m
    ensures res.Ok? && !IsBuilt(m.fields, Catalog.Lookup(key).value) ==>
      res.value.1.kind == Started(res.value.0.fields, Catalog.Lookup(key).value, Assembled(Catalog.Lookup(key).value, e))
  {
    match Catalog.Lookup(key)
    case None => Err(Misuse)
    case Some(x) =>
      var r :- Resolve(m.fields, x, e);
      Ok((m.(fields := r), r[x].field))
  }

  /** A second getField of the same key changes nothing and returns the same
      field. */
  lemma GetFieldIdempotent(m: Form, key: string, e: Edition)
    requires GetField(m, key, e).Ok?
    ensures GetField(GetField(m, key, e).value.0, key, e) == GetField(m, key, e)
  {
  }

  /** Every name of a new form can be fetched by its key. */
  lemma EveryKeyResolves(x: FieldId, e: Edition)
    ensures GetField(CreateModel(), Catalog.Key(x), e).Ok?
    ensures var res := GetField(CreateModel(), Catalog.Key(x), e).value;
      res.1.kind == Started(res.0.fields, x, Assembled(x, e))
  {
    var m := CreateModel();
    Catalog.LookupInvertsKey(x);
    assert x in m.fields && !IsBuilt(m.fields, x);
  }

  /** getField("Speed") after Range has been fetched and moved: the new
      Speed starts on the row Range is on, not at row 0. */
  lemma GetSpeedTakesRangeRow(m: Form, e: Edition)
    requires Complete(m.fields) && !IsBuilt(m.fields, Catalog.Speed)
    requires Ready(m.fields, Catalog.Range) && m.fields[Catalog.Range].field.kind.ValueField?
    requires !Tables.OutRange(ValueTable(e), m.fields[Catalog.Range].field.kind.v.index)
    ensures GetField(m, Catalog.Key(Catalog.Speed), e).Ok?
    ensures var f := GetField(m, Catalog.Key(Catalog.Speed), e).value.1;
      f.kind.FollowsField? && f.kind.v.index == m.fields[Catalog.Range].field.kind.v.index
  {
    Catalog.LookupInvertsKey(Catalog.Speed);
    SpeedStartsOnRangeRow(m.fields, e);
  }

  /** Fetching Mandatory from a new form: it reads HalfMandatory either way,
      but HalfMandatory lists it as a dependent only when corrected, so as
      written a change of the half never reaches Mandatory. */
  lemma GetMandatoryHearsHalfOnlyCorrected(e: Edition)
    ensures GetField(CreateModel(), Catalog.Key(Catalog.Mandatory), e).Ok?
    ensures var m := GetField(CreateModel(), Catalog.Key(Catalog.Mandatory), e).value.0;
      && IsBuilt(m.fields, Catalog.Mandatory)
      && Catalog.HalfMandatory in Refs(m.fields[Catalog.Mandatory].field.kind)
      && (Catalog.Mandatory in DepsOf(m.fields, Catalog.HalfMandatory) <==> e == Corrected)
  {
    var r := CreateFields();
    assert Catalog.Lookup(Catalog.Key(Catalog.Mandatory)) == Some(Catalog.Mandatory) by {
      Catalog.LookupInvertsKey(Catalog.Mandatory);
    }
    assert !IsBuilt(r, Catalog.Mandatory) && DepsOf(r, Catalog.HalfMandatory) == [] by {
      assert r[Catalog.Mandatory].Pending? && r[Catalog.HalfMandatory].Pending?;
    }
    MandatoryHearsHalfOnlyCorrected(r, e);
    var r2 := Resolve(r, Catalog.Mandatory, e).value;
    assert GetField(CreateModel(), Catalog.Key(Catalog.Mandatory), e) == Ok((Form([], r2), r2[Catalog.Mandatory].field));
  }

  /* ---------------------------------------------------------------------
     Listeners
     --------------------------------------------------------------------- */

  /** addListener: appended, even when already registered. */
  function AddListener(m: Form, l: Listener): (res: Form)
    ensures res.fields == m.fields
    ensures multiset(res.listeners) == multiset(m.listeners) + multiset{l}
    ensures |res.listeners| == |m.listeners| + 1 && res.listeners[..|m.listeners|] == m.listeners
  {
    m.(listeners := m.listeners + [l])
  }

  /** removeListener: removes one registration of a listener; an unknown
      listener is ignored. */
  function RemoveListener(m: Form, l: Listener): (res: Form)
    ensures res.fields == m.fields
    ensures l !in m.listeners ==> res == m
    ensures l in m.listeners ==> var i := FirstIndex(m.listeners, l);
      res.listeners == m.listeners[..i] + m.listeners[i + 1..]
    ensures l in m.listeners ==> multiset(res.listeners) == multiset(m.listeners) - multiset{l}
  {
    if l in m.listeners then
      var rest := RemoveFirst(m.listeners, l);
      assert multiset(rest) == multiset(m.listeners) - multiset{l} by {
        RemoveFirstMultiset(m.listeners, l);
      }
      m.(listeners := rest)
    else m
  }

  /** Registering a new listener and removing it again restores the form. */
  lemma {:induction false} RemoveUndoesAdd(m: Form, l: Listener)
    requires l !in m.listeners
    ensures RemoveListener(AddListener(m, l), l) == m
  {
    RemoveFirstUndoesAppend(m.listeners, l);
  }

  /* ---------------------------------------------------------------------
     replaceContent
     --------------------------------------------------------------------- */

  /** One event told to every listener, in registration order. */
  function Fanout(ls: seq<Listener>, ev: Event): (ns: seq<Notice>)
    ensures |ns| == |ls|
    ensures forall i :: 0 <= i < |ls| ==> ns[i] == Notice(ls[i], ev)
  {
    seq(|ls|, i requires 0 <= i < |ls| => Notice(ls[i], ev))
  }

  /** removeContentListeners: for a composite, each child in turn is
      announced as removed to every listener; other classes announce
      nothing. */
  function RemoveContent(ls: seq<Listener>, key: FieldId, f: Field): seq<Notice> {
    if f.kind.CompositeField? then ChildNotices(ls, key, f.kind.children, false) else []
  }

  /** addContentListeners: the same for the children of the incoming
      composite, announced as added. */
  function AddContent(ls: seq<Listener>, key: FieldId, f: Field): seq<Notice> {
    if f.kind.CompositeField? then ChildNotices(ls, key, f.kind.children, true) else []
  }

  /** The children announced one by one, each to every listener. */
  function ChildNotices(ls: seq<Listener>, key: FieldId, cs: seq<Child>, added: bool): (ns: seq<Notice>)
    ensures |ns| == |cs| * |ls|
    ensures forall n :: n in ns ==> && n.listener in ls
                                    && (if added then n.event.Added? else n.event.Removed?)
                                    && n.event.parent == key && n.event.child in cs
  {
    if |cs| == 0 then []
    else
      var rest := ChildNotices(ls, key, cs[1..], added);
      assert forall c :: c in cs[1..] ==> c in cs;
      Fanout(ls, if added then Added(key, cs[0]) else Removed(key, cs[0])) + rest
  }

  /** replaceContentListeners: the outgoing composite's children removed,
      the replacement, the incoming composite's children added. */
  function ReplaceNotices(ls: seq<Listener>, key: FieldId, outgoing: Field, incoming: Field): seq<Notice> {
    RemoveContent(ls, key, outgoing) + Fanout(ls, Replaced(key, outgoing, incoming)) + AddContent(ls, key, incoming)
  }

  /** The phase of a notice within one replacement. */
  function Phase(n: Notice): nat {
    match n.event
    case Removed(_, _) => 0
    case Replaced(_, _, _) => 1
    case _ => 2
  }

  /** Within one key every removal comes before every replacement, and every
      replacement before every addition. */
  lemma ReplacePhasesInOrder(ls: seq<Listener>, key: FieldId, outgoing: Field, incoming: Field)
    ensures var ns := ReplaceNotices(ls, key, outgoing, incoming);
      forall i, j :: 0 <= i < j < |ns| ==> Phase(ns[i]) <= Phase(ns[j])
  {
    var a := RemoveContent(ls, key, outgoing);
    var b := Fanout(ls, Replaced(key, outgoing, incoming));
    var c := AddContent(ls, key, incoming);
    var ns := a + b + c;
    forall i, j | 0 <= i < j < |ns| ensures Phase(ns[i]) <= Phase(ns[j]) {
      NoticePhase(a, b, c, i);
      NoticePhase(a, b, c, j);
    }
  }

  /** The phase of a notice is that of the part it comes from. */
  lemma NoticePhase(a: seq<Notice>, b: seq<Notice>, c: seq<Notice>, i: int)
    requires forall n :: n in a ==> n.event.Removed?
    requires forall n :: n in b ==> n.event.Replaced?
    requires forall n :: n in c ==> n.event.Added?
    requires 0 <= i < |a + b + c|
    ensures Phase((a + b + c)[i]) == if i < |a| then 0 else if i < |a| + |b| then 1 else 2
  {
    if i < |a| { assert (a + b + c)[i] == a[i]; }
    else if i < |a| + |b| { assert (a + b + c)[i] == b[i - |a|]; }
    else { assert (a + b + c)[i] == c[i - |a| - |b|]; }
  }

  /** Every listener hears the replacement. */
  lemma ReplacementReachesEveryone(ls: seq<Listener>, key: FieldId, outgoing: Field, incoming: Field)
    ensures forall l :: l in ls ==> Notice(l, Replaced(key, outgoing, incoming)) in ReplaceNotices(ls, key, outgoing, incoming)
  {
    var a := RemoveContent(ls, key, outgoing);
    var b := Fanout(ls, Replaced(key, outgoing, incoming));
    var ns := ReplaceNotices(ls, key, outgoing, incoming);
    forall l | l in ls ensures Notice(l, Replaced(key, outgoing, incoming)) in ns {
      var i :| 0 <= i < |ls| && ls[i] == l;
      assert ns[|a| + i] == b[i];
    }
  }

  /** Removals are announced exactly when the outgoing field is a composite
      with children and someone listens; likewise additions for the
      incoming field. A field of any other class adds nothing around its
      replacement. */
  lemma ContentNoticesOnlyForComposites(ls: seq<Listener>, key: FieldId, outgoing: Field, incoming: Field)
    ensures (exists n :: n in ReplaceNotices(ls, key, outgoing, incoming) && n.event.Removed?) <==>
      outgoing.kind.CompositeField? && |outgoing.kind.children| > 0 && |ls| > 0
    ensures (exists n :: n in ReplaceNotices(ls, key, outgoing, incoming) && n.event.Added?) <==>
      incoming.kind.CompositeField? && |incoming.kind.children| > 0 && |ls| > 0
  {
    var a := RemoveContent(ls, key, outgoing);
    var b := Fanout(ls, Replaced(key, outgoing, incoming));
    var c := AddContent(ls, key, incoming);
    var ns := a + b + c;
    assert forall n :: n in b ==> n.event.Replaced? by {
      forall n | n in b ensures n.event.Replaced? {
        var i :| 0 <= i < |b| && b[i] == n;
      }
    }
    if outgoing.kind.CompositeField? && |outgoing.kind.children| > 0 && |ls| > 0 {
      assert a[0] == Notice(ls[0], Removed(key, outgoing.kind.children[0]));
      assert ns[0] == a[0];
    }
    if incoming.kind.CompositeField? && |incoming.kind.children| > 0 && |ls| > 0 {
      assert c[0] == Notice(ls[0], Added(key, incoming.kind.children[0]));
      assert ns[|a| + |b|] == c[0];
    }
  }

  /** The map's keys in some iteration order: each exactly once. */
  predicate Enumerates(order: seq<FieldId>, load: Registry) {
    && (forall x :: x in load <==> x in order)
    && forall i, j :: 0 <= i < j < |order| ==> order[i] != order[j]
  }

  /** One replacement as replaceContentListeners announces it: the field
      going out and the field coming in. */
  datatype Swap = Swap(outgoing: Field, incoming: Field)

  /** The notices of a run of replacements, key by key in `order`: each
      key's removals, replacement and additions, before the next key's. */
  function Trace(ls: seq<Listener>, order: seq<FieldId>, sw: seq<Swap>): seq<Notice>
    requires |sw| == |order|
    decreases |order|
  {
    if |order| == 0 then []
    else ReplaceNotices(ls, order[0], sw[0].outgoing, sw[0].incoming) + Trace(ls, order[1..], sw[1..])
  }

  /** Every listener hears every key's replacement. */
  lemma {:induction false} TraceReachesEveryone(ls: seq<Listener>, order: seq<FieldId>, sw: seq<Swap>)
    requires |sw| == |order|
    ensures forall i, l :: 0 <= i < |order| && l in ls ==>
      Notice(l, Replaced(order[i], sw[i].outgoing, sw[i].incoming)) in Trace(ls, order, sw)
    decreases |order|
  {
    if |order| > 0 {
      var head := ReplaceNotices(ls, order[0], sw[0].outgoing, sw[0].incoming);
      var tail := Trace(ls, order[1..], sw[1..]);
      TraceReachesEveryone(ls, order[1..], sw[1..]);
      ReplacementReachesEveryone(ls, order[0], sw[0].outgoing, sw[0].incoming);
      forall i, l | 0 < i < |order| && l in ls
        ensures Notice(l, Replaced(order[i], sw[i].outgoing, sw[i].incoming)) in head + tail
      {
        assert order[1..][i - 1] == order[i] && sw[1..][i - 1] == sw[i];
      }
    }
  }

  /** The notices of one key come as one block: the trace of a run is the
      first key's replacement notices followed by the trace of the rest. */
  lemma {:induction false} TraceOfKeys(ls: seq<Listener>, a: seq<FieldId>, b: seq<FieldId>, sa: seq<Swap>, sb: seq<Swap>)
    requires |sa| == |a| && |sb| == |b|
    ensures Trace(ls, a + b, sa + sb) == Trace(ls, a, sa) + Trace(ls, b, sb)
    decreases |a|
  {
    if |a| == 0 {
      assert a + b == b && sa + sb == sb;
    } else {
      assert (a + b)[1..] == a[1..] + b && (sa + sb)[1..] == sa[1..] + sb;
      assert (a + b)[0] == a[0] && (sa + sb)[0] == sa[0];
      TraceOfKeys(ls, a[1..], b, sa[1..], sb);
    }
  }

  /** The swap announced for `k` brings in the field the loaded map ends up
      with, and sends out the field `before` held, when it held a built one. */
  predicate Swapped(before: Registry, after: Registry, k: FieldId, s: Swap) {
    && IsBuilt(after, k) && s.incoming.title == after[k].field.title && s.incoming.kind == after[k].field.kind
    && (IsBuilt(before, k) ==> s.outgoing.title == before[k].field.title && s.outgoing.kind == before[k].field.kind)
  }

  /** Where replaceContent stands: the form's map so far, the loaded map so
      far, the replacements announced and the notices sent. */
  datatype Progress = Progress(current: Registry, load: Registry, swaps: seq<Swap>, notices: seq<Notice>)

  /** The swap announced for `k` carries the field built under `k` in
      each map: the form's going out, the loaded one coming in. */
  predicate Announced(current: Registry, load: Registry, k: FieldId, s: Swap) {
    && IsBuilt(current, k) && IsBuilt(load, k)
    && s.outgoing.title == current[k].field.title && s.outgoing.kind == current[k].field.kind
    && s.incoming.title == load[k].field.title && s.incoming.kind == load[k].field.kind
  }

  /** The field under `x` is still built, with the same title and class. */
  predicate Kept(r: Registry, r2: Registry, x: FieldId)
    requires IsBuilt(r, x)
  {
    IsBuilt(r2, x) && r2[x].field.title == r[x].field.title && r2[x].field.kind == r[x].field.kind
  }

  /** What the loop of replaceContent promises once it has run over
      `order` from `p` to `q`: the loaded map keeps its keys and every field
      already built in either map; every key of `order` is built in the
      loaded map; one swap is announced per key, carrying the fields built
      under it; and the notices sent are the trace of those swaps, each to
      a registered listener. */
  predicate EachDone(ls: seq<Listener>, p: Progress, order: seq<FieldId>, q: Progress) {
    && q.load.Keys == p.load.Keys
    && (forall x :: IsBuilt(p.load, x) ==> Kept(p.load, q.load, x))
    && (forall x :: IsBuilt(p.current, x) ==> Kept(p.current, q.current, x))
    && (forall x :: x in order ==> IsBuilt(q.load, x))
    && (forall n :: n in q.notices ==> n in p.notices || n.listener in ls)
    && |q.swaps| == |p.swaps| + |order| && q.swaps[..|p.swaps|] == p.swaps
    && q.notices == p.notices + Trace(ls, order, q.swaps[|p.swaps|..])
    && forall i :: 0 <= i < |order| ==> Announced(q.current, q.load, order[i], q.swaps[|p.swaps| + i])
  }

  /** The loop of replaceContent over `order`: each loaded field is built
      in the loaded map, the field it replaces is fetched from the form's map
      with getField, and the listeners are told. */
  function ReplaceEach(ls: seq<Listener>, p: Progress, order: seq<FieldId>, e: Edition): (res: Result<Progress>)
    requires forall x :: x in order ==> x in p.load
    ensures res.Ok? ==> EachDone(ls, p, order, res.value)
    ensures Complete(p.current) && Complete(p.load) ==> res.Ok?
    decreases |order|
  {
    if |order| == 0 then Ok(p)
    else
      var key := order[0];
      var load :- Resolve(p.load, key, e);
      var current :- Resolve(p.current, key, e);
      var sw := Swap(current[key].field, load[key].field);
      var q := Progress(current, load, p.swaps + [sw], p.notices + ReplaceNotices(ls, key, sw.outgoing, sw.incoming));
      assert forall x :: x in order[1..] ==> x in order;
      var res :- ReplaceEach(ls, q, order[1..], e);
      ResolveKeeps(p.load, key, e);
      ResolveKeeps(p.current, key, e);
      EachStep(ls, p, order, load, current, q, res);
      Ok(res)
  }

  /** One step of the loop and the rest of it make the whole. */
  lemma EachStep(ls: seq<Listener>, p: Progress, order: seq<FieldId>,
                 load: Registry, current: Registry, q: Progress, res: Progress)
    requires |order| > 0 && IsBuilt(load, order[0]) && IsBuilt(current, order[0]) && load.Keys == p.load.Keys
    requires forall z :: IsBuilt(p.load, z) ==> Kept(p.load, load, z)
    requires forall z :: IsBuilt(p.current, z) ==> Kept(p.current, current, z)
    requires q == Progress(current, load, p.swaps + [Swap(current[order[0]].field, load[order[0]].field)],
                           p.notices + ReplaceNotices(ls, order[0], current[order[0]].field, load[order[0]].field))
    requires EachDone(ls, q, order[1..], res)
    ensures EachDone(ls, p, order, res)
  {
    var key := order[0];
    var sw := Swap(current[key].field, load[key].field);
    assert forall n :: n in res.notices ==> n in p.notices || n.listener in ls by {
      ReplaceNoticesReachListeners(ls, key, sw.outgoing, sw.incoming);
    }
    KeptTransitive(p.load, load, res.load);
    KeptTransitive(p.current, current, res.current);
    EachAnnounces(ls, p, current, load, res, order, sw);
  }

  /** The swaps and notices of one step and of the rest are those of the
      whole run. */
  lemma EachAnnounces(ls: seq<Listener>, p: Progress, current: Registry, load: Registry, res: Progress,
                      order: seq<FieldId>, sw: Swap)
    requires |order| > 0 && IsBuilt(current, order[0]) && IsBuilt(load, order[0])
    requires sw == Swap(current[order[0]].field, load[order[0]].field)
    requires Kept(current, res.current, order[0]) && Kept(load, res.load, order[0])
    requires |res.swaps| == |p.swaps| + |order| && res.swaps[..|p.swaps| + 1] == p.swaps + [sw]
    requires res.notices == (p.notices + ReplaceNotices(ls, order[0], sw.outgoing, sw.incoming))
                            + Trace(ls, order[1..], res.swaps[|p.swaps| + 1..])
    requires forall i :: 0 <= i < |order| - 1 ==> Announced(res.current, res.load, order[1..][i], res.swaps[|p.swaps| + 1 + i])
    ensures res.swaps[..|p.swaps|] == p.swaps
    ensures res.notices == p.notices + Trace(ls, order, res.swaps[|p.swaps|..])
    ensures forall i :: 0 <= i < |order| ==> Announced(res.current, res.load, order[i], res.swaps[|p.swaps| + i])
  {
    assert res.swaps[|p.swaps|] == sw by {
      assert res.swaps[|p.swaps|] == res.swaps[..|p.swaps| + 1][|p.swaps|];
    }
    EachTraces(ls, p, res, order, sw);
    forall i | 0 <= i < |order|
      ensures Announced(res.current, res.load, order[i], res.swaps[|p.swaps| + i])
    {
      if i > 0 {
        assert order[1..][i - 1] == order[i];
      }
    }
  }

  /** The notices of one step followed by the trace of the rest are the
      trace of the whole run. */
  lemma EachTraces(ls: seq<Listener>, p: Progress, res: Progress, order: seq<FieldId>, sw: Swap)
    requires |order| > 0
    requires |res.swaps| == |p.swaps| + |order| && res.swaps[..|p.swaps| + 1] == p.swaps + [sw]
    requires res.notices == (p.notices + ReplaceNotices(ls, order[0], sw.outgoing, sw.incoming))
                            + Trace(ls, order[1..], res.swaps[|p.swaps| + 1..])
    ensures res.swaps[..|p.swaps|] == p.swaps
    ensures res.notices == p.notices + Trace(ls, order, res.swaps[|p.swaps|..])
  {
    var n := |p.swaps|;
    var t := res.swaps[n..];
    assert res.swaps[..n] == p.swaps by {
      assert res.swaps[..n] == res.swaps[..n + 1][..n];
    }
    assert t[0] == sw by {
      assert t[0] == res.swaps[..n + 1][n];
    }
    assert t[1..] == res.swaps[n + 1..];
    var head := ReplaceNotices(ls, order[0], sw.outgoing, sw.incoming);
    var rest := Trace(ls, order[1..], t[1..]);
    assert Trace(ls, order, t) == head + rest;
    assert (p.notices + head) + rest == p.notices + (head + rest);
  }

  /** getInstance keeps every field already built. */
  lemma ResolveKeeps(r: Registry, x: FieldId, e: Edition)
    requires Resolve(r, x, e).Ok?
    ensures forall z :: IsBuilt(r, z) ==> Kept(r, Resolve(r, x, e).value, z)
  {
  }

  lemma KeptTransitive(a: Registry, b: Registry, c: Registry)
    requires forall z :: IsBuilt(a, z) ==> Kept(a, b, z)
    requires forall z :: IsBuilt(b, z) ==> Kept(b, c, z)
    ensures forall z :: IsBuilt(a, z) ==> Kept(a, c, z)
  {
  }

  /** Every notice of one replacement goes to a registered listener. */
  lemma ReplaceNoticesReachListeners(ls: seq<Listener>, key: FieldId, outgoing: Field, incoming: Field)
    ensures forall n :: n in ReplaceNotices(ls, key, outgoing, incoming) ==> n.listener in ls
  {
    var b := Fanout(ls, Replaced(key, outgoing, incoming));
    forall n | n in b ensures n.listener in ls {
      var i :| 0 <= i < |b| && b[i] == n;
      assert n.listener == ls[i];
    }
  }

  /** replaceContent(loadModel): every key of the loaded map is replaced in
      iteration order `order`, then the loaded map becomes the form's map.
      The listeners stay. The notices are, key by key in that order, the
      old field's children removed, the old field replaced by the loaded
      one, and the loaded field's children added; when the form already
      held a built field under the key, that field is the one going out. */
  function ReplaceContent(m: Form, load: Registry, order: seq<FieldId>, e: Edition): (res: Result<(Form, seq<Notice>)>)
    requires Enumerates(order, load)
    ensures Complete(m.fields) && Complete(load) ==> res.Ok?
    ensures res.Ok? ==> && res.value.0.listeners == m.listeners
                        && res.value.0.fields.Keys == load.Keys
                        && (forall x :: x in load ==> IsBuilt(res.value.0.fields, x))
                        && (forall x :: IsBuilt(load, x) ==> Kept(load, res.value.0.fields, x))
                        && forall n :: n in res.value.1 ==> n.listener in m.listeners
    ensures res.Ok? ==> exists sw :: && |sw| == |order| && res.value.1 == Trace(m.listeners, order, sw)
                                     && forall i :: 0 <= i < |order| ==> Swapped(m.fields, res.value.0.fields, order[i], sw[i])
  {
    var p :- ReplaceEach(m.listeners, Progress(m.fields, load, [], []), order, e);
    EachSwaps(m.listeners, Progress(m.fields, load, [], []), order, p);
    Ok((Form(m.listeners, p.load), p.notices))
  }

  /** A run of the loop from the start: its swaps are one per key, its
      notices are exactly their trace, and each swap carries the field the
      form held and the field the loaded map ends with. */
  lemma EachSwaps(ls: seq<Listener>, p: Progress, order: seq<FieldId>, q: Progress)
    requires p.swaps == [] && p.notices == []
    requires EachDone(ls, p, order, q)
    ensures |q.swaps| == |order| && q.notices == Trace(ls, order, q.swaps)
    ensures forall i :: 0 <= i < |order| ==> Swapped(p.current, q.load, order[i], q.swaps[i])
  {
    assert q.swaps[0..] == q.swaps;
    forall i | 0 <= i < |order| ensures Swapped(p.current, q.load, order[i], q.swaps[i]) {
      assert Announced(q.current, q.load, order[i], q.swaps[i]);
      if IsBuilt(p.current, order[i]) {
        assert Kept(p.current, q.current, order[i]);
      }
    }
  }

  /** replaceContent tells every listener of every loaded key's
      replacement, and the field it announces as coming in is the field the
      form holds under that key afterwards. */
  lemma ReplaceContentTellsEveryKey(m: Form, load: Registry, order: seq<FieldId>, e: Edition, k: FieldId, l: Listener)
    requires Enumerates(order, load) && ReplaceContent(m, load, order, e).Ok?
    requires k in load && l in m.listeners
    ensures var res := ReplaceContent(m, load, order, e).value;
      exists n :: && n in res.1 && n.listener == l && n.event.Replaced? && n.event.key == k
                  && n.event.incoming.title == res.0.fields[k].field.title
                  && n.event.incoming.kind == res.0.fields[k].field.kind
  {
    var res := ReplaceContent(m, load, order, e).value;
    var sw: seq<Swap> :| && |sw| == |order| && res.1 == Trace(m.listeners, order, sw)
              && forall i :: 0 <= i < |order| ==> Swapped(m.fields, res.0.fields, order[i], sw[i]);
    var i :| 0 <= i < |order| && order[i] == k;
    TraceReachesEveryone(m.listeners, order, sw);
    assert Swapped(m.fields, res.0.fields, order[i], sw[i]);
    assert Notice(l, Replaced(k, sw[i].outgoing, sw[i].incoming)) in res.1;
  }
}
