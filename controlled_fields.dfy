/** The controlled-field bridge: a registry, keyed by (form id, field), of the
    fields whose value lives in a store rather than in a rendered input. A
    field reads its default value until it has been hydrated; hydration seeds
    it with the default once the owning form is hydrated; writes store the new
    value and set the form's dirty flag
    (packages/remix-validated-form/src/internal/state/controlledFields.ts). */
module ControlledFields {
  import opened CoreTypes

  datatype FieldKey = FieldKey(formId: string, field: string)

  /** A registry record: whether the field has been hydrated, and its stored
      value (None while undefined). */
  datatype FieldRecord<V> = FieldRecord(hydrated: bool, value: Option<V>)

  /** The pair useControlledFieldValue returns for a field whose record is
      `rec` (None when there is no record): the value to show, then the
      field's default value. The stored value is shown only once the field is
      hydrated. */
  function ReadValue<V>(rec: Option<FieldRecord<V>>, defaultValue: V): (r: (Option<V>, V))
    ensures r.1 == defaultValue
    ensures rec.Some? && rec.value.hydrated ==> r.0 == rec.value.value
    ensures !(rec.Some? && rec.value.hydrated) ==> r.0 == Some(defaultValue)
  {
    var hydrated := rec.Some? && rec.value.hydrated;
    var stored := if rec.Some? then rec.value.value else None;
    (if hydrated then stored else Some(defaultValue), defaultValue)
  }

  /** The guard of the hydration effect. */
  predicate ShouldHydrate(formHydrated: bool, fieldHydrated: bool)
    ensures ShouldHydrate(formHydrated, fieldHydrated) ==> formHydrated
    ensures fieldHydrated ==> !ShouldHydrate(formHydrated, fieldHydrated)
  {
    formHydrated && !fieldHydrated
  }

  /** What can happen to one registered field: the hydration effect runs
      (seeing whether its form is hydrated), or a new value is written. */
  datatype Event<V> = Hydrate(formHydrated: bool, defaultValue: V) | Write(next: V)

  /** One event applied to a field's record. */
  function Step<V>(rec: FieldRecord<V>, e: Event<V>): (r: FieldRecord<V>)
    ensures rec.hydrated ==> r.hydrated
    ensures e.Write? ==> r.value == Some(e.next) && r.hydrated == rec.hydrated
    ensures e.Hydrate? && ShouldHydrate(e.formHydrated, rec.hydrated) ==>
      r == FieldRecord(true, Some(e.defaultValue))
    ensures e.Hydrate? && !ShouldHydrate(e.formHydrated, rec.hydrated) ==> r == rec
  {
    match e
    case Hydrate(formHydrated, d) =>
      if ShouldHydrate(formHydrated, rec.hydrated) then FieldRecord(true, Some(d)) else rec
    case Write(next) => FieldRecord(rec.hydrated, Some(next))
  }

  /** A sequence of events applied in order. */
  function Run<V>(rec: FieldRecord<V>, es: seq<Event<V>>): FieldRecord<V>
    decreases |es|
  {
    if es == [] then rec else Run(Step(rec, es[0]), es[1..])
  }

  /** How many of the events hydrate the field. */
  function Hydrations<V>(rec: FieldRecord<V>, es: seq<Event<V>>): nat
    decreases |es|
  {
    if es == [] then 0
    else
      var fires := es[0].Hydrate? && ShouldHydrate(es[0].formHydrated, rec.hydrated);
      (if fires then 1 else 0) + Hydrations(Step(rec, es[0]), es[1..])
  }

  /** The value of the last write among the events, or `init` if none writes. */
  function LastWrite<V>(es: seq<Event<V>>, init: Option<V>): Option<V>
    decreases |es|
  {
    if es == [] then init
    else LastWrite(es[1..], if es[0].Write? then Some(es[0].next) else init)
  }

  /** A hydrated field stays hydrated for as long as it is registered. */
  lemma {:induction false} HydratedStays<V>(rec: FieldRecord<V>, es: seq<Event<V>>)
    requires rec.hydrated
    ensures Run(rec, es).hydrated
    decreases |es|
  {
    if es != [] {
      HydratedStays(Step(rec, es[0]), es[1..]);
    }
  }

  /** Hydration happens at most once per registration, and never again once
      the field is hydrated. */
  lemma {:induction false} AtMostOneHydration<V>(rec: FieldRecord<V>, es: seq<Event<V>>)
    ensures Hydrations(rec, es) <= if rec.hydrated then 0 else 1
    decreases |es|
  {
    if es != [] {
      var next := Step(rec, es[0]);
      AtMostOneHydration(next, es[1..]);
      if !rec.hydrated && es[0].Hydrate? && ShouldHydrate(es[0].formHydrated, rec.hydrated) {
        assert next.hydrated;
      }
    }
  }

  /** Once hydrated, a field's value is the last value written to it (or the
      value it had): the default is never seeded over a later write. */
  lemma {:induction false} NoReseedAfterHydration<V>(rec: FieldRecord<V>, es: seq<Event<V>>)
    requires rec.hydrated
    ensures Run(rec, es).value == LastWrite(es, rec.value)
    decreases |es|
  {
    if es != [] {
      NoReseedAfterHydration(Step(rec, es[0]), es[1..]);
    }
  }

  /** What a hydrated field shows after any further events is the last value
      written to it. */
  lemma ReadAfterHydration<V>(rec: FieldRecord<V>, es: seq<Event<V>>, defaultValue: V)
    requires rec.hydrated
    ensures ReadValue(Some(Run(rec, es)), defaultValue).0 == LastWrite(es, rec.value)
  {
    HydratedStays(rec, es);
    NoReseedAfterHydration(rec, es);
  }

  /** The controlled-field store together with the two per-form flags of the
      form store that the bridge uses: whether the form is hydrated, and its
      dirty flag. */
  class ControlledFieldStore<V(==)> {
    var fields: map<FieldKey, FieldRecord<V>>
    var formHydrated: map<string, bool>
    var formDirty: map<string, bool>

    constructor ()
      ensures fields == map[] && formHydrated == map[] && formDirty == map[]
    {
      fields := map[];
      formHydrated := map[];
      formDirty := map[];
    }

    /** The record of a field, if it is registered. */
    function Lookup(k: FieldKey): (r: Option<FieldRecord<V>>)
      reads this`fields
      ensures r.Some? <==> k in fields
      ensures r.Some? ==> r.value == fields[k]
    {
      if k in fields then Some(fields[k]) else None
    }

    /** isControlledField: whether a record exists for the field. */
    predicate IsControlledField(k: FieldKey)
      reads this`fields
      ensures IsControlledField(k) <==> k in fields
    {
      Lookup(k).Some?
    }

    /** The form store's isHydrated flag; a form the store does not know is
        not hydrated. */
    predicate IsFormHydrated(formId: string)
      reads this`formHydrated
      ensures formId !in formHydrated ==> !IsFormHydrated(formId)
      ensures formId in formHydrated ==> (IsFormHydrated(formId) <==> formHydrated[formId])
    {
      formId in formHydrated && formHydrated[formId]
    }

    /** The field's hydrated flag, false when it has no record. */
    predicate IsFieldHydrated(k: FieldKey)
      reads this`fields
      ensures IsFieldHydrated(k) <==> Lookup(k).Some? && Lookup(k).value.hydrated
      ensures IsFieldHydrated(k) ==> IsControlledField(k)
    {
      k in fields && fields[k].hydrated
    }

    /** What the field shows, and its default value. */
    function Read(k: FieldKey, defaultValue: V): (r: (Option<V>, V))
      reads this`fields
      ensures r.1 == defaultValue
      ensures !IsFieldHydrated(k) ==> r.0 == Some(defaultValue)
      ensures IsFieldHydrated(k) ==> r.0 == fields[k].value
    {
      ReadValue(Lookup(k), defaultValue)
    }

    /** The owning form becomes hydrated (its default values are known). */
    method MarkFormHydrated(formId: string)
      modifies this`formHydrated
      ensures formHydrated == old(formHydrated)[formId := true]
    {
      formHydrated := formHydrated[formId := true];
    }

    /** Mount: registers the field, keeping an existing record. */
    method Register(k: FieldKey)
      modifies this`fields
      ensures IsControlledField(k)
      ensures k in old(fields) ==> fields == old(fields)
      ensures k !in old(fields) ==> fields == old(fields)[k := FieldRecord(false, None)]
    {
      if k !in fields {
        fields := fields[k := FieldRecord(false, None)];
      }
    }

    /** Unmount: unregisters the field. */
    method Unregister(k: FieldKey)
      modifies this`fields
      ensures !IsControlledField(k)
      ensures fields == old(fields) - {k}
    {
      fields := fields - {k};
    }

    /** The hydration effect: seeds the field with its default value when the
        form is hydrated and the field is not. The store write, like SetValue's,
        only updates a registered field. */
    method HydrationEffect(k: FieldKey, defaultValue: V)
      modifies this`fields
      ensures k in old(fields) && ShouldHydrate(IsFormHydrated(k.formId), old(IsFieldHydrated(k))) ==>
        fields == old(fields)[k := FieldRecord(true, Some(defaultValue))]
      ensures !(k in old(fields) && ShouldHydrate(IsFormHydrated(k.formId), old(IsFieldHydrated(k)))) ==>
        fields == old(fields)
      ensures k in old(fields) ==>
        fields[k] == Step(old(fields)[k], Hydrate(IsFormHydrated(k.formId), defaultValue))
      ensures IsControlledField(k) <==> old(IsControlledField(k))
      ensures k in old(fields) && IsFormHydrated(k.formId) ==> IsFieldHydrated(k)
      ensures old(IsFieldHydrated(k)) ==> Read(k, defaultValue) == old(Read(k, defaultValue))
    {
      if k in fields && ShouldHydrate(IsFormHydrated(k.formId), IsFieldHydrated(k)) {
        fields := fields[k := FieldRecord(true, Some(defaultValue))];
      }
    }

    /** The setter returned by useUpdateControllableValue: the store write
        alone, which leaves the form's dirty flag as it is. */
    method UpdateValue(k: FieldKey, next: V)
      modifies this`fields
      ensures k in old(fields) ==> fields == old(fields)[k := Step(old(fields)[k], Write(next))]
      ensures k !in old(fields) ==> fields == old(fields)
      ensures IsControlledField(k) <==> old(IsControlledField(k))
      ensures IsFieldHydrated(k) <==> old(IsFieldHydrated(k))
      ensures forall d :: IsFieldHydrated(k) ==> Read(k, d).0 == Some(next)
      ensures forall j :: j != k ==> Lookup(j) == old(Lookup(j))
    {
      if k in fields {
        fields := fields[k := FieldRecord(fields[k].hydrated, Some(next))];
      }
    }

    /** The setter returned by useControllableValue: the store write, then the
        form's dirty flag set to "differs from the default". */
    method SetValue(k: FieldKey, next: V, defaultValue: V)
      modifies this`fields, this`formDirty
      ensures k in old(fields) ==> fields == old(fields)[k := Step(old(fields)[k], Write(next))]
      ensures k !in old(fields) ==> fields == old(fields)
      ensures formDirty == old(formDirty)[k.formId := next != defaultValue]
      ensures IsFieldHydrated(k) <==> old(IsFieldHydrated(k))
      ensures IsFieldHydrated(k) ==> Read(k, defaultValue).0 == Some(next)
      ensures forall j :: j != k ==> Lookup(j) == old(Lookup(j))
    {
      UpdateValue(k, next);
      formDirty := formDirty[k.formId := next != defaultValue];
    }
  }

  /** Hydrate, write, re-render: the re-run effect does not put the default back. */
  method HydrateOnceScenario(d: string, typed: string)
  {
    var k := FieldKey("form", "name");
    var store := new ControlledFieldStore<string>();
    store.Register(k);
    store.HydrationEffect(k, d);
    assert store.Read(k, d).0 == Some(d);

    store.MarkFormHydrated("form");
    store.HydrationEffect(k, d);
    assert store.Read(k, d).0 == Some(d);

    store.SetValue(k, typed, d);
    assert store.formDirty["form"] == (typed != d);
    store.HydrationEffect(k, d);
    assert store.Read(k, d).0 == Some(typed);

    store.UpdateValue(k, d);
    assert store.Read(k, d).0 == Some(d);
    assert store.formDirty["form"] == (typed != d);

    store.Unregister(k);
    assert !store.IsControlledField(k);
    store.HydrationEffect(k, d);
    assert !store.IsControlledField(k) && store.Read(k, d).0 == Some(d);
  }
}
