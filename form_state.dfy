/** The state of one form as the React package exposes it: submission status,
    per-path dirty / touched / error records, current values and default
    values. Validator and transport outcomes arrive as explicit events
    (ResolveValidation, TransportResolve, TransportReject) instead of promises.
    The behaviour is the one pinned down by packages/react/src/test/state.test.tsx. */
module FormState {
  import CoreTypes
  import opened Values

  /** Submission status as the React form state reports it. */
  datatype SubmitStatus = Idle | Submitting | Error | Success

  /** The core package's name for each React status: the in-flight state is
      `submitting` here and `loading` there. */
  function ToCoreStatus(s: SubmitStatus): (c: CoreTypes.SubmitStatus)
    ensures c.Loading? <==> s.Submitting?
  {
    match s
    case Idle => CoreTypes.Idle
    case Submitting => CoreTypes.Loading
    case Error => CoreTypes.Error
    case Success => CoreTypes.Success
  }

  function FromCoreStatus(c: CoreTypes.SubmitStatus): (s: SubmitStatus)
    ensures s.Submitting? <==> c.Loading?
  {
    match c
    case Idle => Idle
    case Loading => Submitting
    case Error => Error
    case Success => Success
  }

  /** The two status enumerations correspond one to one. */
  lemma StatusMappingBijective(s: SubmitStatus, c: CoreTypes.SubmitStatus)
    ensures FromCoreStatus(ToCoreStatus(s)) == s
    ensures ToCoreStatus(FromCoreStatus(c)) == c
  {
  }

  /** The error map a validation result leaves behind. */
  function ErrorsOf(r: CoreTypes.ValidationResult<Value, Path>): (e: map<Path, string>)
    ensures e == map[] <==> r.Valid? || r.error == map[]
    ensures r.Invalid? ==> e == r.error
  {
    match r
    case Valid(_) => map[]
    case Invalid(errs) => errs
  }

  /** Some key of a non-empty map. */
  ghost function AnyKey<K, V>(m: map<K, V>): (k: K)
    requires m != map[]
    ensures k in m
  {
    var k :| k in m; k
  }

  class Form {
    var status: SubmitStatus
    var isSubmitting: bool
    var hasBeenSubmitted: bool
    /** The validation run started by the last submit has not resolved yet. */
    var awaitingValidation: bool
    /** The transport call made by the last submit has not settled yet. */
    var transportPending: bool
    /** Every validated output handed to the transport, in order. */
    var transportCalls: seq<Value>
    var values: Value
    var defaults: Value
    var dirty: map<Path, bool>
    var touched: map<Path, bool>
    var errors: map<Path, string>

    ghost predicate Valid()
      reads this
    {
      && (isSubmitting <==> status == Submitting)
      && (status != Idle ==> hasBeenSubmitted)
      && (status == Submitting <==> awaitingValidation || transportPending)
      && !(awaitingValidation && transportPending)
    }

    constructor (defaultValues: Value)
      ensures Valid()
      ensures status == Idle && !isSubmitting && !hasBeenSubmitted
      ensures !awaitingValidation && !transportPending && transportCalls == []
      ensures values == defaultValues && defaults == defaultValues
      ensures dirty == map[] && touched == map[] && errors == map[]
    {
      status := Idle;
      isSubmitting := false;
      hasBeenSubmitted := false;
      awaitingValidation := false;
      transportPending := false;
      transportCalls := [];
      values := defaultValues;
      defaults := defaultValues;
      dirty := map[];
      touched := map[];
      errors := map[];
    }

    /** Whether the path or any path below it is marked dirty. A mark counts
        for its own path and every ancestor, not for the paths below it. */
    predicate Dirty(p: Path)
      reads this`dirty
      ensures p in dirty && dirty[p] ==> Dirty(p)
      ensures Dirty(p) ==> exists q :: q in dirty && dirty[q]
    {
      exists q :: q in dirty && p <= q && dirty[q]
    }

    /** Whether the path or any path below it is marked touched. A mark counts
        for its own path and every ancestor, not for the paths below it. */
    predicate Touched(p: Path)
      reads this`touched
      ensures p in touched && touched[p] ==> Touched(p)
      ensures Touched(p) ==> exists q :: q in touched && touched[q]
    {
      exists q :: q in touched && p <= q && touched[q]
    }

    /** The form-level `isDirty` flag. */
    predicate IsDirty()
      reads this`dirty
      ensures IsDirty() <==> exists q :: q in dirty && dirty[q]
    {
      Dirty([])
    }

    /** The form-level `isTouched` flag. */
    predicate IsTouched()
      reads this`touched
      ensures IsTouched() <==> exists q :: q in touched && touched[q]
    {
      Touched([])
    }

    /** The error recorded at exactly this path (null when absent). */
    function FieldError(p: Path): (e: CoreTypes.Option<string>)
      reads this`errors
      ensures e.Some? <==> p in errors
      ensures e.Some? ==> e.value == errors[p]
    {
      if p in errors then CoreTypes.Some(errors[p]) else CoreTypes.None
    }

    /** The form-level `isValid` flag: no path reads an error. */
    predicate IsValid()
      reads this`errors
      ensures IsValid() <==> forall p :: FieldError(p).None?
    {
      if errors == map[] then true
      else
        assert FieldError(AnyKey(errors)).Some?;
        false
    }

    /** The current value at a path (None for undefined). */
    function ValueAt(p: Path): (r: CoreTypes.Option<Values.Value>)
      reads this`values
      ensures p == [] ==> r == CoreTypes.Some(values)
      ensures r.Some? && p != [] ==> values.Obj? && p[0] in values.fields
    {
      Get(values, p)
    }

    /** The default value at a path (None for undefined). */
    function DefaultValueAt(p: Path): (r: CoreTypes.Option<Values.Value>)
      reads this`defaults
      ensures p == [] ==> r == CoreTypes.Some(defaults)
      ensures r.Some? && p != [] ==> defaults.Obj? && p[0] in defaults.fields
    {
      Get(defaults, p)
    }

    /** Starts a submission. A submit while one is already in flight joins it. */
    method Submit()
      requires Valid()
      modifies this
      ensures Valid()
      ensures hasBeenSubmitted && status == Submitting && isSubmitting
      ensures old(status) == Submitting ==> unchanged(this)
      ensures old(status) != Submitting ==> awaitingValidation && !transportPending
      ensures transportCalls == old(transportCalls)
      ensures values == old(values) && defaults == old(defaults)
      ensures dirty == old(dirty) && touched == old(touched) && errors == old(errors)
    {
      if status != Submitting {
        status := Submitting;
        isSubmitting := true;
        hasBeenSubmitted := true;
        awaitingValidation := true;
      }
    }

    /** A validation run resolves. Its errors replace the recorded ones; if it
        was the run of a pending submit, an invalid result fails the submit and
        a valid one hands the output to the transport. */
    method ResolveValidation(r: CoreTypes.ValidationResult<Values.Value, Path>)
      requires Valid()
      modifies this
      ensures Valid()
      ensures errors == ErrorsOf(r)
      ensures IsValid() <==> r.Valid? || r.error == map[]
      ensures !awaitingValidation
      ensures hasBeenSubmitted == old(hasBeenSubmitted)
      ensures old(awaitingValidation) && r.Invalid? ==>
        status == Error && !transportPending && transportCalls == old(transportCalls)
      ensures old(awaitingValidation) && r.Valid? ==>
        status == Submitting && transportPending && transportCalls == old(transportCalls) + [r.data]
      ensures !old(awaitingValidation) ==>
        status == old(status) && transportPending == old(transportPending) && transportCalls == old(transportCalls)
      ensures values == old(values) && defaults == old(defaults)
      ensures dirty == old(dirty) && touched == old(touched)
    {
      errors := ErrorsOf(r);
      if awaitingValidation {
        awaitingValidation := false;
        match r
        case Valid(data) =>
          transportPending := true;
          transportCalls := transportCalls + [data];
        case Invalid(_) =>
          status := Error;
          isSubmitting := false;
      }
    }

    /** The transport's promise resolves. */
    method TransportResolve()
      requires Valid()
      modifies this
      ensures Valid()
      ensures old(transportPending) ==> status == Success && !isSubmitting && !transportPending
      ensures !old(transportPending) ==> unchanged(this)
      ensures hasBeenSubmitted == old(hasBeenSubmitted) && transportCalls == old(transportCalls)
      ensures values == old(values) && defaults == old(defaults)
      ensures dirty == old(dirty) && touched == old(touched) && errors == old(errors)
    {
      if transportPending {
        transportPending := false;
        status := Success;
        isSubmitting := false;
      }
    }

    /** The transport's promise rejects. */
    method TransportReject()
      requires Valid()
      modifies this
      ensures Valid()
      ensures old(transportPending) ==> status == Error && !isSubmitting && !transportPending
      ensures !old(transportPending) ==> unchanged(this)
      ensures hasBeenSubmitted == old(hasBeenSubmitted) && transportCalls == old(transportCalls)
      ensures values == old(values) && defaults == old(defaults)
      ensures dirty == old(dirty) && touched == old(touched) && errors == old(errors)
    {
      if transportPending {
        transportPending := false;
        status := Error;
        isSubmitting := false;
      }
    }

    /** Sets the dirty record of a path; the root path addresses the whole form. */
    method SetDirty(p: Path, b: bool)
      requires Valid()
      modifies this`dirty
      ensures Valid()
      ensures dirty == old(dirty)[p := b]
      ensures b ==> Dirty(p) && IsDirty()
      ensures forall q :: FieldError(q) == old(FieldError(q))
    {
      dirty := dirty[p := b];
      if b {
        assert p in dirty && p <= p && dirty[p];
        assert [] <= p;
      }
    }

    /** Sets the touched record of a path; the root path addresses the whole form. */
    method SetTouched(p: Path, b: bool)
      requires Valid()
      modifies this`touched
      ensures Valid()
      ensures touched == old(touched)[p := b]
      ensures b ==> Touched(p) && IsTouched()
      ensures forall q :: FieldError(q) == old(FieldError(q))
    {
      touched := touched[p := b];
      if b {
        assert p in touched && p <= p && touched[p];
        assert [] <= p;
      }
    }

    /** Records an error at a path; the form is then invalid. */
    method SetError(p: Path, message: string)
      requires Valid()
      modifies this`errors
      ensures Valid()
      ensures errors == old(errors)[p := message]
      ensures FieldError(p) == CoreTypes.Some(message) && !IsValid()
    {
      errors := errors[p := message];
    }

    /** Removes the error at a path; with no other error the form is valid again. */
    method ClearError(p: Path)
      requires Valid()
      modifies this`errors
      ensures Valid()
      ensures errors == old(errors) - {p}
      ensures FieldError(p) == CoreTypes.None
      ensures forall q :: q != p ==> FieldError(q) == old(FieldError(q))
      ensures old(errors).Keys <= {p} ==> IsValid()
    {
      errors := errors - {p};
    }

    /** Replaces the value at a path (the root path replaces every value). */
    method SetValue(p: Path, x: Values.Value)
      requires Valid()
      modifies this`values
      ensures Valid()
      ensures values == Set(old(values), p, x)
      ensures ValueAt(p) == CoreTypes.Some(x)
      ensures forall q :: ValueAt(p + q) == Get(x, q)
      ensures forall q :: !(p <= q) && !(q <= p) ==> ValueAt(q) == old(ValueAt(q))
    {
      ghost var before := values;
      values := Set(values, p, x);
      forall q
        ensures ValueAt(p + q) == Get(x, q)
      {
        GetBelowSet(before, p, x, q);
      }
      forall q | !(p <= q) && !(q <= p)
        ensures ValueAt(q) == Get(before, q)
      {
        GetSetOther(before, p, x, q);
      }
    }

    /** A change event from a field's input: stores the value and marks the
        field dirty, leaving touched and the default values alone. */
    method OnChange(p: Path, x: Values.Value)
      requires Valid()
      modifies this`values, this`dirty
      ensures Valid()
      ensures values == Set(old(values), p, x) && ValueAt(p) == CoreTypes.Some(x)
      ensures dirty == old(dirty)[p := true] && Dirty(p) && IsDirty()
      ensures forall q :: DefaultValueAt(q) == old(DefaultValueAt(q))
    {
      SetValue(p, x);
      SetDirty(p, true);
    }

    /** A blur event from a field's input: marks the field touched. */
    method OnBlur(p: Path)
      requires Valid()
      modifies this`touched
      ensures Valid()
      ensures touched == old(touched)[p := true] && Touched(p) && IsTouched()
    {
      SetTouched(p, true);
    }

    /** Resets the form, optionally to new default values: values become the
        defaults, every record is cleared and the submission history restarts. */
    method ResetForm(newDefaults: CoreTypes.Option<Values.Value>)
      requires Valid()
      modifies this
      ensures Valid()
      ensures defaults == (if newDefaults.Some? then newDefaults.value else old(defaults))
      ensures values == defaults
      ensures forall q :: DefaultValueAt(q) == ValueAt(q)
      ensures dirty == map[] && touched == map[] && errors == map[]
      ensures !IsDirty() && !IsTouched() && IsValid()
      ensures status == Idle && !isSubmitting && !hasBeenSubmitted
      ensures !awaitingValidation && !transportPending && transportCalls == old(transportCalls)
    {
      if newDefaults.Some? {
        defaults := newDefaults.value;
      }
      values := defaults;
      dirty := map[];
      touched := map[];
      errors := map[];
      status := Idle;
      isSubmitting := false;
      hasBeenSubmitted := false;
      awaitingValidation := false;
      transportPending := false;
    }
  }

  /** The default values `{ foo: "bar" }` used throughout the tests. */
  function FooBar(): Values.Value
  {
    Obj(map["foo" := Scalar("bar")])
  }

  /** The submit lifecycle of the first test: idle, submitting, success,
      submitting again, error, with hasBeenSubmitted staying set. */
  method SubmitLifecycleScenario(output: Values.Value)
  {
    var form := new Form(FooBar());
    assert form.status == Idle && !form.isSubmitting && !form.hasBeenSubmitted;

    form.Submit();
    form.ResolveValidation(CoreTypes.Valid(output));
    assert form.status == Submitting && form.isSubmitting && form.hasBeenSubmitted;

    form.TransportResolve();
    assert form.status == Success && !form.isSubmitting && form.hasBeenSubmitted;

    form.Submit();
    form.ResolveValidation(CoreTypes.Valid(output));
    assert form.status == Submitting && form.isSubmitting && form.hasBeenSubmitted;

    form.TransportReject();
    assert form.status == Error && !form.isSubmitting && form.hasBeenSubmitted;
    assert form.transportCalls == [output, output];
  }

  /** Dirty, touched and valid flags of the second test. */
  method FlagsScenario()
  {
    var foo: Path := ["foo"];
    var form := new Form(FooBar());
    assert !form.IsDirty() && !form.IsTouched() && form.IsValid();

    form.Submit();
    form.ResolveValidation(CoreTypes.Invalid(map[foo := "bar"]));
    assert form.FieldError(foo) == CoreTypes.Some("bar");
    assert !form.IsDirty() && !form.IsTouched() && !form.IsValid();

    form.OnChange(foo, Scalar("test"));
    form.ResolveValidation(CoreTypes.Valid(Obj(map["foo" := Scalar("test")])));
    assert form.IsDirty() && !form.IsTouched() && form.IsValid();

    form.OnBlur(foo);
    form.ResolveValidation(CoreTypes.Valid(Obj(map["foo" := Scalar("test")])));
    assert form.IsDirty() && form.IsTouched() && form.IsValid();
  }

  /** Setting the dirty, touched and error records of one field directly. */
  method DirtyTouchedScenario()
  {
    var foo: Path := ["foo"];
    var form := new Form(FooBar());
    assert !form.IsDirty() && !form.IsTouched() && form.IsValid();
    assert form.FieldError(foo) == CoreTypes.None;

    form.SetDirty(foo, true);
    assert form.IsDirty() && !form.IsTouched() && form.IsValid();
    assert form.FieldError(foo) == CoreTypes.None;

    form.SetTouched(foo, true);
    assert form.IsDirty() && form.IsTouched() && form.IsValid();
    assert form.FieldError(foo) == CoreTypes.None;

    form.SetError(foo, "test");
    assert form.IsDirty() && form.IsTouched() && !form.IsValid();
    assert form.FieldError(foo) == CoreTypes.Some("test");

    form.ClearError(foo);
    assert form.IsDirty() && form.IsTouched() && form.IsValid();
    assert form.FieldError(foo) == CoreTypes.None;
  }

  /** Setting the dirty and touched records of the whole form through the root
      path. With no error anywhere, the form-level error read is null, which is
      what IsValid states here. */
  method ScopeFlagsScenario()
  {
    var form := new Form(FooBar());
    assert !form.Dirty([]) && !form.Touched([]) && form.IsValid();

    form.SetDirty([], true);
    assert form.Dirty([]) && !form.Touched([]) && form.IsValid();
    assert form.dirty == map[[] := true];
    assert !form.Dirty(["foo"]);

    form.SetTouched([], true);
    assert form.Dirty([]) && form.Touched([]) && form.IsValid();
  }

  /** Default values survive edits and are replaced by a reset. */
  method DefaultValuesScenario()
  {
    var foo: Path := ["foo"];
    var form := new Form(FooBar());
    assert form.DefaultValueAt([]) == CoreTypes.Some(FooBar());
    assert form.DefaultValueAt(foo) == CoreTypes.Some(Scalar("bar"));

    form.OnChange(foo, Scalar("test"));
    assert form.DefaultValueAt([]) == CoreTypes.Some(FooBar());
    assert form.DefaultValueAt(foo) == CoreTypes.Some(Scalar("bar"));

    var bob := Obj(map["foo" := Scalar("bob ross")]);
    form.ResetForm(CoreTypes.Some(bob));
    assert form.DefaultValueAt([]) == CoreTypes.Some(bob);
    assert form.DefaultValueAt(foo) == CoreTypes.Some(Scalar("bob ross"));

    form.OnChange(foo, Scalar("test"));
    assert form.DefaultValueAt([]) == CoreTypes.Some(bob);
    assert form.DefaultValueAt(foo) == CoreTypes.Some(Scalar("bob ross"));
  }

  /** A reset while a transport call is in flight forgets the call: its later
      resolution leaves the form idle and unsubmitted. */
  method ResetDuringSubmitScenario(output: Values.Value)
  {
    var form := new Form(FooBar());
    form.Submit();
    form.ResolveValidation(CoreTypes.Valid(output));
    assert form.transportPending;

    form.ResetForm(CoreTypes.None);
    form.TransportResolve();
    assert form.status == Idle && !form.isSubmitting && !form.hasBeenSubmitted;
    assert form.transportCalls == [output];
  }

  /** setValue at a field, at the root and through a child scope. */
  method SetValueScenario()
  {
    var form := new Form(FooBar());
    var scope := Scope([]).Child(["foo"]);

    assert form.values == Obj(map["foo" := Scalar("bar")]);
    form.SetValue(["foo"], Scalar("bob"));
    SetKey(map["foo" := Scalar("bar")], "foo", Scalar("bob"));
    assert map["foo" := Scalar("bar")]["foo" := Scalar("bob")] == map["foo" := Scalar("bob")];
    assert form.ValueAt([]) == CoreTypes.Some(Obj(map["foo" := Scalar("bob")]));

    form.SetValue([], Obj(map["foo" := Scalar("baz")]));
    assert form.ValueAt([]) == CoreTypes.Some(Obj(map["foo" := Scalar("baz")]));

    assert scope.Absolute([]) == ["foo"];
    form.SetValue(scope.Absolute([]), Scalar("quux"));
    SetKey(map["foo" := Scalar("baz")], "foo", Scalar("quux"));
    assert map["foo" := Scalar("baz")]["foo" := Scalar("quux")] == map["foo" := Scalar("quux")];
    assert form.ValueAt([]) == CoreTypes.Some(Obj(map["foo" := Scalar("quux")]));
  }
}
