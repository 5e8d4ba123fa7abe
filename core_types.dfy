/** Result and configuration types shared by every package of the form library
    (packages/core/src/types.ts), plus the rule that picks which validation
    behaviour applies at a given point in a field's lifecycle. */
module CoreTypes {

  datatype Option<+T> = None | Some(value: T)

  /** Submission status as the core package declares it. The React form state
      reports the in-flight state under a different name; see
      FormState.SubmitStatus and the mapping there. */
  datatype SubmitStatus = Idle | Loading | Error | Success

  /** What a validator resolves to: validated output, or an error message per
      key. The core package keys errors by path string; the form model keys
      them by parsed path. */
  datatype ValidationResult<D, K> = Valid(data: D) | Invalid(error: map<K, string>)

  /** The object a validator actually returns: two slots, `data` and `error`,
      either of which may be undefined. */
  datatype RawResult<D, K> = RawResult(data: Option<D>, error: Option<map<K, string>>)

  /** A raw result is well formed when exactly one of its slots is present. */
  predicate WellFormed<D, K>(raw: RawResult<D, K>)
  {
    raw.data.Some? != raw.error.Some?
  }

  /** The `{ data, error: undefined }` / `{ error, data: undefined }` shape of a result. */
  function ToRaw<D, K>(r: ValidationResult<D, K>): (raw: RawResult<D, K>)
    ensures WellFormed(raw)
    ensures raw.data.Some? <==> r.Valid?
  {
    match r
    case Valid(d) => RawResult(Some(d), None)
    case Invalid(e) => RawResult(None, Some(e))
  }

  /** Reads a raw result back as Valid or Invalid; a raw result with both slots
      or with neither is not a validator result. */
  function Classify<D, K>(raw: RawResult<D, K>): (r: Option<ValidationResult<D, K>>)
    ensures r.Some? <==> WellFormed(raw)
    ensures r.Some? ==> (r.value.Valid? <==> raw.data.Some?)
  {
    match raw
    case RawResult(Some(d), None) => Some(Valid(d))
    case RawResult(None, Some(e)) => Some(Invalid(e))
    case _ => None
  }

  lemma ClassifyToRaw<D, K>(r: ValidationResult<D, K>)
    ensures Classify(ToRaw(r)) == Some(r)
  {
  }

  lemma ToRawClassify<D, K>(raw: RawResult<D, K>)
    requires WellFormed(raw)
    ensures Classify(raw).Some? && ToRaw(Classify(raw).value) == raw
  {
  }

  /** When validation is triggered. */
  datatype ValidationBehavior = OnSubmit | OnChange | OnBlur

  /** One behaviour per lifecycle stage; every slot is always supplied. */
  datatype ValidationBehaviorConfig = ValidationBehaviorConfig(
    initial: ValidationBehavior,
    whenTouched: ValidationBehavior,
    whenSubmitted: ValidationBehavior)

  /** The lifecycle stages the three configuration slots are documented for. */
  datatype Stage = Initial | Touched | Submitted

  /** Which stage wins when a field is touched AND its form has been submitted
      unsuccessfully; the type declarations do not say. */
  datatype Precedence = SubmittedFirst | TouchedFirst

  function StageOf(touched: bool, submitted: bool, precedence: Precedence): (s: Stage)
    ensures s == Initial <==> !touched && !submitted
    ensures s == Touched ==> touched
    ensures s == Submitted ==> submitted
  {
    if submitted && (!touched || precedence == SubmittedFirst) then Submitted
    else if touched then Touched
    else Initial
  }

  /** The configuration slot documented for a stage. */
  function Slot(config: ValidationBehaviorConfig, s: Stage): ValidationBehavior
  {
    match s
    case Initial => config.initial
    case Touched => config.whenTouched
    case Submitted => config.whenSubmitted
  }

  /** The behaviour that applies to a field now. */
  function ActiveBehavior(config: ValidationBehaviorConfig, touched: bool, submitted: bool,
                          precedence: Precedence): (b: ValidationBehavior)
    ensures !touched && !submitted ==> b == config.initial
    ensures touched && !submitted ==> b == config.whenTouched
    ensures submitted && !touched ==> b == config.whenSubmitted
    ensures touched && submitted ==>
      b == (if precedence == SubmittedFirst then config.whenSubmitted else config.whenTouched)
    ensures b == config.initial || b == config.whenTouched || b == config.whenSubmitted
  {
    Slot(config, StageOf(touched, submitted, precedence))
  }

  /** Rank of a stage in lifecycle order. */
  function Rank(s: Stage): nat
  {
    match s
    case Initial => 0
    case Touched => 1
    case Submitted => 2
  }

  /** With submission taking precedence, the stage only moves forward as the
      touched and submitted flags turn on. */
  lemma StageMonotone(t: bool, s: bool, t': bool, s': bool)
    requires (t ==> t') && (s ==> s')
    ensures Rank(StageOf(t, s, SubmittedFirst)) <= Rank(StageOf(t', s', SubmittedFirst))
  {
  }

  /** With touching taking precedence, touching a field after an unsuccessful
      submit moves it back from `whenSubmitted` to `whenTouched`. */
  lemma TouchedFirstNotMonotone()
    ensures StageOf(false, true, TouchedFirst) == Submitted
    ensures StageOf(true, true, TouchedFirst) == Touched
  {
  }

  /** Once the form has been submitted unsuccessfully, under SubmittedFirst the
      behaviour no longer depends on the field being touched. */
  lemma SubmittedIgnoresTouched(config: ValidationBehaviorConfig, t1: bool, t2: bool)
    ensures ActiveBehavior(config, t1, true, SubmittedFirst) == config.whenSubmitted
    ensures ActiveBehavior(config, t1, true, SubmittedFirst) == ActiveBehavior(config, t2, true, SubmittedFirst)
  {
  }
}
