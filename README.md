# rvf form state, modelled in Dafny

This project models the core of the rvf form library: the result and
configuration types every package shares, the observable state of a form
(submission status, dirty / touched / error records, values and default
values), the bridge that hydrates "controlled" fields from their default
values, and the Remix binding's choice of submit handler.

Modules, one per core file or component:

- `CoreTypes` (core_types.dfy): the core package's `SubmitStatus`, validator
  results (`ValidationResult` and the raw two-slot shape `RawResult`),
  `ValidationBehavior`, `ValidationBehaviorConfig`, and `ActiveBehavior`, the
  slot that applies to a field given whether it is touched and whether its form
  has been submitted unsuccessfully. Which slot wins when both hold is not
  stated by the types, so it is an explicit `Precedence` argument; with
  `SubmittedFirst` the stage only moves forward (`StageMonotone`), with
  `TouchedFirst` touching a field after a failed submit moves it back
  (`TouchedFirstNotMonotone`).
- `Values` (values.dfy): the form's value tree (`Scalar` or `Obj`), addressed
  by key sequences, with read-your-write and non-interference lemmas, and
  `Scope`, a view rooted at a path prefix.
- `FormState` (form_state.dfy): class `Form`, the state the React hook exposes,
  with one method per event the React tests drive: `Submit`,
  `ResolveValidation`, `TransportResolve`, `TransportReject`, `SetDirty`,
  `SetTouched`, `SetError`, `ClearError`, `SetValue`, `OnChange`, `OnBlur`,
  `ResetForm`. The invariant `Valid()` keeps `isSubmitting` equal to
  "status is submitting", keeps "status is not idle" implying
  `hasBeenSubmitted`, and ties the submitting status to a validation run or a
  transport call in flight. The methods `SubmitLifecycleScenario`,
  `FlagsScenario`, `DefaultValuesScenario`, `DirtyTouchedScenario`,
  `ScopeFlagsScenario` and `SetValueScenario` restate the expectations of the
  tests in packages/react/src/test/state.test.tsx at lines 29-96, 98-174,
  176-224, 226-311, 314-362 and 397-442 as assertions that follow from these
  contracts. The form-level `error()` read of the test at lines 314-362 is
  stood in for by `IsValid`, since no error is ever recorded there.
- `ControlledFields` (controlled_fields.dfy): class `ControlledFieldStore`, the
  registry keyed by (form id, field) plus the form's hydrated and dirty flags;
  and a pure per-field model (`Step`, `Run`) over hydrate and write events, on
  which "hydration happens at most once" and "a hydrated field is never
  re-seeded" are proved for every event sequence.
- `RemixSubmit` (remix_submit.dfy): `useRvf` as a pure function from its
  argument to the call it makes to the React hook, and the two handlers as
  functions from the options to the call they make (the user's handleSubmit,
  the Remix transport, or a raised error).

Two status enumerations are kept apart. The core package names the in-flight
state `loading` (packages/core/src/types.ts:3), while the React form state
reports `submitting` (packages/react/src/test/state.test.tsx:65).
`FormState.ToCoreStatus` and `FormState.FromCoreStatus` give the mapping:
submitting corresponds to loading, and the other three states map to the state
of the same name. `StatusMappingBijective` proves that the mapping is one to one.

Paths are key sequences throughout: the error maps a validator returns to the
form are keyed by parsed paths. The core package keys them by path string, and
path-string parsing is not part of this model.

## Model

| member | source | states |
|---|---|---|
| CoreTypes.ToRaw | packages/core/src/types.ts:6-7 | a result always has exactly one of `data` and `error`, with `data` exactly for Valid |
| CoreTypes.Classify | packages/core/src/types.ts:6-11 | a raw validator result is accepted exactly when one slot is present, and is Valid exactly when `data` is present |
| CoreTypes.ClassifyToRaw | packages/core/src/types.ts:6-7 | reading back the shape of a result gives the result |
| CoreTypes.ToRawClassify | packages/core/src/types.ts:6-7 | a well-formed raw result is the shape of what it is read as |
| CoreTypes.StageOf | packages/core/src/types.ts:15-29 | the stage is initial exactly when the field is neither touched nor submitted; touched and submitted stages need their flag |
| CoreTypes.ActiveBehavior | packages/core/src/types.ts:15-29 | untouched and unsubmitted gives `initial`; touched before a submit gives `whenTouched`; submitted and untouched gives `whenSubmitted`; touched and submitted gives the slot the precedence picks; the result is always one of the three slots |
| CoreTypes.StageMonotone | packages/core/src/types.ts:21-29 | with submission taking precedence, the stage never moves back as the flags turn on |
| CoreTypes.TouchedFirstNotMonotone | packages/core/src/types.ts:21-29 | with touching taking precedence, touching after a failed submit moves the stage from submitted back to touched |
| CoreTypes.SubmittedIgnoresTouched | packages/core/src/types.ts:26-29 | once submitted (submission first), the behaviour is `whenSubmitted` whether or not the field is touched |
| Values.Set | packages/react/src/test/state.test.tsx:420-425 | a value set at a path reads back at that path; the other keys of the enclosing object keep their values |
| Values.Get | packages/react/src/test/state.test.tsx:408-413 | the root path reads the whole value; a path into a scalar, or through a key the object lacks, reads undefined |
| Values.GetAppend | packages/react/src/test/state.test.tsx:436-441 | reading `p + q` is reading `q` inside what `p` reads |
| Values.GetSetOther | packages/react/src/test/state.test.tsx:420-425 | setting a path leaves every path that is neither its ancestor nor its descendant unchanged |
| Values.GetBelowSet | packages/react/src/test/state.test.tsx:427-434 | below a freshly set path one reads inside the value that was set |
| Values.SetKey | packages/react/src/test/state.test.tsx:420-425 | setting one key of an object replaces that key's entry only |
| Values.Scope.Absolute | packages/react/src/test/state.test.tsx:408 | a scoped path extends the scope's root and gives back the relative path after it |
| Values.Scope.Child | packages/react/src/test/state.test.tsx:408 | the child scope of a sub-path resolves every path as the parent resolves sub-path + path |
| Values.Scope.Read | packages/react/src/test/state.test.tsx:436-441 | a scope reads inside the value at its root |
| FormState.ToCoreStatus | packages/core/src/types.ts:3 | the React status is submitting exactly when the core status is loading |
| FormState.FromCoreStatus | packages/react/src/test/state.test.tsx:65 | the core status loading is reported as submitting, and only it |
| FormState.StatusMappingBijective | packages/react/src/test/state.test.tsx:55-95 | the two status enumerations correspond one to one |
| FormState.ErrorsOf | packages/react/src/test/state.test.tsx:139-161 | no errors are left exactly when the result is valid or its error map is empty; an invalid result leaves exactly its error map |
| FormState.Form.Dirty | packages/react/src/test/state.test.tsx:375-379 | `dirty(path)` holds for a path marked dirty, and only when some path is marked dirty |
| FormState.Form.Touched | packages/react/src/test/state.test.tsx:328 | `touched(path)` holds for a path marked touched, and only when some path is marked touched |
| FormState.Form.FieldError | packages/react/src/test/state.test.tsx:249 | `error(path)` is the message recorded at the path, and null exactly when none is |
| FormState.Form.ValueAt | packages/react/src/test/state.test.tsx:410 | `value()` at the root is the whole value tree; a value below the root exists only inside an object holding the first key |
| FormState.Form.DefaultValueAt | packages/react/src/test/state.test.tsx:188-189 | `defaultValue()` at the root is the whole default tree; a default below the root exists only inside an object holding the first key |
| FormState.Form.constructor | packages/react/src/test/state.test.tsx:55-59 | a fresh form is idle, not submitting, not submitted, clean, untouched and valid, with values equal to the defaults |
| FormState.Form.IsDirty | packages/react/src/test/state.test.tsx:342-350 | the form is dirty exactly when some path is marked dirty |
| FormState.Form.IsTouched | packages/react/src/test/state.test.tsx:352-361 | the form is touched exactly when some path is marked touched |
| FormState.Form.IsValid | packages/react/src/test/state.test.tsx:127-131 | the form is valid exactly when no path has an error |
| FormState.Form.Submit | packages/react/src/test/state.test.tsx:61-68 | after submit the status is submitting, isSubmitting holds and hasBeenSubmitted is set; values and records are unchanged |
| FormState.Form.ResolveValidation | packages/react/src/test/state.test.tsx:139-161 | the errors become the result's errors, so the form is valid exactly when the result has none; for a pending submit an invalid result ends in error and a valid one calls the transport once with the output |
| FormState.Form.TransportResolve | packages/react/src/test/state.test.tsx:70-77 | a pending transport call that resolves gives success and clears isSubmitting; hasBeenSubmitted stays set |
| FormState.Form.TransportReject | packages/react/src/test/state.test.tsx:88-95 | a pending transport call that rejects gives error and clears isSubmitting; hasBeenSubmitted stays set |
| FormState.Form.SetDirty | packages/react/src/test/state.test.tsx:265-275 | only the dirty record of the path changes; setting it makes the path and the form dirty; no error changes |
| FormState.Form.SetTouched | packages/react/src/test/state.test.tsx:277-287 | only the touched record of the path changes; setting it makes the path and the form touched; no error changes |
| FormState.Form.SetError | packages/react/src/test/state.test.tsx:289-299 | the path reads the message and the form is invalid |
| FormState.Form.ClearError | packages/react/src/test/state.test.tsx:301-311 | the path reads no error, other paths keep theirs, and with no other error the form is valid |
| FormState.Form.SetValue | packages/react/src/test/state.test.tsx:416-441 | the value reads back at the path and inside it below the path; unrelated paths keep their values |
| FormState.Form.OnChange | packages/react/src/test/state.test.tsx:151-161 | a change stores the value and marks the path and form dirty, leaving touched and every default value as they were |
| FormState.Form.OnBlur | packages/react/src/test/state.test.tsx:163-173 | a blur marks the path and form touched |
| FormState.Form.ResetForm | packages/react/src/test/state.test.tsx:209-215 | the defaults become the new defaults (or stay), values equal them at every path, and every record and the submission state are cleared |
| ControlledFields.ReadValue | packages/remix-validated-form/src/internal/state/controlledFields.ts:42 | the value shown is the stored one once the field is hydrated and the default before; the second component is always the default |
| ControlledFields.ShouldHydrate | packages/remix-validated-form/src/internal/state/controlledFields.ts:30 | hydration needs a hydrated form and never applies to a hydrated field |
| ControlledFields.Step | packages/remix-validated-form/src/internal/state/controlledFields.ts:29-32 | a hydrate event seeds the default only when the form is hydrated and the field is not; a write stores the value; hydrated never turns false |
| ControlledFields.HydratedStays | packages/remix-validated-form/src/internal/state/controlledFields.ts:29-32 | a hydrated field stays hydrated through any events |
| ControlledFields.AtMostOneHydration | packages/remix-validated-form/src/internal/state/controlledFields.ts:29-32 | across any events the field is hydrated at most once, and never if it already is |
| ControlledFields.NoReseedAfterHydration | packages/remix-validated-form/src/internal/state/controlledFields.ts:29-32 | once hydrated, the stored value is the last one written, never the default again |
| ControlledFields.ReadAfterHydration | packages/remix-validated-form/src/internal/state/controlledFields.ts:42 | once hydrated, the value shown after any events is the last one written |
| ControlledFields.ControlledFieldStore.IsControlledField | packages/remix-validated-form/src/internal/state/controlledFields.ts:97-99 | a field is controlled exactly when the registry has a record for it |
| ControlledFields.ControlledFieldStore.Lookup | packages/remix-validated-form/src/internal/state/controlledFields.ts:12-14 | `getField` gives the field's record exactly when it is registered |
| ControlledFields.ControlledFieldStore.IsFieldHydrated | packages/remix-validated-form/src/internal/state/controlledFields.ts:22-24 | the record's hydrated flag, false when there is no record; only a registered field is hydrated |
| ControlledFields.ControlledFieldStore.IsFormHydrated | packages/remix-validated-form/src/internal/state/controlledFields.ts:16-19 | the form store's isHydrated flag, false for a form the store does not know |
| ControlledFields.ControlledFieldStore.Read | packages/remix-validated-form/src/internal/state/controlledFields.ts:8-43 | the default until the field is hydrated, then the stored value; the second component is the default |
| ControlledFields.ControlledFieldStore.MarkFormHydrated | packages/remix-validated-form/src/internal/state/controlledFields.ts:16-19 | the form's hydrated flag becomes true |
| ControlledFields.ControlledFieldStore.Register | packages/remix-validated-form/src/internal/state/controlledFields.ts:58-61 | after mount the field is controlled; a new record is unhydrated, an existing one is kept |
| ControlledFields.ControlledFieldStore.Unregister | packages/remix-validated-form/src/internal/state/controlledFields.ts:58-61 | after unmount the field is no longer controlled and no other record changes |
| ControlledFields.ControlledFieldStore.HydrationEffect | packages/remix-validated-form/src/internal/state/controlledFields.ts:29-40 | the default is seeded exactly when the field is registered, its form is hydrated and the field is not; an unregistered field stays unregistered; afterwards a registered field of a hydrated form is hydrated; an already hydrated field reads the same as before |
| ControlledFields.ControlledFieldStore.SetValue | packages/remix-validated-form/src/internal/state/controlledFields.ts:70-76 | the field's value is stored, the form's dirty flag is "next differs from default", a hydrated field reads the new value, and no other field changes |
| ControlledFields.ControlledFieldStore.UpdateValue | packages/remix-validated-form/src/internal/state/controlledFields.ts:81-87 | the value is stored for a registered field and a hydrated field reads it; registration, hydration and every other field are unchanged, and the form's dirty flag is not written |
| RemixSubmit.ResolvedSource | packages/remix/src/useRvf.tsx:52 | the source is state exactly when state is asked for, so an absent submit source becomes dom; a given one is kept |
| RemixSubmit.SubmitOptionsOf | packages/remix/src/useRvf.tsx:64-71 | the transport options are exactly method, replace, preventScrollReset, relative, action and encType of the options |
| RemixSubmit.HandleDomSubmit | packages/remix/src/useRvf.tsx:54-72 | it never raises; the transport is called exactly when there is no user handleSubmit, with the form data and the six options; otherwise the user's handleSubmit gets the data and the form data |
| RemixSubmit.HandleStateSubmit | packages/remix/src/useRvf.tsx:74-86 | it never calls the transport; it raises the source's message exactly when there is no user handleSubmit; otherwise the user's handleSubmit gets the data only |
| RemixSubmit.HandlerFor | packages/remix/src/useRvf.tsx:88-89 | the state handler is chosen exactly for the state source |
| RemixSubmit.UseRvf | packages/remix/src/useRvf.tsx:47-98 | a branded form is passed straight through; otherwise default values, validator and behaviour config are forwarded unchanged with the resolved source and its handler |
| RemixSubmit.SubmitOutcomes | packages/remix/src/useRvf.tsx:52-89 | end to end, a submit raises exactly for state without a handler, reaches the transport exactly for dom without a handler, and otherwise calls the user's handler, with form data exactly for dom |
| RemixSubmit.TransportIgnoresOtherOptions | packages/remix/src/useRvf.tsx:64-71 | options that agree on the six submit options, the source and the handler give the same submit call |

## Left out

- Path-string parsing and formatting, array-item identity tokens, the Array
  Manager and store subscriptions: their code is not part of this model. Paths
  are key sequences, and the value tree has objects and scalars only, without
  arrays.
- The validation orchestrator is not part of this model. That covers which
  change or blur events start a validation run, the sequence numbers that drop
  stale runs, and the focus on the first error. `ResolveValidation` is the
  arrival of a run's result, whatever started it.
- Promises: validator and transport outcomes are the explicit events
  `ResolveValidation`, `TransportResolve` and `TransportReject`. The transport
  and the user's handleSubmit are recorded calls (`transportCalls`,
  `SubmitCall`), not executed.
- FormState.Form.Submit: the useForm code is not part of this model, and the
  tests never submit while a submit is in flight. The model lets such a submit
  join the one in flight; this is a modelling choice. The submit count is not
  tracked.
- FormState.Form.ResetForm: the tests do not observe the submission state after
  a reset. Returning the status to idle and clearing hasBeenSubmitted is a
  modelling choice. A reset also forgets a validation run or transport call in
  flight: a later `ResolveValidation` no longer fails or forwards the submit,
  and a later `TransportResolve` or `TransportReject` leaves the status idle
  (`ResetDuringSubmitScenario`).
- FormState.Form.FieldError reads the error recorded at exactly one path. The
  form-level `error()` read (the first error below a path, in path order) is
  not modelled.
- Success, failure and invalid-submit callbacks, reset-after-submit and
  `serverValidationErrors` are not modelled.
- The one-render-late read at packages/react/src/test/state.test.tsx:483 is
  not replicated: `ValueAt` always returns the current value.
- controlledFieldStore.ts is not part of this model. Register creating an
  unhydrated record, Unregister deleting it, and hydration writing
  `{hydrated: true, value: default}` are the simplest readings of the calls in
  controlledFields.ts. Both store writes, the value write and the hydration,
  do nothing for an unregistered field. As a consequence the stored value does
  not survive an unmount, and a field that is not mounted never becomes
  controlled through its hydration effect.
- ControlledFields.ControlledFieldStore.HydrationEffect, SetValue and Read take
  the field's default value as an argument of each call. In the source all
  three take it from `useFieldDefaultValue` (controlledFields.ts:20, :68) on
  the same render; the model does not tie the three arguments together, and
  the scenario passes the same default to each.
- ControlledFields.ControlledFieldStore.SetValue: a write before hydration
  could be read as a usage error. The code at
  controlledFields.ts:70-76 has no such check, and the model follows the code:
  the write is stored, is not shown until hydration, and hydration then
  replaces it with the default.
- ControlledFields.ControlledFieldStore.SetValue compares the next value with
  the default by value equality. JavaScript's `!==` compares objects by
  reference.
- The `resolveValueUpdate` effect (controlledFields.ts:49-54) is React effect
  plumbing and is not modelled. `useAwaitValue` (controlledFields.ts:89-95), a
  memoised callback that waits on a promise held by the unshown store, is not
  modelled either. `useUpdateControllableValue` (controlledFields.ts:81-87) is
  modelled as `UpdateValue`, the store write without the dirty flag.
- FormState.Form.Dirty and FormState.Form.Touched: the code behind
  `dirty(path)` and `touched(path)` is not part of this model. A mark counts
  for its own path and for every ancestor; a mark at the root (the whole-form
  `setDirty(true)`) does not make a field below it dirty or touched.
- React mechanics (effect ordering, memoised callbacks, selector
  subscriptions) are not modelled. The hydration effect is one method call per
  render.
- The `fetcher` option of useRvf (useRvf.tsx:22) is accepted and, as in the
  code, neither forwarded nor used.
- Function values (validator, handleSubmit, the form object behind
  `__brand__`) are opaque numbers, and a submit source is only `dom` or
  `state`, as its type allows.
