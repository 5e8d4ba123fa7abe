/** The Remix binding's `useRvf` (packages/remix/src/useRvf.tsx): how it turns
    its options into the options of the React hook, and which submit handler
    it installs. The user's `handleSubmit` and the Remix transport are opaque:
    a call to either is recorded as a value, together with its arguments. */
module RemixSubmit {
  import opened CoreTypes
  import Values

  /** Where the submitted data is taken from. */
  datatype SubmitSource = Dom | State

  /** The six Remix submit options forwarded to the transport (`method` is
      spelled httpMethod here). */
  datatype SubmitOptions = SubmitOptions(
    httpMethod: Option<string>,
    replace: Option<bool>,
    preventScrollReset: Option<bool>,
    relative: Option<string>,
    action: Option<string>,
    encType: Option<string>)

  /** Identity of an opaque function value supplied by the caller. */
  type FunctionRef = nat

  /** The options `useRvf` accepts: the React options with `handleSubmit` and
      `submitSource` optional, plus the Remix submit options and a fetcher. */
  datatype RemixOpts = RemixOpts(
    defaultValues: Option<Values.Value>,
    validator: FunctionRef,
    validationBehaviorConfig: Option<ValidationBehaviorConfig>,
    submitSource: Option<SubmitSource>,
    handleSubmit: Option<FunctionRef>,
    httpMethod: Option<string>,
    replace: Option<bool>,
    preventScrollReset: Option<bool>,
    relative: Option<string>,
    action: Option<string>,
    encType: Option<string>,
    fetcher: Option<FunctionRef>)

  /** Identity of an existing form (an object carrying the `__brand__` key). */
  type FormRef = nat

  /** The single argument of `useRvf`: an existing form, or options. */
  datatype RvfArg = Branded(form: FormRef) | Options(opts: RemixOpts)

  /** The two submit handlers `useRvf` can install. */
  datatype Handler = DomHandler | StateHandler

  /** The options passed on to the React hook. */
  datatype ReactOpts = ReactOpts(
    defaultValues: Option<Values.Value>,
    validator: FunctionRef,
    validationBehaviorConfig: Option<ValidationBehaviorConfig>,
    submitSource: SubmitSource,
    handler: Handler)

  /** What the React hook is called with. */
  datatype ReactCall = PassThrough(form: FormRef) | Configure(opts: ReactOpts)

  /** The serialized form: its name/value entries in document order. */
  type FormData = seq<(string, string)>

  /** What invoking the installed handler does. */
  datatype SubmitCall<D> =
    | UserSubmit(handler: FunctionRef, data: D, formData: Option<FormData>)
    | RemixTransport(submitted: FormData, options: SubmitOptions)
    | Raise(message: string)

  const StateWithoutHandler := "`state` submit source is only supported with `handleSubmit`"

  /** The submit source, defaulting to the DOM. */
  function ResolvedSource(opts: RemixOpts): (s: SubmitSource)
    ensures s == State <==> opts.submitSource == Some(State)
    ensures opts.submitSource.Some? ==> s == opts.submitSource.value
  {
    match opts.submitSource
    case None => Dom
    case Some(s) => s
  }

  /** The six options the Remix transport receives, taken from the options. */
  function SubmitOptionsOf(opts: RemixOpts): (o: SubmitOptions)
    ensures o.httpMethod == opts.httpMethod && o.replace == opts.replace
    ensures o.preventScrollReset == opts.preventScrollReset && o.relative == opts.relative
    ensures o.action == opts.action && o.encType == opts.encType
  {
    SubmitOptions(opts.httpMethod, opts.replace, opts.preventScrollReset,
                  opts.relative, opts.action, opts.encType)
  }

  /** The DOM handler: the user's handleSubmit with data and form data if
      there is one, otherwise the Remix transport. */
  function HandleDomSubmit<D>(opts: RemixOpts, data: D, formData: FormData): (c: SubmitCall<D>)
    ensures !c.Raise?
    ensures c.RemixTransport? <==> opts.handleSubmit.None?
    ensures c.UserSubmit? ==> c.handler == opts.handleSubmit.value && c.data == data && c.formData == Some(formData)
    ensures c.RemixTransport? ==> c.submitted == formData && c.options == SubmitOptionsOf(opts)
  {
    match opts.handleSubmit
    case Some(h) => UserSubmit(h, data, Some(formData))
    case None => RemixTransport(formData, SubmitOptionsOf(opts))
  }

  /** The state handler: the user's handleSubmit with the data only; without
      one it raises. */
  function HandleStateSubmit<D>(opts: RemixOpts, data: D): (c: SubmitCall<D>)
    ensures !c.RemixTransport?
    ensures c.Raise? <==> opts.handleSubmit.None?
    ensures c.Raise? ==> c.message == StateWithoutHandler
    ensures c.UserSubmit? ==> c.handler == opts.handleSubmit.value && c.data == data && c.formData.None?
  {
    match opts.handleSubmit
    case Some(h) => UserSubmit(h, data, None)
    case None => Raise(StateWithoutHandler)
  }

  /** The handler installed for a submit source. */
  function HandlerFor(source: SubmitSource): (h: Handler)
    ensures h == StateHandler <==> source == State
  {
    if source == State then StateHandler else DomHandler
  }

  /** The call `useRvf` makes to the React hook. */
  function UseRvf(arg: RvfArg): (call: ReactCall)
    ensures arg.Branded? ==> call == PassThrough(arg.form)
    ensures arg.Options? ==> call.Configure?
    ensures arg.Options? ==> call.opts.defaultValues == arg.opts.defaultValues
    ensures arg.Options? ==> call.opts.validator == arg.opts.validator
    ensures arg.Options? ==> call.opts.validationBehaviorConfig == arg.opts.validationBehaviorConfig
    ensures arg.Options? ==> call.opts.submitSource == ResolvedSource(arg.opts)
    ensures arg.Options? ==> (call.opts.handler == StateHandler <==> ResolvedSource(arg.opts) == State)
  {
    match arg
    case Branded(form) => PassThrough(form)
    case Options(opts) =>
      var source := ResolvedSource(opts);
      Configure(ReactOpts(opts.defaultValues, opts.validator, opts.validationBehaviorConfig,
                          source, HandlerFor(source)))
  }

  /** Invoking an installed handler, which closes over the options. */
  function Invoke<D>(opts: RemixOpts, handler: Handler, data: D, formData: FormData): SubmitCall<D>
  {
    match handler
    case DomHandler => HandleDomSubmit(opts, data, formData)
    case StateHandler => HandleStateSubmit(opts, data)
  }

  /** What a submit through a form created from `opts` does. */
  function SubmitThrough<D>(opts: RemixOpts, data: D, formData: FormData): SubmitCall<D>
  {
    Invoke(opts, UseRvf(Options(opts)).opts.handler, data, formData)
  }

  /** End to end: a submit raises exactly when the resolved source is `state`
      and no handleSubmit is given; it reaches the Remix transport exactly when
      the source is the DOM and no handleSubmit is given, with the six submit
      options; otherwise the user's handleSubmit runs, with the form data
      exactly when the source is the DOM. */
  lemma SubmitOutcomes<D>(opts: RemixOpts, data: D, formData: FormData)
    ensures SubmitThrough(opts, data, formData).Raise?
      <==> ResolvedSource(opts) == State && opts.handleSubmit.None?
    ensures SubmitThrough(opts, data, formData).RemixTransport?
      <==> ResolvedSource(opts) == Dom && opts.handleSubmit.None?
    ensures SubmitThrough(opts, data, formData).RemixTransport? ==>
      SubmitThrough(opts, data, formData) == RemixTransport(formData, SubmitOptionsOf(opts))
    ensures SubmitThrough(opts, data, formData).UserSubmit? <==> opts.handleSubmit.Some?
    ensures opts.handleSubmit.Some? ==>
      SubmitThrough(opts, data, formData) ==
        UserSubmit(opts.handleSubmit.value, data,
                   if ResolvedSource(opts) == Dom then Some(formData) else None)
  {
  }

  /** Options that differ only outside the six submit options and the
      handler choice lead to the same transport call: the fetcher, default
      values, validator and behaviour configuration never reach it. */
  lemma TransportIgnoresOtherOptions<D>(a: RemixOpts, b: RemixOpts, data: D, formData: FormData)
    requires SubmitOptionsOf(a) == SubmitOptionsOf(b)
    requires ResolvedSource(a) == ResolvedSource(b) && a.handleSubmit == b.handleSubmit
    ensures SubmitThrough(a, data, formData) == SubmitThrough(b, data, formData)
  {
  }
}
