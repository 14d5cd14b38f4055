/**
  `UnsafeSelenideElementOf`: holds a proxied `SelenideElement` and its
  invocation handler, and invokes an element method by name straight through
  the handler, bypassing the proxy's own call path.
 */
module UnsafeElement {
  import opened Jvm
  import opened MethodTable

  /** The two final fields: the extracted invocation handler and the proxy itself. */
  datatype Accessor = Accessor(invocationHandler: HandlerRef, proxy: Element)

  /**
    The constructor: `requireNonNull` rejects `null`, and
    `Proxy.getInvocationHandler` rejects an element that is not a proxy
    instance. Nothing is half-built: a failure yields no accessor at all.
   */
  function Construct(element: Element): (r: Result<Accessor>)
    ensures r.Thrown? && r.error == NPE <==> element.NullElement?
    ensures r.Thrown? && r.error == IAE <==> element.Plain?
    ensures r.Returned? <==> element.ProxyEl?
    ensures r.Returned? ==> AsSelenideElement(r.value) == element
    ensures r.Returned? ==> r.value.invocationHandler == element.handler
  {
    match element
    case NullElement => Thrown(NPE)
    case Plain(_) => Thrown(IAE)
    case ProxyEl(_, h) => Returned(Accessor(h, element))
  }

  /** `asSelenideElement()`: the stored proxy, the very reference given to the constructor. */
  function AsSelenideElement(acc: Accessor): Element {
    acc.proxy
  }

  /**
    The `catch` clauses around the handler call: an undeclared-throwable
    wrapper is replaced by its cause when it has one, everything else passes
    through untouched.
   */
  function Unwrap(o: Outcome): (r: Outcome)
    ensures r.Returned? <==> o.Returned?
    ensures o.Returned? ==> r == o
    ensures o.Thrown? && o.error.Undeclared? && o.error.cause.Some? ==> r == Thrown(o.error.cause.value)
    ensures !(o.Thrown? && o.error.Undeclared? && o.error.cause.Some?) ==> r == o
  {
    match o
    case Returned(_) => o
    case Thrown(Undeclared(Some(cause))) => Thrown(cause)
    case Thrown(_) => o
  }

  /** What a call of `invoke` yields, together with the shared cache afterwards. */
  datatype Invoked = Invoked(outcome: Outcome, cache: MethodCache)

  /**
    `invoke(methodName, methodArgs)`: the null check comes before the cache is
    touched, the unknown-name check before the handler is called; a resolved
    name is forwarded with the stored proxy and the very same argument array.
   */
  function Invoke(acc: Accessor, handlers: InvocationHandlers, cache: MethodCache, methods: seq<Method>,
                  methodName: Option<string>, methodArgs: Option<seq<Obj>>): (r: Invoked)
    ensures methodName.None? ==> r == Invoked(Thrown(InvocationEx), cache)
    ensures Valid(cache, methods) ==> Valid(r.cache, methods)
    ensures methodName.Some? ==> r.cache.mapping.Some?
    ensures Valid(cache, methods) && methodName.Some? && FirstNamed(methods, methodName.value).None? ==>
      r.outcome == Thrown(InvocationEx)
    ensures Valid(cache, methods) && methodName.Some? && FirstNamed(methods, methodName.value).Some? ==>
      var m := FirstNamed(methods, methodName.value).value;
      var call := handlers(acc.invocationHandler, acc.proxy, m, methodArgs);
      && m.name == methodName.value
      && (call.Returned? ==> r.outcome == call)
      && (call.Thrown? && call.error.Undeclared? && call.error.cause.Some? ==>
            r.outcome == Thrown(call.error.cause.value))
      && (call.Thrown? && call.error.Undeclared? && call.error.cause.None? ==> r.outcome == call)
      && (call.Thrown? && !call.error.Undeclared? ==> r.outcome == call)
  {
    match methodName
    case None => Invoked(Thrown(InvocationEx), cache)
    case Some(name) =>
      var f := Get(cache, methods);
      if name !in f.table then Invoked(Thrown(InvocationEx), f.cache)
      else
        var call := handlers(acc.invocationHandler, acc.proxy, f.table[name], methodArgs);
        Invoked(Unwrap(call), f.cache)
  }

  /**
    The lookups do not depend on which call built the table: with any two
    caches holding nothing or the table, `invoke` ends the same way.
   */
  lemma InvokeIndependentOfCache(acc: Accessor, handlers: InvocationHandlers, c1: MethodCache, c2: MethodCache,
                                 methods: seq<Method>, methodName: Option<string>, methodArgs: Option<seq<Obj>>)
    requires Valid(c1, methods) && Valid(c2, methods)
    ensures Invoke(acc, handlers, c1, methods, methodName, methodArgs).outcome
         == Invoke(acc, handlers, c2, methods, methodName, methodArgs).outcome
  {
  }

  /**
    Usage errors are reported before any delegation: for a null or unknown
    name the outcome is the same whatever the handlers do.
   */
  lemma RejectionNeverCallsHandler(acc: Accessor, h1: InvocationHandlers, h2: InvocationHandlers, cache: MethodCache,
                                   methods: seq<Method>, methodName: Option<string>, methodArgs: Option<seq<Obj>>)
    requires Valid(cache, methods)
    requires methodName.None? || FirstNamed(methods, methodName.value).None?
    ensures Invoke(acc, h1, cache, methods, methodName, methodArgs)
         == Invoke(acc, h2, cache, methods, methodName, methodArgs)
    ensures Invoke(acc, h1, cache, methods, methodName, methodArgs).outcome == Thrown(InvocationEx)
  {
  }

  /**
    The bridge's own error is raised exactly for a null or unknown name, or
    when the handler itself threw it (bare or as the cause of a wrapper): a
    delegated failure is never turned into it.
   */
  lemma InvocationExOnlyForUsageErrors(acc: Accessor, handlers: InvocationHandlers, cache: MethodCache,
                                       methods: seq<Method>, methodName: Option<string>, methodArgs: Option<seq<Obj>>)
    requires Valid(cache, methods)
    ensures Invoke(acc, handlers, cache, methods, methodName, methodArgs).outcome == Thrown(InvocationEx)
      <==>
      || methodName.None?
      || FirstNamed(methods, methodName.value).None?
      || (var call := handlers(acc.invocationHandler, acc.proxy, FirstNamed(methods, methodName.value).value, methodArgs);
          call == Thrown(InvocationEx) || call == Thrown(Undeclared(Some(InvocationEx))))
  {
  }

  /** Only one layer of wrapping is removed: a wrapper inside a wrapper surfaces as the inner wrapper. */
  lemma UnwrapsOneLevel(acc: Accessor, handlers: InvocationHandlers, cache: MethodCache,
                        methods: seq<Method>, name: string, methodArgs: Option<seq<Obj>>, inner: Throwable)
    requires Valid(cache, methods)
    requires FirstNamed(methods, name).Some?
    requires handlers(acc.invocationHandler, acc.proxy, FirstNamed(methods, name).value, methodArgs)
          == Thrown(Undeclared(Some(Undeclared(Some(inner)))))
    ensures Invoke(acc, handlers, cache, methods, Some(name), methodArgs).outcome == Thrown(Undeclared(Some(inner)))
  {
  }

  /**
    The scenario of the library's tests: a freshly wrapped proxy invoked by the
    name of a declared method forwards that proxy, the first method with that
    name and the same arguments, and returns the handler's value unchanged.
   */
  lemma ConstructThenInvoke(element: Element, handlers: InvocationHandlers, cache: MethodCache,
                            methods: seq<Method>, name: string, methodArgs: Option<seq<Obj>>, v: Obj)
    requires element.ProxyEl?
    requires Valid(cache, methods)
    requires exists i :: 0 <= i < |methods| && methods[i].name == name
    requires forall m: Method :: m.name == name ==> handlers(element.handler, element, m, methodArgs) == Returned(v)
    ensures Construct(element).Returned?
    ensures Invoke(Construct(element).value, handlers, cache, methods, Some(name), methodArgs).outcome == Returned(v)
  {
  }
}
