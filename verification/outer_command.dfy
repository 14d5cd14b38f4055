/**
  `OuterCommandOf`: a method name and an argument array, built either directly
  or around a Selenide command (the element's `execute` method with the command
  as first argument), and executed on an element through `UnsafeElement`.
 */
module OuterCommand {
  import opened Jvm
  import opened MethodTable
  import opened UnsafeElement

  /** The two final fields, shared by both constructors. */
  datatype OuterCommand = OuterCommand(methodName: string, methodArgs: Option<seq<Obj>>)

  /** The element method that runs a command. */
  const ExecuteMethodName: string := "execute"

  /**
    The name constructor: only a null name is refused; the name is checked
    against the element's methods later, by `ExecuteOn`, and the array is kept
    as given, null included.
   */
  function OfName(methodName: Option<string>, methodArgs: Option<seq<Obj>>): (r: Result<OuterCommand>)
    ensures r.Thrown? <==> methodName.None?
    ensures r.Thrown? ==> r.error == NPE
    ensures r.Returned? ==> r.value.methodName == methodName.value && r.value.methodArgs == methodArgs
  {
    match methodName
    case None => Thrown(NPE)
    case Some(name) => Returned(OuterCommand(name, methodArgs))
  }

  /**
    `System.arraycopy(src, srcPos, dest, destPos, length)` on a fresh array:
    the copied window comes from `src`, every other slot keeps `dest`'s value.
    The bounds are what the JDK demands of its callers.
   */
  function ArrayCopy(src: seq<Obj>, srcPos: nat, dest: seq<Obj>, destPos: nat, length: nat): (r: seq<Obj>)
    requires srcPos + length <= |src|
    requires destPos + length <= |dest|
    ensures |r| == |dest|
    ensures forall i :: 0 <= i < |r| && !(destPos <= i < destPos + length) ==> r[i] == dest[i]
    ensures forall i :: destPos <= i < destPos + length ==> r[i] == src[srcPos + i - destPos]
  {
    dest[..destPos] + src[srcPos..srcPos + length] + dest[destPos + length..]
  }

  /**
    `arrayWithFirstElement(first, origin)` as written: a null or empty origin
    gives `[first]`; otherwise an array one longer than `origin` receives
    `first` and then only the first `|origin| - 1` elements of `origin`.
   */
  function ArrayWithFirstElement(first: Obj, origin: Option<seq<Obj>>): (r: seq<Obj>)
    ensures origin.None? || |origin.value| == 0 ==> r == [first]
    ensures origin.Some? && |origin.value| > 0 ==>
      && |r| == |origin.value| + 1
      && r[0] == first
      && (forall i :: 1 <= i < |origin.value| ==> r[i] == origin.value[i - 1])
      && r[|origin.value|] == Null
  {
    if origin.None? || |origin.value| == 0 then [first]
    else
      var n := |origin.value|;
      var slots := seq(n + 1, _ => Null)[0 := first];
      ArrayCopy(origin.value, 0, slots, 1, n - 1)
  }

  /**
    The last element of a non-empty origin never reaches the result: whatever
    it is, the result is the same.
   */
  lemma LastRestArgDropped(first: Obj, front: seq<Obj>, x: Obj, y: Obj)
    ensures ArrayWithFirstElement(first, Some(front + [x])) == ArrayWithFirstElement(first, Some(front + [y]))
    ensures ArrayWithFirstElement(first, Some(front + [x])) == [first] + front + [Null]
  {
  }

  /**
    The command constructor: a null command is refused, otherwise the stored
    name is `"execute"` and the stored array starts with the command.
   */
  function OfCommand(command: Option<Command>, restArgs: Option<seq<Obj>>): (r: Result<OuterCommand>)
    ensures r.Thrown? <==> command.None?
    ensures r.Thrown? ==> r.error == NPE
    ensures r.Returned? ==>
      && r.value.methodName == ExecuteMethodName
      && r.value.methodArgs.Some?
      && |r.value.methodArgs.value| >= 1
      && r.value.methodArgs.value[0] == Cmd(command.value)
    ensures r.Returned? ==> r.value.methodArgs == Some(ArrayWithFirstElement(Cmd(command.value), restArgs))
  {
    match command
    case None => Thrown(NPE)
    case Some(c) => OfName(Some(ExecuteMethodName), Some(ArrayWithFirstElement(Cmd(c), restArgs)))
  }

  /**
    `executeOn(element)`: null and non-proxy elements are reported as the
    bridge's own error before anything is delegated; a proxy is wrapped and
    the stored name and array are invoked on it.
   */
  function ExecuteOn(cmd: OuterCommand, element: Element, handlers: InvocationHandlers,
                     cache: MethodCache, methods: seq<Method>): (r: Invoked)
    ensures !element.ProxyEl? ==> r == Invoked(Thrown(InvocationEx), cache)
    ensures element.ProxyEl? ==>
      && Construct(element).Returned?
      && r == Invoke(Construct(element).value, handlers, cache, methods, Some(cmd.methodName), cmd.methodArgs)
  {
    if element.NullElement? then Invoked(Thrown(InvocationEx), cache)
    else if !element.ProxyEl? then Invoked(Thrown(InvocationEx), cache)
    else
      var acc := Construct(element).value;
      Invoke(acc, handlers, cache, methods, Some(cmd.methodName), cmd.methodArgs)
  }

  /**
    Through `executeOn`, the constructor's `NullPointerException` and
    `IllegalArgumentException` never surface: when the outcome is one of them,
    the handler threw it.
   */
  lemma ExecuteOnNeverLeaksConstructorErrors(cmd: OuterCommand, element: Element, handlers: InvocationHandlers,
                                             cache: MethodCache, methods: seq<Method>)
    requires Valid(cache, methods)
    ensures var r := ExecuteOn(cmd, element, handlers, cache, methods);
      r.outcome == Thrown(NPE) || r.outcome == Thrown(IAE) ==>
        && element.ProxyEl?
        && FirstNamed(methods, cmd.methodName).Some?
        && var call := handlers(element.handler, element, FirstNamed(methods, cmd.methodName).value, cmd.methodArgs);
           call == r.outcome || call == Thrown(Undeclared(Some(r.outcome.error)))
  {
  }

  /**
    A command built by name and run on a proxy whose handler answers that
    method with `v` forwards the proxy, the first method of that name and the
    very array given to the constructor, and returns `v`.
   */
  lemma ByNameExecuteOn(name: string, args: Option<seq<Obj>>, element: Element,
                        handlers: InvocationHandlers, cache: MethodCache, methods: seq<Method>, v: Obj)
    requires element.ProxyEl?
    requires Valid(cache, methods)
    requires exists i :: 0 <= i < |methods| && methods[i].name == name
    requires handlers(element.handler, element, FirstNamed(methods, name).value, args) == Returned(v)
    ensures OfName(Some(name), args).Returned?
    ensures ExecuteOn(OfName(Some(name), args).value, element, handlers, cache, methods).outcome == Returned(v)
  {
  }

  /**
    A command built around `c` and run on a proxy invokes the first element
    method named `"execute"` with an array whose first element is `c`, and
    returns what the handler returns.
   */
  lemma ByCommandExecuteOn(c: Command, restArgs: Option<seq<Obj>>, element: Element,
                           handlers: InvocationHandlers, cache: MethodCache, methods: seq<Method>, v: Obj)
    requires element.ProxyEl?
    requires Valid(cache, methods)
    requires exists i :: 0 <= i < |methods| && methods[i].name == ExecuteMethodName
    requires forall m: Method, a: seq<Obj> :: m.name == ExecuteMethodName && |a| >= 1 && a[0] == Cmd(c) ==>
               handlers(element.handler, element, m, Some(a)) == Returned(v)
    ensures OfCommand(Some(c), restArgs).Returned?
    ensures ExecuteOn(OfCommand(Some(c), restArgs).value, element, handlers, cache, methods).outcome == Returned(v)
  {
  }
}
