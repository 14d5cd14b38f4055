# selenide-hacks bypass layer, modelled in Dafny

This project models the core of selenide-hacks. The library bypasses the
auto-retrying proxy Selenide wraps around a `SelenideElement`. It pulls the
proxy's `InvocationHandler` out and calls an element method by name straight
through it, exactly once. It also offers two small command values built on top
of that. The model covers three classes:

- `UnsafeSelenideElementOf` (modules `MethodTable` and `UnsafeElement`):
  - the name-to-method table, where the first overload wins;
  - its lazily built process-wide cache;
  - the constructor's checks;
  - `invoke`, with its order of checks and its one-level unwrapping of
    `UndeclaredThrowableException`;
  - `asSelenideElement`.
- `OuterCommandOf` (module `OuterCommand`):
  - the name constructor and the command constructor;
  - `arrayWithFirstElement`, exactly as written;
  - `executeOn`, which validates the element and then delegates to `invoke`.
- `CustomArgsCommandOf` (module `CustomArgsCommand`): a command that forwards
  the receiver and locator unchanged and always substitutes its stored
  argument array.

Module `Jvm` holds the Java values the logic can observe:
- an `Element` is `null`, a plain object or a proxy carrying its handler;
- an `Obj` is a `null`, a reference or a `Command`;
- arrays are `Option<seq<Obj>>`, where `None` is a `null` array;
- a `Method` has a name and a signature;
- a `Throwable` is one of the failures the core raises or passes on;
- a `Result` is a value returned or a failure thrown.

Foreign behaviour is passed in as parameters:
- what each invocation handler does (`InvocationHandlers`);
- what each command outside the library does (`CommandRunner`);
- the JVM's `SelenideElement.class.getMethods()` order (`methods: seq<Method>`).

The model says "never calls the handler" as "the outcome is the same for every
handler function". It says "forwards exactly these arguments" as "the outcome
is the handler function applied to exactly these values".

Three behaviours of the code are worth noting:
- The `UnsafeSelenideElementOf` constructor raises `NullPointerException` for a
  null element and `IllegalArgumentException` for a non-proxy element. It does
  not raise the library's invocation exception. `executeOn` checks both cases
  itself first and reports them as the invocation exception.
- The name constructor of `OuterCommandOf` stores a `null` argument array as
  `null`. It is not treated as empty, and `invoke` forwards it to the handler as
  it is.
- For a non-empty rest array of length n, `arrayWithFirstElement` returns an
  array of length n + 1. That array holds the command, then the first n − 1
  rest elements, then `null`. The last rest element is dropped. This looks like
  an off-by-one, but it is modelled and proved as written
  (`OuterCommand.ArrayWithFirstElement`, `OuterCommand.LastRestArgDropped`).

## Model

| member | source | states |
|---|---|---|
| `MethodTable.FirstNamed` | src/main/java/com/plugatar/selenidehacks/impl/UnsafeSelenideElementOf.java:54-61 | Reference meaning of a table lookup: a result exists iff some listed method has the name; it has that name and sits at a position with no earlier method of the same name. |
| `MethodTable.CollectKeepsFirst` | src/main/java/com/plugatar/selenidehacks/impl/UnsafeSelenideElementOf.java:56-60 | The collector with merge `(m1, m2) -> m1` never overwrites a key already present; for a new key it holds exactly the first method of the remaining list with that name. |
| `MethodTable.BuildTable` | src/main/java/com/plugatar/selenidehacks/impl/UnsafeSelenideElementOf.java:54-61 | A name is a key iff some method has it, and its entry is the first method with that name; names not in the list map to nothing. |
| `MethodTable.TableKeysAreDeclaredNames` | src/main/java/com/plugatar/selenidehacks/impl/UnsafeSelenideElementOf.java:54-61 | The table's keys are exactly the declared method names, and each entry is a declared method that carries its key as its name. |
| `MethodTable.OverloadKeepsFirst` | src/main/java/com/plugatar/selenidehacks/impl/UnsafeSelenideElementOf.java:59 | A later overload with the same name never displaces the first one. |
| `MethodTable.Get` | src/main/java/com/plugatar/selenidehacks/impl/UnsafeSelenideElementOf.java:49-68 | A cache that is empty or holds the table yields the table built from the method list. It is afterwards filled with that table, and an already filled cache is returned unchanged without a build. |
| `MethodTable.BuildsAtMostOnce` | src/main/java/com/plugatar/selenidehacks/impl/UnsafeSelenideElementOf.java:45-69 | Over any number of successive lookups the table is built once if the cache started empty and never if it was filled. The cache ends holding the table. |
| `UnsafeElement.Construct` | src/main/java/com/plugatar/selenidehacks/impl/UnsafeSelenideElementOf.java:80-83 | Fails with NPE exactly for null, and with IAE exactly for a non-proxy element. Otherwise it succeeds, `asSelenideElement()` is the very element given, and the stored handler is the proxy's own. |
| `UnsafeElement.Invoke` | src/main/java/com/plugatar/selenidehacks/impl/UnsafeSelenideElementOf.java:87-106 | A null name fails with the invocation exception and leaves the cache untouched. An unknown name fails with it too. For a known name the handler gets the stored proxy, the first method of that name and the same array. Its return value comes back unchanged; a wrapper with a cause throws the cause; a wrapper without one is rethrown itself; every other failure is rethrown as it is. The cache stays valid. |
| `UnsafeElement.Unwrap` | src/main/java/com/plugatar/selenidehacks/impl/UnsafeSelenideElementOf.java:96-105 | The catch clauses: an undeclared-throwable wrapper with a non-null cause comes out as that cause; everything else (a returned value, a wrapper with a null cause, any other failure) comes out unchanged. |
| `UnsafeElement.InvokeIndependentOfCache` | src/main/java/com/plugatar/selenidehacks/impl/UnsafeSelenideElementOf.java:45-69 | The outcome of `invoke` is the same whether the cache was already filled or gets built by this very call. |
| `UnsafeElement.RejectionNeverCallsHandler` | src/main/java/com/plugatar/selenidehacks/impl/UnsafeSelenideElementOf.java:89-93 | For a null or unknown name, the outcome (the invocation exception) is the same whatever the handlers do, so none is consulted. |
| `UnsafeElement.InvocationExOnlyForUsageErrors` | src/main/java/com/plugatar/selenidehacks/impl/UnsafeSelenideElementOf.java:89-105 | `invoke` throws the invocation exception iff the name is null or unknown, or the handler threw it, bare or as a wrapper's cause. A delegated failure is never converted into it. |
| `UnsafeElement.UnwrapsOneLevel` | src/main/java/com/plugatar/selenidehacks/impl/UnsafeSelenideElementOf.java:96-102 | Only one layer is unwrapped: a wrapper around a wrapper surfaces as the inner wrapper. |
| `UnsafeElement.ConstructThenInvoke` | src/test/java/com/plugatar/selenidehacks/impl/UnsafeSelenideElementOfTest.java:79-119 | A proxy is accepted, and invoking a declared method name on it returns the value the handler gives for that method, unchanged. |
| `OuterCommand.OfName` | src/main/java/com/plugatar/selenidehacks/impl/OuterCommandOf.java:65-69 | Fails with NPE exactly for a null name. Any other name, `""` included, is accepted with the array stored as given (null included). |
| `OuterCommand.ArrayCopy` | src/main/java/com/plugatar/selenidehacks/impl/OuterCommandOf.java:87 | `System.arraycopy` into a fresh array: the result has the destination's length, the copied window holds the source's elements at the shifted position, and every other slot is unchanged. |
| `OuterCommand.ArrayWithFirstElement` | src/main/java/com/plugatar/selenidehacks/impl/OuterCommandOf.java:80-90 | Null or empty origin gives `[first]`. For an origin of length n > 0: length n + 1, `r[0] = first`, `r[i] = origin[i-1]` for 1 ≤ i ≤ n−1, and `r[n] = null`. |
| `OuterCommand.LastRestArgDropped` | src/main/java/com/plugatar/selenidehacks/impl/OuterCommandOf.java:85-88 | The result does not depend on the origin's last element, and equals `[first] + front + [null]`. |
| `OuterCommand.OfCommand` | src/main/java/com/plugatar/selenidehacks/impl/OuterCommandOf.java:47-56 | Fails with NPE exactly for a null command. Otherwise the stored name is `"execute"` and the stored array is non-null, starts with the command, and is `arrayWithFirstElement(command, rest)`. |
| `OuterCommand.ExecuteOn` | src/main/java/com/plugatar/selenidehacks/impl/OuterCommandOf.java:72-78 | A null or non-proxy element fails with the invocation exception, never NPE or IAE, before any delegation and without touching the cache. For a proxy the outcome is exactly that of wrapping it and invoking the stored name and array. |
| `OuterCommand.ExecuteOnNeverLeaksConstructorErrors` | src/main/java/com/plugatar/selenidehacks/impl/OuterCommandOf.java:73-77 | If `executeOn` ends in NPE or IAE, the element was a proxy, the name resolved, and the handler threw that failure, bare or wrapped. |
| `OuterCommand.ByNameExecuteOn` | src/test/java/com/plugatar/selenidehacks/impl/OuterCommandOfTest.java:92-131 | A by-name command run on a proxy makes the handler see that proxy, the first method of that name and the constructor's array. The handler's value is returned. |
| `OuterCommand.ByCommandExecuteOn` | src/test/java/com/plugatar/selenidehacks/impl/OuterCommandOfTest.java:135-178 | A by-command command run on a proxy makes the handler see a method named `"execute"` and an array whose first element is the command. The handler's value is returned. |
| `CustomArgsCommand.NewCustomArgs` | src/main/java/com/plugatar/selenidehacks/impl/CustomArgsCommandOf.java:46-50 | Fails with NPE exactly for a null origin. Otherwise it keeps the origin and the given array (null or empty included). |
| `CustomArgsCommand.Execute` | src/main/java/com/plugatar/selenidehacks/impl/CustomArgsCommandOf.java:53-57 | Executing any stack of substituting commands runs the innermost command with the same receiver and locator, and with the arguments the innermost substituting layer pinned. Its value or failure is the result. |
| `CustomArgsCommand.ExecuteIgnoresCallArgs` | src/main/java/com/plugatar/selenidehacks/impl/CustomArgsCommandOf.java:53-56 | The arguments a substituting command is called with never influence the outcome. |
| `CustomArgsCommand.ExecuteDelegatesToOrigin` | src/main/java/com/plugatar/selenidehacks/impl/CustomArgsCommandOf.java:46-57 | A built substituting command, called with anything, ends exactly as its origin called with the same receiver, the same locator and the stored array. |
| `CustomArgsCommand.OpaqueOriginSeesStoredArgs` | src/test/java/com/plugatar/selenidehacks/impl/CustomArgsCommandOfTest.java:44-80 | A wrapped foreign command receives the receiver, the locator and the stored array. Its result comes back unchanged. |

## Left out

- Reflection and proxies: `Proxy.getInvocationHandler`, `Proxy.isProxyClass` and `getMethods()` are reduced to the `Element` tag, the handler parameter and the method list.
- Concurrency: the volatile field and the `synchronized` double check around the table build are modelled as a sequential cache (`MethodTable.Get`). Thread interleavings are not modelled.
- `sneakyThrow` and the unchecked `(ANY)` cast are Java type-system devices. They become the `Result` datatype, and a wrong assumed return type is not modelled.
- `UnsafeElement.Invoke`: "the handler is called exactly once" is not stated as a call count. In a pure model the outcome is the handler applied once to the forwarded values.
- The immutability of the stored fields (`final` in all three classes) is structural: every value here is immutable, so no contract states it separately.
- `asSelenideElement` (`UnsafeElement.AsSelenideElement`) has no contract of its own. Its identity property is stated on `UnsafeElement.Construct`.
- Messages and causes of `SelenideElementInvocationException` are inherited `RuntimeException` behaviour. One error tag stands for all four constructors.
- The static factories in `OuterCommand.java` and `UnsafeSelenideElement.java` are one-line delegations to the constructors modelled here.
- `SecurityException` from `Proxy.getInvocationHandler` is dropped: `UnsafeElement.Construct` always succeeds on a proxy. An `IOException` from `Command.execute` is part of the foreign behaviour (`CommandRunner`), an `Other` throwable like any other.
- Array identity and mutation: arrays are values (`Option<seq<Obj>>`), so "the same array" in `UnsafeElement.Invoke`, `OuterCommand.OfName`, `CustomArgsCommand.NewCustomArgs` and `CustomArgsCommand.ExecuteDelegatesToOrigin` means equal contents, not the same reference. The stored array reference is shared with foreign code: the invocation handler, the origin command and the caller who passed it can all write into it, and in Java a later `executeOn` or `execute` then sees the changed contents. Commands are values too (`Obj.Cmd`): two distinct `CustomArgsCommandOf` objects with equal fields are the same `Obj`, where Java would tell them apart by reference. Mutation through a shared reference is not modelled; the model always passes the contents given to the constructor. The writes `arrayWithFirstElement` makes into its own fresh array are modelled as the value it returns.
