/**
  The Java-side values the bypass layer handles, reduced to what its logic can
  observe: object references, arrays (a `null` array is `None`), proxied
  elements, reflective methods, throwables, and the two outcomes of a Java call
  (a returned value or a thrown failure).
 */
module Jvm {

  /** `None` stands for a Java `null` where the Java code accepts one. */
  datatype Option<+T> = None | Some(value: T)

  /**
    A Selenide `Command`. `Opaque(id)` is any implementation outside this
    library (its behaviour is a parameter, see `CommandRunner`); `CustomArgs` is
    the argument-substituting command, itself a command and so able to wrap
    another one.
   */
  datatype Command =
    | Opaque(id: nat)
    | CustomArgs(origin: Command, commandArgs: Option<seq<Obj>>)

  /** A Java object reference as it can appear inside an argument array. */
  datatype Obj = Null | Ref(id: nat) | Cmd(command: Command)

  /** Reference to an `InvocationHandler` object. */
  type HandlerRef = nat

  /**
    A `SelenideElement` reference: `null`, an ordinary object (a mock, say) or
    an instance of a dynamic proxy class, which carries its invocation handler.
   */
  datatype Element =
    | NullElement
    | Plain(id: nat)
    | ProxyEl(id: nat, handler: HandlerRef)

  /** A reflective `Method`: overloads share a name and differ in signature. */
  datatype Method = Method(name: string, signature: nat)

  /**
    The failures the core raises or passes on. `Undeclared` is
    `UndeclaredThrowableException` with its possibly-null cause, `InvocationEx`
    is `SelenideElementInvocationException`, `NPE` and `IAE` are
    `NullPointerException` and `IllegalArgumentException`, and `Other` is any
    other throwable, identified by reference.
   */
  datatype Throwable =
    | Undeclared(cause: Option<Throwable>)
    | Other(id: nat)
    | InvocationEx
    | NPE
    | IAE

  /** How a Java call ends: it returns a value or throws. */
  datatype Result<+T> = Returned(value: T) | Thrown(error: Throwable)

  type Outcome = Result<Obj>

  /** What `handler.invoke(proxy, method, args)` does, for every handler object. */
  type InvocationHandlers = (HandlerRef, Element, Method, Option<seq<Obj>>) -> Outcome

  /** What `command.execute(proxy, locator, args)` does for each opaque command. */
  type CommandRunner = (nat, Element, Obj, Option<seq<Obj>>) -> Outcome
}
