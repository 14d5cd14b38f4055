/**
  `CustomArgsCommandOf`: a command that runs an origin command with the
  receiver and locator it is given but with its own stored argument array in
  place of the one it is called with.
 */
module CustomArgsCommand {
  import opened Jvm

  /**
    The constructor: a null origin is refused; the argument array is stored as
    given, null and empty included.
   */
  function NewCustomArgs(origin: Option<Command>, commandArgs: Option<seq<Obj>>): (r: Result<Command>)
    ensures r.Thrown? <==> origin.None?
    ensures r.Thrown? ==> r.error == NPE
    ensures r.Returned? ==> r.value.CustomArgs? && r.value.origin == origin.value && r.value.commandArgs == commandArgs
  {
    match origin
    case None => Thrown(NPE)
    case Some(c) => Returned(CustomArgs(c, commandArgs))
  }

  /** The command that finally runs once every argument-substituting layer is peeled off. */
  function Innermost(c: Command): nat {
    match c
    case Opaque(id) => id
    case CustomArgs(origin, _) => Innermost(origin)
  }

  /**
    The arguments the innermost command receives: the call's own arguments for
    an opaque command, the arguments pinned by the innermost substituting layer
    otherwise.
   */
  function EffectiveArgs(c: Command, callArgs: Option<seq<Obj>>): Option<seq<Obj>> {
    match c
    case Opaque(_) => callArgs
    case CustomArgs(origin, commandArgs) => EffectiveArgs(origin, commandArgs)
  }

  /**
    `command.execute(proxy, locator, args)`. For an argument-substituting
    command this is the origin's `execute` with the same receiver and locator
    and the stored arguments; the origin's value or failure is the result.
    The ensures unfolds the whole stack of layers at once through `Innermost`
    and `EffectiveArgs`, which follow the same recursion and are no independent
    definition; the property the class exists for, that the call's own
    arguments are never observed, is `ExecuteIgnoresCallArgs`.
   */
  function Execute(c: Command, run: CommandRunner, proxy: Element, locator: Obj, args: Option<seq<Obj>>): (r: Outcome)
    ensures r == run(Innermost(c), proxy, locator, EffectiveArgs(c, args))
  {
    match c
    case Opaque(id) => run(id, proxy, locator, args)
    case CustomArgs(origin, commandArgs) => Execute(origin, run, proxy, locator, commandArgs)
  }

  /** The arguments an argument-substituting command is called with are never observed. */
  lemma ExecuteIgnoresCallArgs(c: Command, run: CommandRunner, proxy: Element, locator: Obj,
                               a1: Option<seq<Obj>>, a2: Option<seq<Obj>>)
    requires c.CustomArgs?
    ensures Execute(c, run, proxy, locator, a1) == Execute(c, run, proxy, locator, a2)
  {
  }

  /**
    A freshly built argument-substituting command, whatever it is called with,
    ends exactly as its origin does when called with the same receiver and
    locator and the stored arguments.
   */
  lemma ExecuteDelegatesToOrigin(origin: Command, commandArgs: Option<seq<Obj>>, run: CommandRunner,
                                 proxy: Element, locator: Obj, ignoredArgs: Option<seq<Obj>>)
    ensures NewCustomArgs(Some(origin), commandArgs).Returned?
    ensures Execute(NewCustomArgs(Some(origin), commandArgs).value, run, proxy, locator, ignoredArgs)
         == Execute(origin, run, proxy, locator, commandArgs)
  {
  }

  /**
    Wrapping an opaque command: it receives the receiver, the locator and the
    stored array, and its value or failure comes back unchanged.
   */
  lemma OpaqueOriginSeesStoredArgs(id: nat, commandArgs: Option<seq<Obj>>, run: CommandRunner,
                                   proxy: Element, locator: Obj, ignoredArgs: Option<seq<Obj>>)
    ensures Execute(CustomArgs(Opaque(id), commandArgs), run, proxy, locator, ignoredArgs)
         == run(id, proxy, locator, commandArgs)
  {
  }
}
