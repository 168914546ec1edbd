// The two command objects views bind buttons to. An action is named by an
// identifier; executing a command yields the invocations it makes.
module CommandBase {
  import opened Wrappers

  /** One call of the action named id, with the command parameter. */
  datatype Invocation<P> = Invocation(id: nat, parameter: Option<P>)

  /** A command whose action and predicate are both optional. */
  datatype CommandBase<!P> = CommandBase(doExecute: Option<nat>, doCanExecute: Option<Option<P> -> bool>)

  /** Without a predicate nothing may execute; otherwise the predicate
      decides. */
  function CanExecute<P>(c: CommandBase<P>, parameter: Option<P>): (r: bool)
    ensures c.doCanExecute.None? ==> !r
    ensures c.doCanExecute.Some? ==> r == c.doCanExecute.value(parameter)
  {
    c.doCanExecute.Some? && c.doCanExecute.value(parameter)
  }

  /** Without an action executing does nothing. */
  function Execute<P>(c: CommandBase<P>, parameter: Option<P>): (r: seq<Invocation<P>>)
    ensures c.doExecute.None? <==> r == []
    ensures c.doExecute.Some? ==> r == [Invocation(c.doExecute.value, parameter)]
  {
    if c.doExecute.None? then [] else [Invocation(c.doExecute.value, parameter)]
  }

  /** A command with a required action and an optional parameterless
      predicate. */
  datatype RelayCommand = RelayCommand(execute: nat, canExecute: Option<() -> bool>)

  datatype CommandError = ArgumentNull

  /** The constructor refuses a null action. */
  function NewRelayCommand(execute: Option<nat>, canExecute: Option<() -> bool>): (r: Result<RelayCommand, CommandError>)
    ensures execute.None? <==> r == Err(ArgumentNull)
    ensures r.Ok? ==> r.value.execute == execute.value && r.value.canExecute == canExecute
  {
    if execute.None? then Err(ArgumentNull) else Ok(RelayCommand(execute.value, canExecute))
  }

  /** Without a predicate the command may always execute. */
  function RelayCanExecute(c: RelayCommand): (r: bool)
    ensures c.canExecute.None? ==> r
    ensures c.canExecute.Some? ==> r == c.canExecute.value()
  {
    if c.canExecute.None? then true else c.canExecute.value()
  }

  /** The action runs whatever the parameter. */
  function RelayExecute<P>(c: RelayCommand, parameter: Option<P>): (r: seq<nat>)
    ensures r == [c.execute]
  {
    [c.execute]
  }
}
