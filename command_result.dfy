/**
 * `CommandResult`: what a command reports back to the player. Its
 * constructor is private, so every result comes from one of the three
 * factories, and a result claims success exactly when it is not an error.
 * The fields are final, which a datatype value is anyway.
 */
module CommandResults {
  datatype ResultType = Success | Error | Info

  datatype CommandResult = CommandResult(isSuccess: bool, message: string, kind: ResultType)

  /** `success(message)`. */
  function SuccessResult(message: string): (r: CommandResult)
    ensures r.isSuccess && r.kind == Success && r.message == message
  {
    CommandResult(true, message, Success)
  }

  /** `error(message)`: the only factory whose result is not a success. */
  function ErrorResult(message: string): (r: CommandResult)
    ensures !r.isSuccess && r.kind == Error && r.message == message
  {
    CommandResult(false, message, Error)
  }

  /** `info(message)`: a success shown as information. */
  function InfoResult(message: string): (r: CommandResult)
    ensures r.isSuccess && r.kind == Info && r.message == message
  {
    CommandResult(true, message, Info)
  }

  /** The factory for a kind of result. */
  function Make(kind: ResultType, message: string): CommandResult
  {
    match kind
    case Success => SuccessResult(message)
    case Error => ErrorResult(message)
    case Info => InfoResult(message)
  }

  /** Success is claimed exactly by the kinds other than `Error`. */
  predicate Consistent(r: CommandResult)
  {
    r.isSuccess <==> r.kind != Error
  }

  /**
   * The results the factories can make are exactly the consistent ones:
   * each factory's result is consistent, and a consistent result is the one
   * its kind's factory makes from its message.
   */
  lemma FactoryResultsConsistent(r: CommandResult)
    ensures Consistent(Make(r.kind, r.message))
    ensures Consistent(r) <==> r == Make(r.kind, r.message)
  {
  }
}
