/**
  What a command does to the outside world. Every subprocess call and file
  access of the CLI is an `Action`; its outcome is an input to the model, so a
  command becomes a function from those outcomes to the actions it takes and
  the result it returns.
 */
module Effects {

  /** A value or the message of the error the CLI returns. */
  datatype Result<T> = Ok(value: T) | Err(msg: string)

  /** How an external step ended. */
  datatype Outcome = Success | Failure(msg: string)

  datatype Action =
    | ReadFile(path: string)
    | StatFile(path: string)
    | Kubectl(args: seq<string>)
    | KubectlApply(args: seq<string>, stdin: string)
    | Docker(args: seq<string>)
    | DevcontainerCli(args: seq<string>)

  /** The actions a command took, in order, and what it returned. */
  datatype Run = Run(actions: seq<Action>, outcome: Outcome)
}
