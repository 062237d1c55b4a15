/** CommandError: the immutable value every failed command execution is reported with. */
module CommandErrors {

  /** CommandError.ErrorType. */
  datatype ErrorType =
    | InvalidArguments
    | NoPermission
    | PlayerOnly
    | ConsoleOnly
    | ExecutionError
    | Unknown

  const AllErrorTypes: seq<ErrorType> :=
    [InvalidArguments, NoPermission, PlayerOnly, ConsoleOnly, ExecutionError, Unknown]

  /** There are exactly six error kinds, each listed once. */
  lemma ErrorTypesEnumerated(k: ErrorType)
    ensures k in AllErrorTypes
    ensures |AllErrorTypes| == 6
    ensures forall i, j :: 0 <= i < j < |AllErrorTypes| ==> AllErrorTypes[i] != AllErrorTypes[j]
  {
  }

  /** The three-argument constructor; the fields are final, so a value never changes. */
  datatype CommandError = CommandError(kind: ErrorType, message: string, usage: string)

  /** The two-argument constructor: no usage text. */
  function NewError(kind: ErrorType, message: string): (e: CommandError)
    ensures e.kind == kind && e.message == message && e.usage == ""
  {
    CommandError(kind, message, "")
  }
}
