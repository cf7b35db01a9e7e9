/** Failure-carrying values shared by the merge scripts and the task script. */
module Results {

  datatype Option<+T> = None | Some(value: T)

  /** The Python exceptions the modelled code can raise, with what they name. */
  datatype Exception =
    | KeyError(key: string)          // a column that is not in the frame
    | ValueError(reason: string)     // e.g. unpacking `date.split("/")` into three names
    | IndexError(reason: string)     // `[0]` on an empty list, `pop()` from an empty list
    | TypeError(reason: string)      // slicing or adding to a value of the wrong type
    | AttributeError(reason: string) // `.split` on a value that is not a string
    | FileNotFound(file: DataFile)   // `read_csv` of a file that is not in the data directory

  /** The files of the data directory that are read by name. */
  datatype DataFile =
    | SmsTimes(uid: string)               // sub-<uid>_sms-times.csv
    | RunEvents(uid: string, run: string) // sub-<uid>_task-HealthMessage_run-<run>_events.tsv
    | Export(name: string)                // a survey export named in full

  datatype Result<+T> = Success(value: T) | Failure(error: Exception) {
    predicate IsFailure() { Failure? }

    function PropagateFailure<U>(): Result<U>
      requires Failure?
    {
      Failure(error)
    }

    function Extract(): T
      requires Success?
    {
      value
    }
  }
}
