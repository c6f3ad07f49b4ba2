/** The records the frontend and the backend exchange
    (frontend/src/types/index.ts), and the `Option` wrapper used for
    JavaScript's `undefined` and Python's `None`. */
module Types {

  datatype Option<+T> = None | Some(value: T) {
    function GetOr(default: T): T
    {
      match this
      case Some(v) => v
      case None => default
    }
  }

  datatype Result<+T, +E> = Success(value: T) | Failure(error: E)

  /** One interview question with its sample answer. */
  datatype QAPair = QAPair(question: string, answer: string)

  /** One job-search link. */
  datatype Job = Job(platform: string, url: string)
}
