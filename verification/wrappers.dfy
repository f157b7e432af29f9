/** The optional value used wherever the NestJS services return `null` or `undefined`. */
module Wrappers {

  datatype Option<+T> = None | Some(value: T) {

    /** The wrapped value, or `default` when there is none. */
    function GetOr(default: T): T {
      match this
      case Some(v) => v
      case None => default
    }
  }

  /**
   * The two ways a call into a service, Prisma or the Redis client can end: it
   * returns a value, or the promise it returns is rejected (an exception reaches
   * the caller).
   */
  datatype Outcome<+T> = Returned(value: T) | Threw
}
