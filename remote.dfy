/** Values shared by every page: optional values and the abstract outcome of a remote call. */
module Remote {

  datatype Option<+T> = None | Some(value: T)

  /** The outcome of one awaited HTTP call. A failure carries `error.response?.data?.message`
      (the server's message) and `error.message`; the empty string stands for a missing message,
      which JavaScript's `||` treats the same way. */
  datatype Outcome<+T> = Success(value: T) | Failure(serverMessage: string, message: string)

  /** The `{ success, message }` body most endpoints answer with. */
  datatype Reply = Reply(success: bool, message: string)

  /** `a || b` on strings: the first unless it is empty. */
  function OrElse(a: string, b: string): (r: string)
    ensures a != "" ==> r == a
    ensures a == "" ==> r == b
  {
    if a != "" then a else b
  }

  /** A toast notification: `showSuccess(text)` or `showError(text)`. */
  datatype Toast = SuccessToast(text: string) | ErrorToast(text: string)

  /** The message shown when a call answering `{ success, message }` does not succeed. A
      refusal throws `new Error(reply.message || refused)`; the handler then shows the
      server's message, else the error's own message, else `fallback`. */
  function ReplyError(outcome: Outcome<Reply>, refused: string, fallback: string): (m: string)
    requires !(outcome.Success? && outcome.value.success)
    ensures fallback != "" ==> m != ""
    ensures outcome.Success? && refused != "" ==> m == OrElse(outcome.value.message, refused)
    ensures outcome.Failure? ==> m == OrElse(outcome.serverMessage, OrElse(outcome.message, fallback))
  {
    match outcome
    case Success(reply) => OrElse(OrElse(reply.message, refused), fallback)
    case Failure(server, message) => OrElse(server, OrElse(message, fallback))
  }
}
