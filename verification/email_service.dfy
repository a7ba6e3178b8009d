/** `EmailService.SendEmailAsync`, the mail transport, seen from its callers: SMTP and the
    retry policy inside it are not modelled, only what one awaited call comes back with. */
module EmailService {

  /** What one call of `SendEmailAsync` does: answers true, answers false, throws an
      `OperationCanceledException`, or throws any other exception. */
  datatype SendOutcome = Sent | Refused | Canceled | Faulted
  {
    /** The call came back with an answer instead of an exception. */
    predicate Answered()
    {
      this == Sent || this == Refused
    }
  }
}
