/** Identifiers, timestamps and the records shared by the chat service's components. */
module Entities {
  /** An opaque identifier; fresh ones are allocated by the component that inserts a row. */
  type Id = nat

  /** The all-zero identifier, which the entity constructors reject. */
  const NIL: Id := 0

  /** A point on the clock; only its order matters. */
  type Time = int

  datatype Option<+T> = None | Some(value: T)

  datatype Error =
    | Required(field: string)
    | NotFound
    | AccessDenied
    | UniqueViolation
    | CheckViolation
    | ForeignKeyViolation
    | Unavailable

  datatype Result<+T> = Ok(value: T) | Err(error: Error)

  /** How a remote statement ends: it may also take effect and still be reported as failed. */
  datatype Outcome = Succeeds | Fails | FailsAfterEffect

  datatype ChatMessage = ChatMessage(
    id: Id,
    workspaceId: Id,
    conversationId: Id,
    personId: Id,
    senderName: string,
    content: string,
    createdAt: Time)
}
