/** The errors the handlers raise. An `ExpressError(message, status)` reaches
    the transport as an HTTP status and a message; an error the handlers pass
    on untranslated gets the transport's default status 500. */
module Errors {

  datatype HttpError = HttpError(status: nat, message: string)

  /** What a handler or a model method yields: a value, or the error it throws. */
  datatype Outcome<+T> = Ok(value: T) | Err(error: HttpError)

  // routes/messages.js
  const MessageNotFound := HttpError(404, "Message not found")
  const UnauthorizedAccess := HttpError(401, "Unauthorized access")
  /** A database error the handler passes to the transport unchanged (a
      violated constraint, an id out of the integer range). The transport
      answers 500; the message text stands in for PostgreSQL's own. */
  const UntranslatedStoreError := HttpError(500, "database error")

  // routes/auth.js
  const CredentialsRequired := HttpError(404, "Username and password required!")
  const IncorrectCredentials := HttpError(400, "Username or Password is incorrect")
  const UsernameTaken := HttpError(400, "Username taken. Please choose another!")

  // routes/users.js
  const UserNotFound := HttpError(404, "User not found")

  // models/user.js
  const CouldNotRegister := HttpError(400, "Could not register user")
  const CouldNotAuthenticate := HttpError(400, "Could not authenticate user")
  const CouldNotUpdateLogin := HttpError(400, "Could not update login timestamp")
  const CouldNotFetchUsers := HttpError(404, "Could not fetch users")
  const CouldNotFetchUser := HttpError(404, "Could not fetch user")
  const CouldNotFetchFrom := HttpError(404, "Could not fetch messages from user")
  const CouldNotFetchTo := HttpError(404, "Could not fetch messages to user")
}
