/** Shared vocabulary of the chat core: identifiers, timestamps, optional
    values, the outcome of a remote call, user profiles and uploaded files. */
module Types {

  /** User ids are the string form of the database ids; the sockets and the
      HTTP routes carry them as strings. */
  type UserId = string

  /** A socket.io connection id. */
  type SocketId = string

  /** Message ids are allocated by the store; only their equality matters. */
  type MessageId = nat

  /** Milliseconds since the epoch, as `new Date()` gives them. */
  type Timestamp = int

  datatype Option<T> = None | Some(value: T) {
    function GetOr(default: T): T {
      match this
      case Some(v) => v
      case None => default
    }
  }

  /** The outcome of a step that can fail with an error value. */
  datatype Result<T, E> = Ok(value: T) | Err(error: E)

  /** Outcome of one HTTP call made by the browser: the reply body on a 2xx
      status, or a failure (network error or error status). */
  datatype Reply<T> = Failure | Success(value: T)

  /** A user as the server sends it to browsers: the database record with
      the password field removed. */
  datatype Profile = Profile(id: UserId, fullName: string, email: string, profilePic: string)

  /** A user record as stored, including the credential field. */
  datatype UserRecord = UserRecord(id: UserId, fullName: string, email: string, password: string, profilePic: string)

  /** A file chosen in the browser or received by the upload middleware:
      its original name, its declared MIME type and its size in bytes. */
  datatype File = File(name: string, mimeType: string, size: nat)
}
