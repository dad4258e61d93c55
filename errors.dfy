/** The exception classes the core throws, reduced to one datatype. */
module Errors {
  import opened Wrappers

  datatype Error =
      // UserNotFoundException(username) carries the name in its message; the no-argument
      // constructor (used for a wrong password) does not.
    | UserNotFound(username: Option<string>)
    | UserAlreadyExists
    | UserNotAllowed
    | InvalidFollow
    | FollowAlreadyExists
    | FollowNotFound
    | PostNotFound
    | ReplyNotFound
      // JwtTokenNotFoundException: no "Bearer " header on a request.
    | JwtTokenNotFound
      // A JwtException from parsing or verifying the access token.
    | InvalidToken

  /** The HTTP status a ClientErrorException carries, for the exception classes that are part of this model. */
  function Status(e: Error): Option<nat>
  {
    match e
    case UserNotFound(_) => Some(404)
    case UserAlreadyExists => Some(409)
    case InvalidFollow => Some(400)
    case FollowAlreadyExists => Some(409)
    case FollowNotFound => Some(404)
    case _ => None
  }
}
