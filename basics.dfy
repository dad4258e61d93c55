/** Scalar types shared by the entities, the repositories and the services. */
module Basics {

  /** An instant (ZonedDateTime / java.util.Date), as milliseconds on the server clock. */
  type Time = nat

  /** Primary keys of the user, post and reply tables. */
  type UserId = nat
  type PostId = nat
  type ReplyId = nat

  /** `Math.max(0, c - 1)`, the decrement the services apply to every counter. */
  function FloorDecrement(c: nat): nat
  {
    if c >= 1 then c - 1 else 0
  }
}
