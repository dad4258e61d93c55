/**
 * The `follow` table row. The unique index on (follower, following) makes the pair a key:
 * the repository below stores follow rows in a map keyed by FollowKey.
 * The setters are private, so a row's endpoints never change after `of`.
 */
module FollowEntities {
  import opened Wrappers
  import opened Basics

  datatype FollowKey = FollowKey(follower: UserId, following: UserId)

  datatype FollowEntity = FollowEntity(follower: UserId, following: UserId, createdDateTime: Option<Time>)

  function Key(e: FollowEntity): FollowKey
  {
    FollowKey(e.follower, e.following)
  }

  /** `FollowEntity.of(follower, following)`: the first argument is the follower, never swapped. */
  function Of(follower: UserId, following: UserId): (e: FollowEntity)
    ensures Key(e) == FollowKey(follower, following)
    ensures follower != following ==> Key(e) != FollowKey(following, follower)
    ensures e.createdDateTime.None?
  {
    FollowEntity(follower, following, None)
  }

  /** @PrePersist: the only place createdDateTime is written (the column is not updatable). */
  function PrePersist(e: FollowEntity, now: Time): (r: FollowEntity)
    ensures Key(r) == Key(e) && r.createdDateTime == Some(now)
  {
    e.(createdDateTime := Some(now))
  }
}
