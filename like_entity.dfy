/**
 * The `like` table row. The unique index on (user_id, post_id) makes the pair a key:
 * the repository below stores like rows in a map keyed by LikeKey, so findByUserAndPost
 * has zero or one result. The setters are private.
 */
module LikeEntities {
  import opened Wrappers
  import opened Basics

  datatype LikeKey = LikeKey(user: UserId, post: PostId)

  datatype LikeEntity = LikeEntity(user: UserId, post: PostId, createdDateTime: Option<Time>)

  function Key(e: LikeEntity): LikeKey
  {
    LikeKey(e.user, e.post)
  }

  /** `LikeEntity.of(user, post)`. */
  function Of(user: UserId, post: PostId): (e: LikeEntity)
    ensures Key(e) == LikeKey(user, post)
    ensures e.createdDateTime.None?
  {
    LikeEntity(user, post, None)
  }

  /** @PrePersist: the only place createdDateTime is written (the column is not updatable). */
  function PrePersist(e: LikeEntity, now: Time): (r: LikeEntity)
    ensures Key(r) == Key(e) && r.createdDateTime == Some(now)
  {
    e.(createdDateTime := Some(now))
  }
}
