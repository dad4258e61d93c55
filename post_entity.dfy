/**
 * The `post` table row. `user` is the owner's primary key (the @ManyToOne join column).
 * Publicly settable in the Java class: body, repliesCount, likesCount.
 */
module PostEntities {
  import opened Wrappers
  import opened Basics

  datatype PostEntity = PostEntity(
    id: Option<PostId>,
    body: string,
    repliesCount: nat,
    likesCount: nat,
    createdDateTime: Option<Time>,
    updatedDateTime: Option<Time>,
    deletedDateTime: Option<Time>,
    user: UserId)

  predicate Transient(e: PostEntity)
  {
    e.id.None? && e.createdDateTime.None? && e.updatedDateTime.None? && e.deletedDateTime.None?
  }

  /** Deleted posts are invisible to lookups (@SQLRestriction("deleted_date_time is null")). */
  predicate Visible(e: PostEntity)
  {
    e.deletedDateTime.None?
  }

  /** `PostEntity.of(body, currentUser)`: body and owner set, both counters at their default 0. */
  function Of(body: string, user: UserId): (e: PostEntity)
    ensures e.body == body && e.user == user
    ensures e.repliesCount == 0 && e.likesCount == 0
    ensures Transient(e) && Visible(e)
  {
    PostEntity(None, body, 0, 0, None, None, None, user)
  }

  function PrePersist(e: PostEntity, now: Time): (r: PostEntity)
    ensures r.createdDateTime == r.updatedDateTime == Some(now)
    ensures r.(createdDateTime := e.createdDateTime, updatedDateTime := e.updatedDateTime) == e
  {
    e.(createdDateTime := Some(now), updatedDateTime := Some(now))
  }

  function PreUpdate(e: PostEntity, now: Time): (r: PostEntity)
    ensures r.updatedDateTime == Some(now) && r.createdDateTime == e.createdDateTime
    ensures r.(updatedDateTime := e.updatedDateTime) == e
  {
    e.(updatedDateTime := Some(now))
  }

  /** @SQLDelete("... where post_id = ?"): marks this post, and only it, as deleted. */
  function SoftDelete(e: PostEntity, now: Time): (r: PostEntity)
    ensures !Visible(r)
    ensures r.(deletedDateTime := e.deletedDateTime) == e
  {
    e.(deletedDateTime := Some(now))
  }
}
