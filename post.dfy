/** The Post response record (`Post.from(entity)`); it does not show the counters. */
module PostRecords {
  import opened Wrappers
  import opened Basics
  import opened PostEntities

  datatype Post = Post(postId: Option<PostId>, body: string, createdDateTime: Option<Time>, updatedDateTime: Option<Time>)

  function From(e: PostEntity): (p: Post)
    ensures p.postId == e.id && p.body == e.body
    ensures p.createdDateTime == e.createdDateTime && p.updatedDateTime == e.updatedDateTime
  {
    Post(e.id, e.body, e.createdDateTime, e.updatedDateTime)
  }

  /** Changing only the counters of a row does not change its projection. */
  lemma FromIgnoresCounters(e: PostEntity, replies: nat, likes: nat)
    ensures From(e.(repliesCount := replies, likesCount := likes)) == From(e)
  {
  }
}
