/** The Reply response record (`Reply.from(entity)`), nesting the author and the post projections. */
module ReplyRecords {
  import opened Wrappers
  import opened Basics
  import opened UserEntities
  import opened PostEntities
  import opened ReplyEntities
  import UserRecords
  import PostRecords

  datatype Reply = Reply(
    replyId: Option<ReplyId>,
    body: string,
    user: UserRecords.User,
    post: PostRecords.Post,
    createdDateTime: Option<Time>,
    updatedDateTime: Option<Time>)

  /** `author` and `post` are the rows the reply's join columns load. */
  function From(e: ReplyEntity, author: UserEntity, post: PostEntity): (r: Reply)
    ensures r.replyId == e.id && r.body == e.body
    ensures r.createdDateTime == e.createdDateTime && r.updatedDateTime == e.updatedDateTime
    ensures r.user.userId == author.id && r.user.username == author.username && r.user.isFollowing.None?
    ensures r.post.postId == post.id && r.post.body == post.body
  {
    Reply(e.id, e.body, UserRecords.From(author), PostRecords.From(post), e.createdDateTime, e.updatedDateTime)
  }
}
