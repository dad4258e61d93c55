/**
 * ReplyService: the two reply listings, createReply, and the owner-only updateReply and
 * deleteReply, with the post's repliesCount kept alongside.
 *
 * Each mutating call is a `...Step` function over the store and a method that performs the
 * same updates on the Board in place; `now` is the clock. `replyRepository.delete` runs the
 * entity's @SQLDelete statement, modelled here with its `where` clause on the reply's own id
 * (ReplyEntities.SqlDelete; the statement as written is ReplyEntities.SqlDeleteAsWritten).
 */
module ReplyService {
  import opened Wrappers
  import opened Basics
  import opened Errors
  import opened UserEntities
  import opened PostEntities
  import opened ReplyEntities
  import opened Store
  import opened ReplyRecords
  import UserRecords
  import PostRecords

  // ================================================================ queries

  /** `Reply.from(entity)`: the author and the post are the rows its join columns point at. */
  function Project(s: BoardState, id: ReplyId): Reply
    requires id in s.replies && s.replies[id].user in s.users && s.replies[id].post in s.posts
  {
    From(s.replies[id], s.users[s.replies[id].user], s.posts[s.replies[id].post])
  }

  /** `getRepliesByPostId`: PostNotFoundException for a missing post, else `findByPost`, which sees visible replies only. */
  function GetRepliesByPostId(s: BoardState, postId: PostId): (r: Result<map<ReplyId, Reply>, Error>)
    requires RepliesKeyed(s.replies, s.nextReplyId, s.users.Keys, s.posts.Keys)
    ensures r.Err? <==> !PostVisible(s, postId)
    ensures r.Err? ==> r.error == PostNotFound
    ensures r.Ok? ==> r.value.Keys == VisibleRepliesOn(s.replies, postId)
    ensures r.Ok? ==> forall id :: id in r.value ==>
      r.value[id].replyId == Some(id) && r.value[id].post == PostRecords.From(s.posts[postId])
  {
    if !PostVisible(s, postId) then
      Err(PostNotFound)
    else
      Ok(map id | id in s.replies && s.replies[id].post == postId && ReplyEntities.Visible(s.replies[id]) :: Project(s, id))
  }

  /** `getRepliesByUser`: UserNotFoundException for an unknown name, else `findByUser` on that user's row. */
  function GetRepliesByUser(s: BoardState, username: string): (r: Result<map<ReplyId, Reply>, Error>)
    requires UniqueVisibleUsernames(s.users) && RepliesKeyed(s.replies, s.nextReplyId, s.users.Keys, s.posts.Keys)
    ensures r.Err? <==> forall k :: k in s.users && UserEntities.Visible(s.users[k]) ==> s.users[k].username != username
    ensures r.Err? ==> r.error == UserNotFound(Some(username))
    ensures r.Ok? ==>
      var author := FindByUsername(s, username).value;
      && (forall id :: id in r.value <==> ReplyVisible(s, id) && s.replies[id].user == author)
      && (forall id :: id in r.value ==> r.value[id].replyId == Some(id) && r.value[id].user.username == username)
  {
    match FindByUsername(s, username)
    case None => Err(UserNotFound(Some(username)))
    case Some(author) =>
      Ok(map id | id in s.replies && ReplyEntities.Visible(s.replies[id]) && s.replies[id].user == author :: Project(s, id))
  }

  /** With the reply counters right, a post's listing has exactly repliesCount entries. */
  lemma RepliesListingSize(s: BoardState, postId: PostId)
    requires RepliesKeyed(s.replies, s.nextReplyId, s.users.Keys, s.posts.Keys) && ReplyCountsAgree(s)
    requires PostVisible(s, postId)
    ensures |GetRepliesByPostId(s, postId).value| == s.posts[postId].repliesCount
  {
    assert |GetRepliesByPostId(s, postId).value.Keys| == |GetRepliesByPostId(s, postId).value|;
  }

  /** A visible reply on a visible post by a visible author is in both listings, projected the same way. */
  lemma ReplyListingsAgree(s: BoardState, id: ReplyId)
    requires WellFormed(s) && ReplyVisible(s, id)
    requires PostVisible(s, s.replies[id].post) && UserEntities.Visible(s.users[s.replies[id].user])
    ensures var byPost := GetRepliesByPostId(s, s.replies[id].post);
      var byUser := GetRepliesByUser(s, s.users[s.replies[id].user].username);
      && byPost.Ok? && byUser.Ok? && id in byPost.value && id in byUser.value
      && byPost.value[id] == byUser.value[id]
  {
    FindVisibleUser(s, s.replies[id].user);
  }

  // ================================================================ createReply

  /** The row createReply saves: `ReplyEntity.of(body, currentUser, postEntity)` under the next id, stamped by @PrePersist. */
  function NewReply(body: string, user: UserId, post: PostId, id: ReplyId, now: Time): (e: ReplyEntity)
    ensures e.id == Some(id) && e.body == body && e.user == user && e.post == post
    ensures e.createdDateTime == Some(now) && e.updatedDateTime == Some(now) && ReplyEntities.Visible(e)
  {
    ReplyEntities.PrePersist(ReplyEntities.Of(body, user, post).(id := Some(id)), now)
  }

  /** The post row after createReply saves it: one more reply, so the row changed and is stamped. */
  function Replied(post: PostEntity, now: Time): PostEntity
  {
    PostEntities.PreUpdate(post.(repliesCount := post.repliesCount + 1), now)
  }

  /** The post row after deleteReply saves it: `max(0, c - 1)`, stamped only if that changed it. */
  function Unreplied(post: PostEntity, now: Time): PostEntity
  {
    FlushPost(post, post.(repliesCount := FloorDecrement(post.repliesCount)), now)
  }

  /** The success path of createReply: insert the reply, then save the post with its count raised. */
  function CreateReplyCommit(s: BoardState, postId: PostId, e: ReplyEntity, now: Time): BoardState
    requires postId in s.posts
  {
    s.(replies := s.replies[s.nextReplyId := e], nextReplyId := s.nextReplyId + 1,
       posts := s.posts[postId := Replied(s.posts[postId], now)])
  }

  lemma CreateReplyCommitKeepsStore(s: BoardState, postId: PostId, e: ReplyEntity, now: Time)
    requires WellFormed(s) && postId in s.posts
    requires e.id == Some(s.nextReplyId) && e.user in s.users && e.post in s.posts
    ensures WellFormed(CreateReplyCommit(s, postId, e, now)) && RowsStable(s, CreateReplyCommit(s, postId, e, now))
  {
    RepliesAdd(s.replies, s.nextReplyId, s.users.Keys, s.posts.Keys, e);
    PostsPut(s.posts, s.nextPostId, s.users.Keys, postId, Replied(s.posts[postId], now));
    PostsAndRepliesRewritten(s, CreateReplyCommit(s, postId, e, now));
  }

  function CreateReplyStep(s: BoardState, postId: PostId, body: string, currentUser: UserEntity, now: Time): (r: Step<Reply>)
    requires WellFormed(s) && ActingUser(s, currentUser)
    ensures WellFormed(r.state) && RowsStable(s, r.state)
    ensures r.result.Err? ==> r.state == s
  {
    if !PostVisible(s, postId) then
      Step(s, Err(PostNotFound))
    else
      var saved := NewReply(body, currentUser.id.value, postId, s.nextReplyId, now);
      CreateReplyCommitKeepsStore(s, postId, saved, now);
      // The projection is taken before the commit; Post.from shows no counters.
      Step(CreateReplyCommit(s, postId, saved, now), Ok(From(saved, currentUser, s.posts[postId])))
  }

  /** createReply fails exactly on a missing or deleted post, changing nothing; otherwise it commits. */
  lemma CreateReplyOutcome(s: BoardState, postId: PostId, body: string, currentUser: UserEntity, now: Time)
    requires WellFormed(s) && ActingUser(s, currentUser)
    ensures var r := CreateReplyStep(s, postId, body, currentUser, now);
      && (r.result.Err? <==> !PostVisible(s, postId))
      && (r.result.Err? ==> r.result.error == PostNotFound && r.state == s)
      && (r.result.Ok? ==>
            var e := NewReply(body, currentUser.id.value, postId, s.nextReplyId, now);
            r == Step(CreateReplyCommit(s, postId, e, now), Ok(From(e, currentUser, s.posts[postId]))))
  {
  }

  /**
   * The commit adds one reply under a fresh id, raises that post's repliesCount by one, and
   * changes no other reply, post or table.
   */
  lemma CreateReplyCommitEffect(s: BoardState, postId: PostId, e: ReplyEntity, now: Time)
    requires RepliesKeyed(s.replies, s.nextReplyId, s.users.Keys, s.posts.Keys) && postId in s.posts
    ensures var t := CreateReplyCommit(s, postId, e, now);
      var id := s.nextReplyId;
      var before := s.posts[postId];
      && id !in s.replies && t.replies.Keys == s.replies.Keys + {id} && t.replies[id] == e
      && (forall r :: r in s.replies ==> t.replies[r] == s.replies[r])
      && t.posts.Keys == s.posts.Keys
      && (forall p :: p in s.posts && p != postId ==> t.posts[p] == s.posts[p])
      && t.posts[postId].(updatedDateTime := before.updatedDateTime) == before.(repliesCount := before.repliesCount + 1)
      && t.users == s.users && t.follows == s.follows && t.likes == s.likes
  {
    assert s.nextReplyId !in s.replies;
  }

  /** A new visible reply on the post it counts against keeps every reply and like counter right. */
  lemma CreateReplyCommitKeepsCounters(s: BoardState, postId: PostId, e: ReplyEntity, now: Time)
    requires postId in s.posts && s.nextReplyId !in s.replies
    requires ReplyEntities.Visible(e) && e.post == postId
    requires ReplyCounts(s.posts, s.replies) && LikeCounts(s.posts, s.likes.Keys)
    ensures var t := CreateReplyCommit(s, postId, e, now);
      ReplyCounts(t.posts, t.replies) && LikeCounts(t.posts, t.likes.Keys)
  {
    var t := CreateReplyCommit(s, postId, e, now);
    forall p | p in t.posts ensures t.posts[p].repliesCount == |VisibleRepliesOn(t.replies, p)| {
      RepliesInsert(s.replies, s.nextReplyId, e, p);
    }
  }

  lemma CreateReplyKeepsCounters(s: BoardState, postId: PostId, body: string, currentUser: UserEntity, now: Time)
    requires WellFormed(s) && ActingUser(s, currentUser) && ReplyCountsAgree(s) && LikeCountsAgree(s)
    ensures var t := CreateReplyStep(s, postId, body, currentUser, now).state;
      ReplyCountsAgree(t) && LikeCountsAgree(t)
  {
    CreateReplyOutcome(s, postId, body, currentUser, now);
    if PostVisible(s, postId) {
      assert s.nextReplyId !in s.replies;
      CreateReplyCommitKeepsCounters(s, postId, NewReply(body, currentUser.id.value, postId, s.nextReplyId, now), now);
    }
  }

  // ================================================================ updateReply

  function UpdateReplyStep(s: BoardState, postId: PostId, replyId: ReplyId, body: string, currentUser: UserEntity, now: Time)
    : (r: Step<Reply>)
    requires WellFormed(s)
    ensures WellFormed(r.state) && RowsStable(s, r.state)
    ensures r.result.Err? ==> r.state == s
  {
    if !PostVisible(s, postId) then
      Step(s, Err(PostNotFound))
    else if !ReplyVisible(s, replyId) then
      Step(s, Err(ReplyNotFound))
    else
      var replyEntity := s.replies[replyId];
      if s.users[replyEntity.user] != currentUser then
        Step(s, Err(UserNotAllowed))
      else
        var saved := FlushReply(replyEntity, replyEntity.(body := body), now);
        PutReply(s, replyId, saved);
        Step(s.(replies := s.replies[replyId := saved]), Ok(From(saved, s.users[saved.user], s.posts[saved.post])))
  }

  /**
   * updateReply: PostNotFound, then ReplyNotFound, then UserNotAllowed unless the acting user
   * wrote the reply; on success only the reply's body changes, stamped only if it did.
   */
  lemma UpdateReplyOutcome(s: BoardState, postId: PostId, replyId: ReplyId, body: string, currentUser: UserEntity, now: Time)
    requires WellFormed(s) && ActingUser(s, currentUser)
    ensures var r := UpdateReplyStep(s, postId, replyId, body, currentUser, now);
      && (!PostVisible(s, postId) ==> r.result == Err(PostNotFound))
      && (PostVisible(s, postId) && !ReplyVisible(s, replyId) ==> r.result == Err(ReplyNotFound))
      && (PostVisible(s, postId) && ReplyVisible(s, replyId) && s.replies[replyId].user != currentUser.id.value
          ==> r.result == Err(UserNotAllowed))
      && (PostVisible(s, postId) && ReplyVisible(s, replyId) && s.replies[replyId].user == currentUser.id.value
          ==> r.result.Ok?)
      && (r.result.Err? ==> r.state == s)
      && (r.result.Ok? ==>
            var before := s.replies[replyId];
            var e := r.state.replies[replyId];
            && r.state == s.(replies := s.replies[replyId := e])
            && e.body == body
            && e.(body := before.body, updatedDateTime := before.updatedDateTime) == before
            && (body == before.body ==> e == before)
            && (body != before.body ==> e.updatedDateTime == Some(now))
            && r.result.value.replyId == Some(replyId) && r.result.value.body == body)
  {
    if PostVisible(s, postId) && ReplyVisible(s, replyId) {
      RowEqualsPrincipalIffSameKey(s, currentUser, s.replies[replyId].user);
    }
  }

  /**
   * updateReply never checks that the reply is on `postId`: given any two visible posts, the
   * call behaves the same.
   */
  lemma UpdateReplyIgnoresPostId(s: BoardState, p1: PostId, p2: PostId, replyId: ReplyId, body: string, currentUser: UserEntity, now: Time)
    requires WellFormed(s) && PostVisible(s, p1) && PostVisible(s, p2)
    ensures UpdateReplyStep(s, p1, replyId, body, currentUser, now) == UpdateReplyStep(s, p2, replyId, body, currentUser, now)
  {
  }

  /** Rewriting one reply without moving it to another post or changing its visibility keeps every post's visible replies. */
  lemma ReplyCountsUntouched(posts: map<PostId, PostEntity>, replies: map<ReplyId, ReplyEntity>, r: ReplyId, e: ReplyEntity)
    requires r in replies && e.post == replies[r].post && e.deletedDateTime == replies[r].deletedDateTime
    requires ReplyCounts(posts, replies)
    ensures ReplyCounts(posts, replies[r := e])
  {
    forall p | p in posts ensures posts[p].repliesCount == |VisibleRepliesOn(replies[r := e], p)| {
      assert VisibleRepliesOn(replies[r := e], p) == VisibleRepliesOn(replies, p);
    }
  }

  lemma UpdateReplyKeepsCounters(s: BoardState, postId: PostId, replyId: ReplyId, body: string, currentUser: UserEntity, now: Time)
    requires WellFormed(s) && ActingUser(s, currentUser) && ReplyCountsAgree(s)
    ensures ReplyCountsAgree(UpdateReplyStep(s, postId, replyId, body, currentUser, now).state)
  {
    UpdateReplyOutcome(s, postId, replyId, body, currentUser, now);
    var r := UpdateReplyStep(s, postId, replyId, body, currentUser, now);
    if r.result.Ok? {
      var before, e := s.replies[replyId], r.state.replies[replyId];
      assert e.post == before.post && e.deletedDateTime == before.deletedDateTime by {
        assert e.(body := before.body, updatedDateTime := before.updatedDateTime) == before;
      }
      ReplyCountsUntouched(s.posts, s.replies, replyId, e);
    }
  }

  // ================================================================ deleteReply

  /** The success path of deleteReply: soft-delete the reply, then lower the count of the post named in the call. */
  function DeleteReplyCommit(s: BoardState, postId: PostId, replyId: ReplyId, now: Time): BoardState
    requires postId in s.posts
  {
    s.(replies := SqlDelete(s.replies, replyId, now), posts := s.posts[postId := Unreplied(s.posts[postId], now)])
  }

  lemma DeleteReplyCommitKeepsStore(s: BoardState, postId: PostId, replyId: ReplyId, now: Time)
    requires WellFormed(s) && postId in s.posts && replyId in s.replies
    ensures WellFormed(DeleteReplyCommit(s, postId, replyId, now)) && RowsStable(s, DeleteReplyCommit(s, postId, replyId, now))
  {
    RepliesPutOne(s.replies, s.nextReplyId, s.users.Keys, s.posts.Keys, replyId, MarkDeleted(s.replies[replyId], now));
    PostsPut(s.posts, s.nextPostId, s.users.Keys, postId, Unreplied(s.posts[postId], now));
    PostsAndRepliesRewritten(s, DeleteReplyCommit(s, postId, replyId, now));
  }

  function DeleteReplyStep(s: BoardState, postId: PostId, replyId: ReplyId, currentUser: UserEntity, now: Time): (r: Step<()>)
    requires WellFormed(s)
    ensures WellFormed(r.state) && RowsStable(s, r.state)
    ensures r.result.Err? ==> r.state == s
    ensures r.result.Ok? ==> PostVisible(s, postId) && ReplyVisible(s, replyId)
  {
    if !PostVisible(s, postId) then
      Step(s, Err(PostNotFound))
    else if !ReplyVisible(s, replyId) then
      Step(s, Err(ReplyNotFound))
    else if s.users[s.replies[replyId].user] != currentUser then
      Step(s, Err(UserNotAllowed))
    else
      DeleteReplyCommitKeepsStore(s, postId, replyId, now);
      Step(DeleteReplyCommit(s, postId, replyId, now), Ok(()))
  }

  /** deleteReply: PostNotFound, then ReplyNotFound, then UserNotAllowed; no failed call changes anything. */
  lemma DeleteReplyOutcome(s: BoardState, postId: PostId, replyId: ReplyId, currentUser: UserEntity, now: Time)
    requires WellFormed(s) && ActingUser(s, currentUser)
    ensures var r := DeleteReplyStep(s, postId, replyId, currentUser, now);
      && (!PostVisible(s, postId) ==> r.result == Err(PostNotFound))
      && (PostVisible(s, postId) && !ReplyVisible(s, replyId) ==> r.result == Err(ReplyNotFound))
      && (PostVisible(s, postId) && ReplyVisible(s, replyId) && s.replies[replyId].user != currentUser.id.value
          ==> r.result == Err(UserNotAllowed))
      && (PostVisible(s, postId) && ReplyVisible(s, replyId) && s.replies[replyId].user == currentUser.id.value
          ==> r == Step(DeleteReplyCommit(s, postId, replyId, now), Ok(())))
      && (r.result.Err? ==> r.state == s)
  {
    if PostVisible(s, postId) && ReplyVisible(s, replyId) {
      RowEqualsPrincipalIffSameKey(s, currentUser, s.replies[replyId].user);
    }
  }

  /**
   * The commit hides that reply and no other, sets the given post's repliesCount to
   * `max(0, c - 1)` whichever post the reply is on, and changes no other post or table.
   */
  lemma DeleteReplyCommitEffect(s: BoardState, postId: PostId, replyId: ReplyId, now: Time)
    requires postId in s.posts && replyId in s.replies
    ensures var t := DeleteReplyCommit(s, postId, replyId, now);
      var before := s.posts[postId];
      && t.replies.Keys == s.replies.Keys && !ReplyVisible(t, replyId)
      && t.replies[replyId].(deletedDateTime := s.replies[replyId].deletedDateTime) == s.replies[replyId]
      && (forall r :: r in s.replies && r != replyId ==> t.replies[r] == s.replies[r])
      && t.posts.Keys == s.posts.Keys
      && (forall p :: p in s.posts && p != postId ==> t.posts[p] == s.posts[p])
      && t.posts[postId].(updatedDateTime := before.updatedDateTime) == before.(repliesCount := FloorDecrement(before.repliesCount))
      && t.users == s.users && t.follows == s.follows && t.likes == s.likes && t.nextReplyId == s.nextReplyId
  {
  }

  /** When the reply is on the post named in the call, the counter invariant survives. */
  lemma DeleteReplyCommitKeepsCounters(s: BoardState, postId: PostId, replyId: ReplyId, now: Time)
    requires postId in s.posts && ReplyVisible(s, replyId) && s.replies[replyId].post == postId
    requires ReplyCounts(s.posts, s.replies) && LikeCounts(s.posts, s.likes.Keys)
    ensures var t := DeleteReplyCommit(s, postId, replyId, now);
      ReplyCounts(t.posts, t.replies) && LikeCounts(t.posts, t.likes.Keys)
  {
    var t := DeleteReplyCommit(s, postId, replyId, now);
    assert replyId in VisibleRepliesOn(s.replies, postId);
    forall p | p in t.posts ensures t.posts[p].repliesCount == |VisibleRepliesOn(t.replies, p)| {
      RepliesDelete(s.replies, replyId, now, p);
    }
  }

  /**
   * When the reply is on another post, the counters drift: the post named in the call loses
   * one it still has, and the reply's own post keeps one it no longer shows.
   */
  lemma DeleteReplyOnOtherPostDrifts(s: BoardState, postId: PostId, replyId: ReplyId, now: Time)
    requires postId in s.posts && ReplyVisible(s, replyId)
    requires s.replies[replyId].post != postId && s.replies[replyId].post in s.posts
    requires ReplyCounts(s.posts, s.replies)
    ensures var t := DeleteReplyCommit(s, postId, replyId, now);
      var q := s.replies[replyId].post;
      && t.posts[q].repliesCount == |VisibleRepliesOn(t.replies, q)| + 1
      && !ReplyCounts(t.posts, t.replies)
  {
    var q := s.replies[replyId].post;
    assert replyId in VisibleRepliesOn(s.replies, q);
    RepliesDelete(s.replies, replyId, now, q);
  }

  lemma DeleteReplyKeepsCounters(s: BoardState, postId: PostId, replyId: ReplyId, currentUser: UserEntity, now: Time)
    requires WellFormed(s) && ActingUser(s, currentUser) && ReplyCountsAgree(s) && LikeCountsAgree(s)
    requires ReplyVisible(s, replyId) ==> s.replies[replyId].post == postId
    ensures var t := DeleteReplyStep(s, postId, replyId, currentUser, now).state;
      ReplyCountsAgree(t) && LikeCountsAgree(t)
  {
    DeleteReplyOutcome(s, postId, replyId, currentUser, now);
    if DeleteReplyStep(s, postId, replyId, currentUser, now).result.Ok? {
      DeleteReplyCommitKeepsCounters(s, postId, replyId, now);
    }
  }

  // ---------------------------------------------------------------- deleteReply with @SQLDelete as written

  /** deleteReply's commit when `replyRepository.delete` runs the entity's statement as written. */
  function DeleteReplyAsWrittenCommit(s: BoardState, postId: PostId, replyId: ReplyId, now: Time): BoardState
    requires postId in s.posts
  {
    s.(replies := SqlDeleteAsWritten(s.replies, replyId, now), posts := s.posts[postId := Unreplied(s.posts[postId], now)])
  }

  /** deleteReply as the code runs it: the same guards and result, then the as-written commit. */
  function DeleteReplyAsWrittenStep(s: BoardState, postId: PostId, replyId: ReplyId, currentUser: UserEntity, now: Time): (r: Step<()>)
    requires WellFormed(s)
    ensures r.result == DeleteReplyStep(s, postId, replyId, currentUser, now).result
    ensures r.result.Err? ==> r.state == s
  {
    var corrected := DeleteReplyStep(s, postId, replyId, currentUser, now);
    if corrected.result.Err? then corrected
    else Step(DeleteReplyAsWrittenCommit(s, postId, replyId, now), Ok(()))
  }

  /**
   * On the commit alone: when the reply is on the post in the call and that post's id is not
   * the reply's, the statement as written leaves the post's replies as they were, the reply
   * among them, while its repliesCount drops one below them.
   */
  lemma DeleteReplyAsWrittenCommitDrifts(s: BoardState, postId: PostId, replyId: ReplyId, now: Time)
    requires postId in s.posts && replyId in s.replies && ReplyEntities.Visible(s.replies[replyId])
    requires s.replies[replyId].post == postId && postId != replyId
    requires ReplyCounts(s.posts, s.replies)
    ensures var t := DeleteReplyAsWrittenCommit(s, postId, replyId, now);
      && ReplyVisible(t, replyId)
      && VisibleRepliesOn(t.replies, postId) == VisibleRepliesOn(s.replies, postId)
      && t.posts[postId].repliesCount + 1 == |VisibleRepliesOn(t.replies, postId)|
      && !ReplyCounts(t.posts, t.replies)
  {
    var t := DeleteReplyAsWrittenCommit(s, postId, replyId, now);
    assert VisibleRepliesOn(t.replies, postId) == VisibleRepliesOn(s.replies, postId);
    assert replyId in VisibleRepliesOn(s.replies, postId);
  }

  /**
   * As written, an owner deleting their reply on its own post succeeds, yet (unless the post's
   * id happens to equal the reply's) the reply stays visible while the post's repliesCount
   * drops: the counter ends one below the replies the post still shows.
   */
  lemma DeleteReplyAsWrittenBreaksCounters(s: BoardState, postId: PostId, replyId: ReplyId, currentUser: UserEntity, now: Time)
    requires WellFormed(s) && ActingUser(s, currentUser) && ReplyCountsAgree(s)
    requires PostVisible(s, postId) && ReplyVisible(s, replyId)
    requires s.replies[replyId].post == postId && s.replies[replyId].user == currentUser.id.value && postId != replyId
    ensures var r := DeleteReplyAsWrittenStep(s, postId, replyId, currentUser, now);
      && r.result.Ok?
      && ReplyVisible(r.state, replyId)
      && r.state.posts[postId].repliesCount + 1 == |VisibleRepliesOn(r.state.replies, postId)|
      && !ReplyCountsAgree(r.state)
  {
    DeleteReplyOutcome(s, postId, replyId, currentUser, now);
    assert DeleteReplyAsWrittenStep(s, postId, replyId, currentUser, now).state == DeleteReplyAsWrittenCommit(s, postId, replyId, now);
    DeleteReplyAsWrittenCommitDrifts(s, postId, replyId, now);
  }

  /** On the commits alone: deleting the reply just added restores the post's counter and every post's visible replies. */
  lemma CreateThenDeleteCommitsRestore(s: BoardState, postId: PostId, e: ReplyEntity, now: Time, later: Time)
    requires postId in s.posts && s.nextReplyId !in s.replies && e.post == postId && ReplyEntities.Visible(e)
    ensures var t := DeleteReplyCommit(CreateReplyCommit(s, postId, e, now), postId, s.nextReplyId, later);
      && t.posts[postId].repliesCount == s.posts[postId].repliesCount
      && forall p :: VisibleRepliesOn(t.replies, p) == VisibleRepliesOn(s.replies, p)
  {
    var id := s.nextReplyId;
    var t := DeleteReplyCommit(CreateReplyCommit(s, postId, e, now), postId, id, later);
    assert t.replies == s.replies[id := MarkDeleted(e, later)];
    forall p ensures VisibleRepliesOn(t.replies, p) == VisibleRepliesOn(s.replies, p) {
    }
  }

  /**
   * Replying and then deleting that reply on the same post succeeds, and restores the post's
   * repliesCount and the visible replies of every post.
   */
  lemma CreateThenDeleteRestores(s: BoardState, postId: PostId, body: string, currentUser: UserEntity, now: Time, later: Time)
    requires WellFormed(s) && ActingUser(s, currentUser) && PostVisible(s, postId)
    ensures var s1 := CreateReplyStep(s, postId, body, currentUser, now).state;
      && ActingUser(s1, currentUser)
      && var r := DeleteReplyStep(s1, postId, s.nextReplyId, currentUser, later);
      && r.result.Ok?
      && r.state.posts[postId].repliesCount == s.posts[postId].repliesCount
      && forall p :: VisibleRepliesOn(r.state.replies, p) == VisibleRepliesOn(s.replies, p)
  {
    var id := s.nextReplyId;
    assert id !in s.replies;
    var e := NewReply(body, currentUser.id.value, postId, id, now);
    CreateReplyOutcome(s, postId, body, currentUser, now);
    var s1 := CreateReplyCommit(s, postId, e, now);
    assert PostVisible(s1, postId) && ReplyVisible(s1, id) && s1.replies[id].user == currentUser.id.value;
    DeleteReplyOutcome(s1, postId, id, currentUser, later);
    CreateThenDeleteCommitsRestore(s, postId, e, now, later);
  }

  // ================================================================ the service on the repositories

  method CreateReply(board: Board, postId: PostId, body: string, currentUser: UserEntity, now: Time) returns (r: Result<Reply, Error>)
    requires board.Valid() && ActingUser(board.State(), currentUser)
    modifies board
    ensures board.Valid()
    ensures Step(board.State(), r) == CreateReplyStep(old(board.State()), postId, body, currentUser, now)
  {
    ghost var s := board.State();
    if !PostVisible(board.State(), postId) {
      return Err(PostNotFound);
    }
    var postEntity := board.posts[postId];
    var replyEntity := ReplyEntities.Of(body, currentUser.id.value, postId);
    // save: the generated id is assigned, then @PrePersist stamps both timestamps.
    replyEntity := replyEntity.(id := Some(board.nextReplyId));
    replyEntity := ReplyEntities.PrePersist(replyEntity, now);
    assert replyEntity == NewReply(body, currentUser.id.value, postId, s.nextReplyId, now);
    board.replies := board.replies[board.nextReplyId := replyEntity];
    board.nextReplyId := board.nextReplyId + 1;
    var counted := postEntity.(repliesCount := postEntity.repliesCount + 1);
    // The count changed, so @PreUpdate stamps the post when the transaction commits.
    assert PostEntities.PreUpdate(counted, now) == Replied(postEntity, now);
    board.posts := board.posts[postId := PostEntities.PreUpdate(counted, now)];
    assert board.State() == CreateReplyCommit(s, postId, replyEntity, now);
    CreateReplyCommitKeepsStore(s, postId, replyEntity, now);
    r := Ok(From(replyEntity, currentUser, postEntity));
  }

  method UpdateReply(board: Board, postId: PostId, replyId: ReplyId, body: string, currentUser: UserEntity, now: Time)
    returns (r: Result<Reply, Error>)
    requires board.Valid()
    modifies board
    ensures board.Valid()
    ensures Step(board.State(), r) == UpdateReplyStep(old(board.State()), postId, replyId, body, currentUser, now)
  {
    ghost var s := board.State();
    if !PostVisible(board.State(), postId) {
      return Err(PostNotFound);
    }
    if !ReplyVisible(board.State(), replyId) {
      return Err(ReplyNotFound);
    }
    var replyEntity := board.replies[replyId];
    if board.users[replyEntity.user] != currentUser {
      return Err(UserNotAllowed);
    }
    var patched := replyEntity.(body := body);
    var saved := FlushReply(replyEntity, patched, now);
    board.replies := board.replies[replyId := saved];
    PutReply(s, replyId, saved);
    assert board.State() == s.(replies := s.replies[replyId := saved]);
    r := Ok(From(saved, board.users[saved.user], board.posts[saved.post]));
  }

  method DeleteReply(board: Board, postId: PostId, replyId: ReplyId, currentUser: UserEntity, now: Time) returns (r: Result<(), Error>)
    requires board.Valid()
    modifies board
    ensures board.Valid()
    ensures Step(board.State(), r) == DeleteReplyStep(old(board.State()), postId, replyId, currentUser, now)
  {
    ghost var s := board.State();
    if !PostVisible(board.State(), postId) {
      return Err(PostNotFound);
    }
    var postEntity := board.posts[postId];
    if !ReplyVisible(board.State(), replyId) {
      return Err(ReplyNotFound);
    }
    var replyEntity := board.replies[replyId];
    if board.users[replyEntity.user] != currentUser {
      return Err(UserNotAllowed);
    }
    board.replies := SqlDelete(board.replies, replyId, now);
    var counted := postEntity.(repliesCount := FloorDecrement(postEntity.repliesCount));
    assert FlushPost(postEntity, counted, now) == Unreplied(postEntity, now);
    board.posts := board.posts[postId := FlushPost(postEntity, counted, now)];
    assert board.State() == DeleteReplyCommit(s, postId, replyId, now);
    DeleteReplyCommitKeepsStore(s, postId, replyId, now);
    r := Ok(());
  }
}
