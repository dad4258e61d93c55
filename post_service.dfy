/**
 * PostService: the post listings, createPost, the owner-only updatePost and deletePost, and
 * the like toggle.
 *
 * As in UserService, each mutating call is a `...Step` function over the store and a method
 * that performs the same updates on the Board in place; `now` is the clock. The owner test is
 * `postEntity.getUser().equals(currentUser)`: the stored owner row compared field by field
 * with the acting principal.
 */
module PostService {
  import opened Wrappers
  import opened Basics
  import opened Errors
  import opened UserEntities
  import opened PostEntities
  import opened LikeEntities
  import opened ReplyEntities
  import opened Store
  import opened PostRecords

  // ================================================================ queries

  /** `getPosts`: `findAll` sees the visible posts only; each is projected with `Post.from`. */
  function GetPosts(s: BoardState): (r: map<PostId, Post>)
    ensures forall p :: PostVisible(s, p) ==> p in r
    ensures forall p :: p in r ==> PostVisible(s, p) && r[p] == From(s.posts[p])
  {
    map p | p in s.posts && PostEntities.Visible(s.posts[p]) :: From(s.posts[p])
  }

  /** `getPostByPostId`: the projection of a visible post, or PostNotFoundException. */
  function GetPostByPostId(s: BoardState, postId: PostId): (r: Result<Post, Error>)
    ensures r.Err? <==> !PostVisible(s, postId)
    ensures r.Err? ==> r.error == PostNotFound
    ensures r.Ok? ==> r.value.postId == s.posts[postId].id && r.value.body == s.posts[postId].body
  {
    if PostVisible(s, postId) then Ok(From(s.posts[postId])) else Err(PostNotFound)
  }

  /** A post can be fetched by id exactly when it is in the full listing, with the same projection. */
  lemma GetPostByPostIdAgreesWithListing(s: BoardState, postId: PostId)
    ensures GetPostByPostId(s, postId).Ok? <==> postId in GetPosts(s)
    ensures postId in GetPosts(s) ==> GetPostByPostId(s, postId).value == GetPosts(s)[postId]
  {
  }

  /** `getPostByUsername`: UserNotFoundException for an unknown name, else `findByUser` on the user's row. */
  function GetPostByUsername(s: BoardState, username: string): (r: Result<map<PostId, Post>, Error>)
    requires UniqueVisibleUsernames(s.users)
    ensures r.Err? <==> forall k :: k in s.users && UserEntities.Visible(s.users[k]) ==> s.users[k].username != username
    ensures r.Err? ==> r.error == UserNotFound(Some(username))
    ensures r.Ok? ==>
      var owner := FindByUsername(s, username).value;
      && s.users[owner].username == username
      && forall p :: p in r.value <==> PostVisible(s, p) && s.posts[p].user == owner
  {
    match FindByUsername(s, username)
    case None => Err(UserNotFound(Some(username)))
    case Some(owner) => Ok(map p | p in s.posts && PostEntities.Visible(s.posts[p]) && s.posts[p].user == owner :: From(s.posts[p]))
  }

  /**
   * The per-user listings split the full listing: every post in a user's listing is in the full
   * listing with the same projection, and every visible post whose owner is a visible user is in
   * that owner's listing.
   */
  lemma PostListingsPartition(s: BoardState, username: string, p: PostId)
    requires WellFormed(s)
    ensures GetPostByUsername(s, username).Ok? && p in GetPostByUsername(s, username).value ==>
      p in GetPosts(s) && GetPostByUsername(s, username).value[p] == GetPosts(s)[p]
    ensures p in GetPosts(s) && UserEntities.Visible(s.users[s.posts[p].user]) ==>
      var owner := s.users[s.posts[p].user];
      GetPostByUsername(s, owner.username).Ok? && p in GetPostByUsername(s, owner.username).value
  {
    if p in GetPosts(s) && UserEntities.Visible(s.users[s.posts[p].user]) {
      FindVisibleUser(s, s.posts[p].user);
    }
  }

  // ================================================================ createPost

  /** The row createPost saves: `PostEntity.of(body, currentUser)` under the next id, stamped by @PrePersist. */
  function NewPost(body: string, user: UserId, id: PostId, now: Time): (e: PostEntity)
    ensures e.id == Some(id) && e.body == body && e.user == user
    ensures e.repliesCount == 0 && e.likesCount == 0
    ensures e.createdDateTime == Some(now) && e.updatedDateTime == Some(now) && PostEntities.Visible(e)
  {
    PostEntities.PrePersist(PostEntities.Of(body, user).(id := Some(id)), now)
  }

  /** createPost's insert: the row under the next generated post id. */
  function CreatePostCommit(s: BoardState, e: PostEntity): BoardState
  {
    s.(posts := s.posts[s.nextPostId := e], nextPostId := s.nextPostId + 1)
  }

  lemma CreatePostCommitKeepsStore(s: BoardState, e: PostEntity)
    requires WellFormed(s) && e.id == Some(s.nextPostId) && e.user in s.users
    ensures WellFormed(CreatePostCommit(s, e)) && RowsStable(s, CreatePostCommit(s, e))
  {
    AddPost(s, e);
  }

  /** createPost never fails: the acting user owns the new post. */
  function CreatePostStep(s: BoardState, body: string, currentUser: UserEntity, now: Time): (r: Step<Post>)
    requires WellFormed(s) && ActingUser(s, currentUser)
    ensures WellFormed(r.state) && RowsStable(s, r.state)
    ensures r.result.Ok?
  {
    var saved := NewPost(body, currentUser.id.value, s.nextPostId, now);
    CreatePostCommitKeepsStore(s, saved);
    Step(CreatePostCommit(s, saved), Ok(From(saved)))
  }

  /** The insert adds one post under a fresh id and changes no other row of any table. */
  lemma CreatePostCommitEffect(s: BoardState, e: PostEntity)
    requires PostsKeyed(s.posts, s.nextPostId, s.users.Keys)
    ensures var t := CreatePostCommit(s, e);
      var id := s.nextPostId;
      && id !in s.posts && t.posts.Keys == s.posts.Keys + {id} && t.posts[id] == e
      && (forall p :: p in s.posts ==> t.posts[p] == s.posts[p])
      && t.nextPostId == id + 1
      && t.users == s.users && t.follows == s.follows && t.likes == s.likes && t.replies == s.replies
  {
    assert s.nextPostId !in s.posts;
  }

  /** A fresh post id has no likes and no replies, so the new row's zero counters are right. */
  lemma CreatePostCommitKeepsCounters(s: BoardState, e: PostEntity)
    requires s.nextPostId !in s.posts
    requires LikesOf(s.likes.Keys, s.nextPostId) == {} && VisibleRepliesOn(s.replies, s.nextPostId) == {}
    requires e.likesCount == 0 && e.repliesCount == 0
    requires FollowCountsAgree(s) && LikeCountsAgree(s) && ReplyCountsAgree(s)
    ensures var t := CreatePostCommit(s, e);
      FollowCountsAgree(t) && LikeCountsAgree(t) && ReplyCountsAgree(t)
  {
  }

  lemma CreatePostKeepsCounters(s: BoardState, body: string, currentUser: UserEntity, now: Time)
    requires WellFormed(s) && ActingUser(s, currentUser)
    requires FollowCountsAgree(s) && LikeCountsAgree(s) && ReplyCountsAgree(s)
    ensures var t := CreatePostStep(s, body, currentUser, now).state;
      FollowCountsAgree(t) && LikeCountsAgree(t) && ReplyCountsAgree(t)
  {
    FreshKeysHaveNoEdges(s, s.nextUserId, s.nextPostId);
    CreatePostCommitKeepsCounters(s, NewPost(body, currentUser.id.value, s.nextPostId, now));
  }

  /** The new post shows up in its author's listing, with the body that was posted. */
  lemma CreatePostShowsForAuthor(s: BoardState, body: string, currentUser: UserEntity, now: Time)
    requires WellFormed(s) && ActingUser(s, currentUser)
    ensures var r := CreatePostStep(s, body, currentUser, now);
      var listing := GetPostByUsername(r.state, currentUser.username);
      && listing.Ok? && s.nextPostId in listing.value
      && listing.value[s.nextPostId] == r.result.value
      && r.result.value.postId == Some(s.nextPostId) && r.result.value.body == body
  {
    var r := CreatePostStep(s, body, currentUser, now);
    FindVisibleUser(r.state, currentUser.id.value);
  }

  // ================================================================ updatePost

  function UpdatePostStep(s: BoardState, postId: PostId, body: string, currentUser: UserEntity, now: Time): (r: Step<Post>)
    requires WellFormed(s)
    ensures WellFormed(r.state) && RowsStable(s, r.state)
    ensures r.result.Err? ==> r.state == s
  {
    if !PostVisible(s, postId) then
      Step(s, Err(PostNotFound))
    else
      var postEntity := s.posts[postId];
      if s.users[postEntity.user] != currentUser then
        Step(s, Err(UserNotAllowed))
      else
        var saved := FlushPost(postEntity, postEntity.(body := body), now);
        PutPost(s, postId, saved);
        Step(s.(posts := s.posts[postId := saved]), Ok(From(saved)))
  }

  /**
   * updatePost: PostNotFound, then UserNotAllowed unless the acting user owns the post; on
   * success only the body changes, and updatedDateTime is stamped only if the body did.
   */
  lemma UpdatePostOutcome(s: BoardState, postId: PostId, body: string, currentUser: UserEntity, now: Time)
    requires WellFormed(s) && ActingUser(s, currentUser)
    ensures var r := UpdatePostStep(s, postId, body, currentUser, now);
      && (!PostVisible(s, postId) ==> r.result == Err(PostNotFound))
      && (PostVisible(s, postId) && s.posts[postId].user != currentUser.id.value ==> r.result == Err(UserNotAllowed))
      && (PostVisible(s, postId) && s.posts[postId].user == currentUser.id.value ==> r.result.Ok?)
      && (r.result.Err? ==> r.state == s)
      && (r.result.Ok? ==>
            var before := s.posts[postId];
            var e := r.state.posts[postId];
            && r.state == s.(posts := s.posts[postId := e])
            && e.body == body
            && e.(body := before.body, updatedDateTime := before.updatedDateTime) == before
            && (body == before.body ==> e == before)
            && (body != before.body ==> e.updatedDateTime == Some(now))
            && r.result.value == From(e))
  {
    if PostVisible(s, postId) {
      RowEqualsPrincipalIffSameKey(s, currentUser, s.posts[postId].user);
    }
  }

  /** Rewriting one post row without touching its counters keeps the like and reply counters right. */
  lemma PostCountersUntouched(posts: map<PostId, PostEntity>, likes: set<LikeKey>, replies: map<ReplyId, ReplyEntity>, p: PostId, e: PostEntity)
    requires p in posts && LikeCounts(posts, likes) && ReplyCounts(posts, replies)
    requires e.likesCount == posts[p].likesCount && e.repliesCount == posts[p].repliesCount
    ensures LikeCounts(posts[p := e], likes) && ReplyCounts(posts[p := e], replies)
  {
  }

  lemma UpdatePostKeepsCounters(s: BoardState, postId: PostId, body: string, currentUser: UserEntity, now: Time)
    requires WellFormed(s) && ActingUser(s, currentUser) && LikeCountsAgree(s) && ReplyCountsAgree(s)
    ensures var t := UpdatePostStep(s, postId, body, currentUser, now).state;
      LikeCountsAgree(t) && ReplyCountsAgree(t)
  {
    UpdatePostOutcome(s, postId, body, currentUser, now);
    var r := UpdatePostStep(s, postId, body, currentUser, now);
    if r.result.Ok? {
      var before, e := s.posts[postId], r.state.posts[postId];
      assert e.likesCount == before.likesCount && e.repliesCount == before.repliesCount by {
        assert e.(body := before.body, updatedDateTime := before.updatedDateTime) == before;
      }
      PostCountersUntouched(s.posts, s.likes.Keys, s.replies, postId, e);
    }
  }

  // ================================================================ deletePost

  function DeletePostStep(s: BoardState, postId: PostId, currentUser: UserEntity, now: Time): (r: Step<()>)
    requires WellFormed(s)
    ensures WellFormed(r.state) && RowsStable(s, r.state)
    ensures r.result.Err? ==> r.state == s
  {
    if !PostVisible(s, postId) then
      Step(s, Err(PostNotFound))
    else
      var postEntity := s.posts[postId];
      if s.users[postEntity.user] != currentUser then
        Step(s, Err(UserNotAllowed))
      else
        // `delete` runs the entity's @SQLDelete statement: a soft delete of this post.
        PutPost(s, postId, PostEntities.SoftDelete(postEntity, now));
        Step(s.(posts := s.posts[postId := PostEntities.SoftDelete(postEntity, now)]), Ok(()))
  }

  /**
   * deletePost: PostNotFound, then UserNotAllowed unless the acting user owns the post; on
   * success the post is soft-deleted and nothing else changes.
   */
  lemma DeletePostOutcome(s: BoardState, postId: PostId, currentUser: UserEntity, now: Time)
    requires WellFormed(s) && ActingUser(s, currentUser)
    ensures var r := DeletePostStep(s, postId, currentUser, now);
      && (!PostVisible(s, postId) ==> r.result == Err(PostNotFound))
      && (PostVisible(s, postId) && s.posts[postId].user != currentUser.id.value ==> r.result == Err(UserNotAllowed))
      && (PostVisible(s, postId) && s.posts[postId].user == currentUser.id.value ==> r.result.Ok?)
      && (r.result.Err? ==> r.state == s)
      && (r.result.Ok? ==> r.state == s.(posts := s.posts[postId := PostEntities.SoftDelete(s.posts[postId], now)]))
  {
    if PostVisible(s, postId) {
      RowEqualsPrincipalIffSameKey(s, currentUser, s.posts[postId].user);
    }
  }

  /** The soft delete takes that post, and only it, out of the listing; its likes and replies stay. */
  lemma SoftDeleteEffect(s: BoardState, postId: PostId, now: Time)
    requires postId in s.posts
    ensures var t := s.(posts := s.posts[postId := PostEntities.SoftDelete(s.posts[postId], now)]);
      && t.posts[postId].(deletedDateTime := s.posts[postId].deletedDateTime) == s.posts[postId]
      && !PostVisible(t, postId)
      && GetPosts(t) == GetPosts(s) - {postId}
      && t.likes == s.likes && t.replies == s.replies
  {
    var t := s.(posts := s.posts[postId := PostEntities.SoftDelete(s.posts[postId], now)]);
    assert GetPosts(t) == GetPosts(s) - {postId};
  }

  lemma DeletePostKeepsCounters(s: BoardState, postId: PostId, currentUser: UserEntity, now: Time)
    requires WellFormed(s) && ActingUser(s, currentUser) && LikeCountsAgree(s) && ReplyCountsAgree(s)
    ensures var t := DeletePostStep(s, postId, currentUser, now).state;
      LikeCountsAgree(t) && ReplyCountsAgree(t)
  {
    DeletePostOutcome(s, postId, currentUser, now);
    if DeletePostStep(s, postId, currentUser, now).result.Ok? {
      PostCountersUntouched(s.posts, s.likes.Keys, s.replies, postId, PostEntities.SoftDelete(s.posts[postId], now));
    }
  }

  /** A deleted post can no longer be liked or edited: both calls report PostNotFound. */
  lemma DeletedPostIsGone(s: BoardState, postId: PostId, currentUser: UserEntity, now: Time, body: string, later: Time)
    requires WellFormed(s) && ActingUser(s, currentUser)
    requires DeletePostStep(s, postId, currentUser, now).result.Ok?
    ensures var t := DeletePostStep(s, postId, currentUser, now).state;
      && ActingUser(t, currentUser)
      && ToggleLikeStep(t, postId, currentUser, later) == Step(t, Err(PostNotFound))
      && UpdatePostStep(t, postId, body, currentUser, later) == Step(t, Err(PostNotFound))
  {
    DeletePostOutcome(s, postId, currentUser, now);
    SoftDeleteEffect(s, postId, now);
  }

  // ================================================================ toggleLike

  /** The post row after an unlike is saved: `max(0, c - 1)`, stamped only if that changed it. */
  function Unliked(post: PostEntity, now: Time): PostEntity
  {
    FlushPost(post, post.(likesCount := FloorDecrement(post.likesCount)), now)
  }

  /** The post row after a like is saved: `c + 1`, always a change, so always stamped. */
  function Liked(post: PostEntity, now: Time): PostEntity
  {
    PostEntities.PreUpdate(post.(likesCount := post.likesCount + 1), now)
  }

  /** toggleLike on a pair that is present: delete the like row and lower the count. */
  function UnlikeCommit(s: BoardState, postId: PostId, uid: UserId, now: Time): BoardState
    requires postId in s.posts
  {
    s.(likes := s.likes - {LikeKey(uid, postId)}, posts := s.posts[postId := Unliked(s.posts[postId], now)])
  }

  /** toggleLike on a pair that is absent: insert a like row and raise the count. */
  function LikeCommit(s: BoardState, postId: PostId, uid: UserId, now: Time): BoardState
    requires postId in s.posts
  {
    s.(likes := s.likes[LikeKey(uid, postId) := LikeEntities.PrePersist(LikeEntities.Of(uid, postId), now)],
       posts := s.posts[postId := Liked(s.posts[postId], now)])
  }

  /** The success path of toggleLike: remove the pair (user, post) if present, insert it otherwise. */
  function ToggleLikeCommit(s: BoardState, postId: PostId, uid: UserId, now: Time): BoardState
    requires postId in s.posts
  {
    if LikeKey(uid, postId) in s.likes then UnlikeCommit(s, postId, uid, now) else LikeCommit(s, postId, uid, now)
  }

  /** The like count toggleLike writes. */
  function ToggledCount(s: BoardState, postId: PostId, uid: UserId): nat
    requires postId in s.posts
  {
    if LikeKey(uid, postId) in s.likes then FloorDecrement(s.posts[postId].likesCount) else s.posts[postId].likesCount + 1
  }

  lemma UnlikeCommitKeepsStore(s: BoardState, postId: PostId, uid: UserId, now: Time)
    requires WellFormed(s) && postId in s.posts
    ensures WellFormed(UnlikeCommit(s, postId, uid, now)) && RowsStable(s, UnlikeCommit(s, postId, uid, now))
  {
    LikesRemove(s.likes, s.users.Keys, s.posts.Keys, LikeKey(uid, postId));
    PostsPut(s.posts, s.nextPostId, s.users.Keys, postId, Unliked(s.posts[postId], now));
    PostsAndLikesRewritten(s, UnlikeCommit(s, postId, uid, now));
  }

  lemma LikeCommitKeepsStore(s: BoardState, postId: PostId, uid: UserId, now: Time)
    requires WellFormed(s) && postId in s.posts && uid in s.users && LikeKey(uid, postId) !in s.likes
    ensures WellFormed(LikeCommit(s, postId, uid, now)) && RowsStable(s, LikeCommit(s, postId, uid, now))
  {
    LikesInsert(s.likes, s.users.Keys, s.posts.Keys, LikeKey(uid, postId), LikeEntities.PrePersist(LikeEntities.Of(uid, postId), now));
    PostsPut(s.posts, s.nextPostId, s.users.Keys, postId, Liked(s.posts[postId], now));
    PostsAndLikesRewritten(s, LikeCommit(s, postId, uid, now));
  }

  lemma ToggleLikeCommitKeepsStore(s: BoardState, postId: PostId, uid: UserId, now: Time)
    requires WellFormed(s) && postId in s.posts && uid in s.users
    ensures WellFormed(ToggleLikeCommit(s, postId, uid, now)) && RowsStable(s, ToggleLikeCommit(s, postId, uid, now))
  {
    if LikeKey(uid, postId) in s.likes {
      UnlikeCommitKeepsStore(s, postId, uid, now);
    } else {
      LikeCommitKeepsStore(s, postId, uid, now);
    }
  }

  function ToggleLikeStep(s: BoardState, postId: PostId, currentUser: UserEntity, now: Time): (r: Step<Post>)
    requires WellFormed(s) && ActingUser(s, currentUser)
    ensures WellFormed(r.state) && RowsStable(s, r.state)
    ensures r.result.Err? ==> r.state == s
  {
    if !PostVisible(s, postId) then
      Step(s, Err(PostNotFound))
    else
      var postEntity := s.posts[postId];
      var uid := currentUser.id.value;
      ToggleLikeCommitKeepsStore(s, postId, uid, now);
      // The projection is taken before the commit-time @PreUpdate hook runs.
      Step(ToggleLikeCommit(s, postId, uid, now),
           Ok(From(postEntity.(likesCount := ToggledCount(s, postId, uid)))))
  }

  /**
   * toggleLike fails with PostNotFound on a missing or deleted post and then changes nothing;
   * otherwise it commits, and what it returns is the post as it was (the projection shows no counters).
   */
  lemma ToggleLikeOutcome(s: BoardState, postId: PostId, currentUser: UserEntity, now: Time)
    requires WellFormed(s) && ActingUser(s, currentUser)
    ensures var r := ToggleLikeStep(s, postId, currentUser, now);
      && (r.result.Err? <==> !PostVisible(s, postId))
      && (r.result.Err? ==> r.result.error == PostNotFound && r.state == s)
      && (r.result.Ok? ==>
            && r.state == ToggleLikeCommit(s, postId, currentUser.id.value, now)
            && r.result.value == From(s.posts[postId]))
  {
    if PostVisible(s, postId) {
      var post := s.posts[postId];
      FromIgnoresCounters(post, post.repliesCount, ToggledCount(s, postId, currentUser.id.value));
    }
  }

  /**
   * The commit flips the membership of (user, post) and of no other pair, keeps every other
   * like row, writes the toggled count into that post and changes no other post or table.
   */
  lemma ToggleLikeCommitEffect(s: BoardState, postId: PostId, uid: UserId, now: Time)
    requires postId in s.posts
    ensures var t := ToggleLikeCommit(s, postId, uid, now);
      var key := LikeKey(uid, postId);
      var before := s.posts[postId];
      && (key in t.likes <==> key !in s.likes)
      && (forall k :: k != key ==> (k in t.likes <==> k in s.likes))
      && (forall k :: k in s.likes && k in t.likes ==> t.likes[k] == s.likes[k])
      && t.posts.Keys == s.posts.Keys
      && (forall p :: p in s.posts && p != postId ==> t.posts[p] == s.posts[p])
      && t.posts[postId].(updatedDateTime := before.updatedDateTime) == before.(likesCount := ToggledCount(s, postId, uid))
      && t.users == s.users && t.follows == s.follows && t.replies == s.replies
      && t.nextUserId == s.nextUserId && t.nextPostId == s.nextPostId && t.nextReplyId == s.nextReplyId
  {
  }

  /** Under the invariant likesCount == |likes on the post|, the clamp never bites and the invariant holds again. */
  lemma ToggleLikeCommitKeepsCounters(s: BoardState, postId: PostId, uid: UserId, now: Time)
    requires postId in s.posts && LikeCounts(s.posts, s.likes.Keys)
    ensures LikeCounts(ToggleLikeCommit(s, postId, uid, now).posts, ToggleLikeCommit(s, postId, uid, now).likes.Keys)
  {
    var key := LikeKey(uid, postId);
    var t := ToggleLikeCommit(s, postId, uid, now);
    if key in s.likes {
      assert t.likes.Keys == s.likes.Keys - {key};
      assert key in LikesOf(s.likes.Keys, postId);
      forall p | p in t.posts ensures t.posts[p].likesCount == |LikesOf(t.likes.Keys, p)| {
        LikesOfRemove(s.likes.Keys, key, p);
      }
    } else {
      assert t.likes.Keys == s.likes.Keys + {key};
      forall p | p in t.posts ensures t.posts[p].likesCount == |LikesOf(t.likes.Keys, p)| {
        LikesOfInsert(s.likes.Keys, key, p);
      }
    }
  }

  /** Rewriting one post row without touching its repliesCount keeps the reply counters right. */
  lemma RepliesCountUntouched(posts: map<PostId, PostEntity>, replies: map<ReplyId, ReplyEntity>, p: PostId, e: PostEntity)
    requires p in posts && ReplyCounts(posts, replies) && e.repliesCount == posts[p].repliesCount
    ensures ReplyCounts(posts[p := e], replies)
  {
  }

  lemma ToggleLikeKeepsCounters(s: BoardState, postId: PostId, currentUser: UserEntity, now: Time)
    requires WellFormed(s) && ActingUser(s, currentUser) && LikeCountsAgree(s) && ReplyCountsAgree(s)
    ensures var t := ToggleLikeStep(s, postId, currentUser, now).state;
      LikeCountsAgree(t) && ReplyCountsAgree(t)
  {
    if PostVisible(s, postId) {
      var uid := currentUser.id.value;
      ToggleLikeSucceeds(s, postId, currentUser, now);
      ToggleLikeCommitKeepsCounters(s, postId, uid, now);
      ToggleLikeCommitEffect(s, postId, uid, now);
      var t := ToggleLikeCommit(s, postId, uid, now);
      assert t.posts == s.posts[postId := t.posts[postId]];
      RepliesCountUntouched(s.posts, s.replies, postId, t.posts[postId]);
    }
  }

  /**
   * Two toggles of the same pair cancel: the like pairs come back, and so does the post row
   * up to its update timestamp, provided the count agreed with the pairs to begin with.
   */
  lemma TogglesCancel(s: BoardState, postId: PostId, uid: UserId, now: Time, later: Time)
    requires postId in s.posts && LikeCounts(s.posts, s.likes.Keys)
    ensures var t := ToggleLikeCommit(ToggleLikeCommit(s, postId, uid, now), postId, uid, later);
      && t.likes.Keys == s.likes.Keys
      && (LikeKey(uid, postId) !in s.likes ==> t.likes == s.likes)
      && t.posts.Keys == s.posts.Keys
      && (forall p :: p in s.posts && p != postId ==> t.posts[p] == s.posts[p])
      && t.posts[postId].(updatedDateTime := s.posts[postId].updatedDateTime) == s.posts[postId]
  {
    var key := LikeKey(uid, postId);
    var s1 := ToggleLikeCommit(s, postId, uid, now);
    ToggleLikeCommitEffect(s, postId, uid, now);
    ToggleLikeCommitEffect(s1, postId, uid, later);
    if key in s.likes {
      assert key in LikesOf(s.likes.Keys, postId);
      assert s1.likes.Keys + {key} == s.likes.Keys;
    } else {
      assert s1.likes - {key} == s.likes;
    }
  }

  /** A commit leaves the users alone and the post visible. */
  lemma ToggleLikeCommitKeepsPost(s: BoardState, postId: PostId, uid: UserId, now: Time)
    requires postId in s.posts
    ensures var t := ToggleLikeCommit(s, postId, uid, now);
      t.users == s.users && postId in t.posts && (PostVisible(t, postId) <==> PostVisible(s, postId))
  {
  }

  /** A toggle on a visible post is the commit, and returns the post as it was. */
  lemma ToggleLikeSucceeds(s: BoardState, postId: PostId, currentUser: UserEntity, now: Time)
    requires WellFormed(s) && ActingUser(s, currentUser) && PostVisible(s, postId)
    ensures ToggleLikeStep(s, postId, currentUser, now)
      == Step(ToggleLikeCommit(s, postId, currentUser.id.value, now), Ok(From(s.posts[postId])))
  {
    var post := s.posts[postId];
    FromIgnoresCounters(post, post.repliesCount, ToggledCount(s, postId, currentUser.id.value));
  }

  lemma ToggleLikeTwiceRestores(s: BoardState, postId: PostId, currentUser: UserEntity, now: Time, later: Time)
    requires WellFormed(s) && ActingUser(s, currentUser) && LikeCountsAgree(s)
    requires PostVisible(s, postId)
    ensures var s1 := ToggleLikeStep(s, postId, currentUser, now).state;
      && ActingUser(s1, currentUser)
      && var r := ToggleLikeStep(s1, postId, currentUser, later);
      && r.result.Ok?
      && r.state.likes.Keys == s.likes.Keys
      && r.state.posts.Keys == s.posts.Keys
      && (forall p :: p in s.posts ==> r.state.posts[p].(updatedDateTime := s.posts[p].updatedDateTime) == s.posts[p])
  {
    var uid := currentUser.id.value;
    ToggleLikeSucceeds(s, postId, currentUser, now);
    ToggleLikeCommitKeepsPost(s, postId, uid, now);
    var s1 := ToggleLikeCommit(s, postId, uid, now);
    ToggleLikeSucceeds(s1, postId, currentUser, later);
    TogglesCancel(s, postId, uid, now, later);
  }

  // ================================================================ the service on the repositories

  method CreatePost(board: Board, body: string, currentUser: UserEntity, now: Time) returns (r: Result<Post, Error>)
    requires board.Valid() && ActingUser(board.State(), currentUser)
    modifies board
    ensures board.Valid()
    ensures Step(board.State(), r) == CreatePostStep(old(board.State()), body, currentUser, now)
  {
    var postEntity := PostEntities.Of(body, currentUser.id.value);
    // save: the generated id is assigned, then @PrePersist stamps both timestamps.
    postEntity := postEntity.(id := Some(board.nextPostId));
    postEntity := PostEntities.PrePersist(postEntity, now);
    board.posts := board.posts[board.nextPostId := postEntity];
    board.nextPostId := board.nextPostId + 1;
    r := Ok(From(postEntity));
  }

  method UpdatePost(board: Board, postId: PostId, body: string, currentUser: UserEntity, now: Time) returns (r: Result<Post, Error>)
    requires board.Valid()
    modifies board
    ensures board.Valid()
    ensures Step(board.State(), r) == UpdatePostStep(old(board.State()), postId, body, currentUser, now)
  {
    if !PostVisible(board.State(), postId) {
      return Err(PostNotFound);
    }
    var postEntity := board.posts[postId];
    if board.users[postEntity.user] != currentUser {
      return Err(UserNotAllowed);
    }
    var patched := postEntity.(body := body);
    var saved := FlushPost(postEntity, patched, now);
    board.posts := board.posts[postId := saved];
    r := Ok(From(saved));
  }

  method DeletePost(board: Board, postId: PostId, currentUser: UserEntity, now: Time) returns (r: Result<(), Error>)
    requires board.Valid()
    modifies board
    ensures board.Valid()
    ensures Step(board.State(), r) == DeletePostStep(old(board.State()), postId, currentUser, now)
  {
    if !PostVisible(board.State(), postId) {
      return Err(PostNotFound);
    }
    var postEntity := board.posts[postId];
    if board.users[postEntity.user] != currentUser {
      return Err(UserNotAllowed);
    }
    board.posts := board.posts[postId := PostEntities.SoftDelete(postEntity, now)];
    r := Ok(());
  }

  method ToggleLike(board: Board, postId: PostId, currentUser: UserEntity, now: Time) returns (r: Result<Post, Error>)
    requires board.Valid() && ActingUser(board.State(), currentUser)
    modifies board
    ensures board.Valid()
    ensures Step(board.State(), r) == ToggleLikeStep(old(board.State()), postId, currentUser, now)
  {
    ghost var s := board.State();
    if !PostVisible(board.State(), postId) {
      return Err(PostNotFound);
    }
    var postEntity := board.posts[postId];
    var loaded := postEntity;
    var key := LikeKey(currentUser.id.value, postId);
    if key in board.likes {
      board.likes := board.likes - {key};
      postEntity := postEntity.(likesCount := FloorDecrement(postEntity.likesCount));
      assert FlushPost(loaded, postEntity, now) == Unliked(loaded, now);
      board.posts := board.posts[postId := FlushPost(loaded, postEntity, now)];
      assert board.State() == UnlikeCommit(s, postId, currentUser.id.value, now);
    } else {
      board.likes := board.likes[key := LikeEntities.PrePersist(LikeEntities.Of(currentUser.id.value, postId), now)];
      postEntity := postEntity.(likesCount := postEntity.likesCount + 1);
      // The count changed, so @PreUpdate stamps the row when the transaction commits.
      assert PostEntities.PreUpdate(postEntity, now) == Liked(loaded, now);
      board.posts := board.posts[postId := PostEntities.PreUpdate(postEntity, now)];
      assert board.State() == LikeCommit(s, postId, currentUser.id.value, now);
    }
    ToggleLikeSucceeds(s, postId, currentUser, now);
    r := Ok(From(postEntity));
  }
}
