/**
 * The JPA repositories as one in-memory store. Every table is a map from its key to its row:
 * users, posts and replies by primary key; follow and like rows by the pair their unique
 * index covers, so "at most one row per pair" holds by construction. The `next...` fields
 * are the identity generators of the three tables with generated keys.
 */
module Store {
  import opened Wrappers
  import opened Basics
  import opened Errors
  import opened UserEntities
  import opened PostEntities
  import opened FollowEntities
  import opened LikeEntities
  import opened ReplyEntities

  datatype BoardState = BoardState(
    users: map<UserId, UserEntity>,
    follows: map<FollowKey, FollowEntity>,
    posts: map<PostId, PostEntity>,
    likes: map<LikeKey, LikeEntity>,
    replies: map<ReplyId, ReplyEntity>,
    nextUserId: UserId,
    nextPostId: PostId,
    nextReplyId: ReplyId)

  /** The outcome of one service call: the store after it commits, and what it returned or threw. */
  datatype Step<T> = Step(state: BoardState, result: Result<T, Error>)

  const EmptyBoard := BoardState(map[], map[], map[], map[], map[], 0, 0, 0)

  // ---------------------------------------------------------------- well-formedness
  //
  // Each table's integrity is stated over that table and the key sets it points into, so a
  // call that leaves a table (and those key sets) alone visibly leaves its integrity alone.

  predicate UsersKeyed(users: map<UserId, UserEntity>, nextUserId: UserId)
  {
    forall k :: k in users ==> users[k].id == Some(k) && k < nextUserId
  }

  /** signUp's check keeps visible usernames unique (the column itself has no unique constraint). */
  predicate UniqueVisibleUsernames(users: map<UserId, UserEntity>)
  {
    forall a, b ::
      (a in users && b in users && UserEntities.Visible(users[a]) && UserEntities.Visible(users[b])
       && users[a].username == users[b].username) ==> a == b
  }

  predicate FollowsWellFormed(follows: map<FollowKey, FollowEntity>, userIds: set<UserId>)
  {
    forall k :: k in follows ==>
      && FollowEntities.Key(follows[k]) == k && follows[k].createdDateTime.Some?
      && k.follower in userIds && k.following in userIds && k.follower != k.following
  }

  predicate PostsKeyed(posts: map<PostId, PostEntity>, nextPostId: PostId, userIds: set<UserId>)
  {
    forall p :: p in posts ==> posts[p].id == Some(p) && p < nextPostId && posts[p].user in userIds
  }

  predicate LikesWellFormed(likes: map<LikeKey, LikeEntity>, userIds: set<UserId>, postIds: set<PostId>)
  {
    forall k :: k in likes ==>
      && LikeEntities.Key(likes[k]) == k && likes[k].createdDateTime.Some?
      && k.user in userIds && k.post in postIds
  }

  predicate RepliesKeyed(replies: map<ReplyId, ReplyEntity>, nextReplyId: ReplyId, userIds: set<UserId>, postIds: set<PostId>)
  {
    forall r :: r in replies ==>
      replies[r].id == Some(r) && r < nextReplyId && replies[r].user in userIds && replies[r].post in postIds
  }

  predicate WellFormed(s: BoardState)
  {
    && UsersKeyed(s.users, s.nextUserId) && UniqueVisibleUsernames(s.users)
    && FollowsWellFormed(s.follows, s.users.Keys)
    && PostsKeyed(s.posts, s.nextPostId, s.users.Keys)
    && LikesWellFormed(s.likes, s.users.Keys, s.posts.Keys)
    && RepliesKeyed(s.replies, s.nextReplyId, s.users.Keys, s.posts.Keys)
  }

  /**
   * The principal a service call acts for: the authentication filter loads it from the store
   * at the start of the request, so it is the current, visible row of a user.
   */
  predicate ActingUser(s: BoardState, currentUser: UserEntity)
  {
    && currentUser.id.Some? && currentUser.id.value in s.users
    && s.users[currentUser.id.value] == currentUser && UserEntities.Visible(currentUser)
  }

  /** With all-field equality, comparing a stored row with the acting principal is comparing keys. */
  lemma RowEqualsPrincipalIffSameKey(s: BoardState, currentUser: UserEntity, k: UserId)
    requires UsersKeyed(s.users, s.nextUserId) && ActingUser(s, currentUser) && k in s.users
    ensures s.users[k] == currentUser <==> k == currentUser.id.value
  {
    if s.users[k] == currentUser {
      assert s.users[k].id == Some(k);
    }
  }

  // ---------------------------------------------------------------- lookups

  /** `userRepository.findByUsername`: the visible user with exactly that name, if any. */
  function FindByUsername(s: BoardState, name: string): (r: Option<UserId>)
    requires UniqueVisibleUsernames(s.users)
    ensures r.Some? ==> r.value in s.users && UserEntities.Visible(s.users[r.value]) && s.users[r.value].username == name
    ensures r.None? ==> forall k :: k in s.users && UserEntities.Visible(s.users[k]) ==> s.users[k].username != name
  {
    if exists k :: k in s.users && UserEntities.Visible(s.users[k]) && s.users[k].username == name then
      var k :| k in s.users && UserEntities.Visible(s.users[k]) && s.users[k].username == name;
      Some(k)
    else
      None
  }

  /** `findByUsername` on a visible stored user returns that user. */
  lemma FindVisibleUser(s: BoardState, k: UserId)
    requires UniqueVisibleUsernames(s.users) && k in s.users && UserEntities.Visible(s.users[k])
    ensures FindByUsername(s, s.users[k].username) == Some(k)
  {
  }

  /** A lookup by username sees only names and visibility, so a call that keeps both keeps its answer. */
  lemma FindByUsernameStable(s: BoardState, t: BoardState, name: string)
    requires UniqueVisibleUsernames(s.users) && UniqueVisibleUsernames(t.users)
    requires s.users.Keys == t.users.Keys
    requires forall k :: k in s.users ==>
      t.users[k].username == s.users[k].username && t.users[k].deletedDateTime == s.users[k].deletedDateTime
    ensures FindByUsername(t, name) == FindByUsername(s, name)
  {
    var a, b := FindByUsername(s, name), FindByUsername(t, name);
    if a.Some? {
      assert t.users[a.value].username == name && UserEntities.Visible(t.users[a.value]);
    }
    if b.Some? {
      assert s.users[b.value].username == name && UserEntities.Visible(s.users[b.value]);
    }
  }

  /** `postRepository.findById` succeeds. */
  predicate PostVisible(s: BoardState, id: PostId)
  {
    id in s.posts && PostEntities.Visible(s.posts[id])
  }

  /** `replyRepository.findById` succeeds. */
  predicate ReplyVisible(s: BoardState, id: ReplyId)
  {
    id in s.replies && ReplyEntities.Visible(s.replies[id])
  }

  /** `followRepository.findByFollowerAndFollowing(currentUser, user).isPresent()`. */
  predicate IsFollowing(s: BoardState, currentUser: UserEntity, user: UserId)
  {
    currentUser.id.Some? && FollowKey(currentUser.id.value, user) in s.follows
  }

  // ---------------------------------------------------------------- edge sets and counters

  /** Follow rows whose `following` is u. */
  function Into(keys: set<FollowKey>, u: UserId): set<FollowKey>
  {
    set k | k in keys && k.following == u
  }

  /** Follow rows whose `follower` is u. */
  function OutOf(keys: set<FollowKey>, u: UserId): set<FollowKey>
  {
    set k | k in keys && k.follower == u
  }

  /** Like rows on post p. */
  function LikesOf(keys: set<LikeKey>, p: PostId): set<LikeKey>
  {
    set k | k in keys && k.post == p
  }

  /** Visible replies on post p. */
  function VisibleRepliesOn(replies: map<ReplyId, ReplyEntity>, p: PostId): set<ReplyId>
  {
    set r | r in replies && replies[r].post == p && ReplyEntities.Visible(replies[r])
  }

  /**
   * The follow counters as the services maintain them: `follow` adds one to the TARGET's
   * followingsCount and to the ACTOR's followersCount, so followingsCount counts incoming
   * rows and followersCount outgoing ones.
   */
  predicate FollowCounts(users: map<UserId, UserEntity>, keys: set<FollowKey>)
  {
    forall u :: u in users ==>
      users[u].followingsCount == |Into(keys, u)| && users[u].followersCount == |OutOf(keys, u)|
  }

  predicate FollowCountsAgree(s: BoardState)
  {
    FollowCounts(s.users, s.follows.Keys)
  }

  predicate LikeCounts(posts: map<PostId, PostEntity>, keys: set<LikeKey>)
  {
    forall p :: p in posts ==> posts[p].likesCount == |LikesOf(keys, p)|
  }

  predicate LikeCountsAgree(s: BoardState)
  {
    LikeCounts(s.posts, s.likes.Keys)
  }

  predicate ReplyCounts(posts: map<PostId, PostEntity>, replies: map<ReplyId, ReplyEntity>)
  {
    forall p :: p in posts ==> posts[p].repliesCount == |VisibleRepliesOn(replies, p)|
  }

  predicate ReplyCountsAgree(s: BoardState)
  {
    ReplyCounts(s.posts, s.replies)
  }

  lemma {:induction false} IntoInsert(keys: set<FollowKey>, key: FollowKey, u: UserId)
    requires key !in keys
    ensures |Into(keys + {key}, u)| == |Into(keys, u)| + (if key.following == u then 1 else 0)
  {
    if key.following == u {
      assert Into(keys + {key}, u) == Into(keys, u) + {key};
    } else {
      assert Into(keys + {key}, u) == Into(keys, u);
    }
  }

  lemma {:induction false} IntoRemove(keys: set<FollowKey>, key: FollowKey, u: UserId)
    requires key in keys
    ensures |Into(keys - {key}, u)| == |Into(keys, u)| - (if key.following == u then 1 else 0)
  {
    if key.following == u {
      assert Into(keys - {key}, u) == Into(keys, u) - {key};
    } else {
      assert Into(keys - {key}, u) == Into(keys, u);
    }
  }

  lemma {:induction false} OutOfInsert(keys: set<FollowKey>, key: FollowKey, u: UserId)
    requires key !in keys
    ensures |OutOf(keys + {key}, u)| == |OutOf(keys, u)| + (if key.follower == u then 1 else 0)
  {
    if key.follower == u {
      assert OutOf(keys + {key}, u) == OutOf(keys, u) + {key};
    } else {
      assert OutOf(keys + {key}, u) == OutOf(keys, u);
    }
  }

  lemma {:induction false} OutOfRemove(keys: set<FollowKey>, key: FollowKey, u: UserId)
    requires key in keys
    ensures |OutOf(keys - {key}, u)| == |OutOf(keys, u)| - (if key.follower == u then 1 else 0)
  {
    if key.follower == u {
      assert OutOf(keys - {key}, u) == OutOf(keys, u) - {key};
    } else {
      assert OutOf(keys - {key}, u) == OutOf(keys, u);
    }
  }

  lemma {:induction false} LikesOfInsert(keys: set<LikeKey>, key: LikeKey, p: PostId)
    requires key !in keys
    ensures |LikesOf(keys + {key}, p)| == |LikesOf(keys, p)| + (if key.post == p then 1 else 0)
  {
    if key.post == p {
      assert LikesOf(keys + {key}, p) == LikesOf(keys, p) + {key};
    } else {
      assert LikesOf(keys + {key}, p) == LikesOf(keys, p);
    }
  }

  lemma {:induction false} LikesOfRemove(keys: set<LikeKey>, key: LikeKey, p: PostId)
    requires key in keys
    ensures |LikesOf(keys - {key}, p)| == |LikesOf(keys, p)| - (if key.post == p then 1 else 0)
  {
    if key.post == p {
      assert LikesOf(keys - {key}, p) == LikesOf(keys, p) - {key};
    } else {
      assert LikesOf(keys - {key}, p) == LikesOf(keys, p);
    }
  }

  lemma {:induction false} RepliesInsert(replies: map<ReplyId, ReplyEntity>, id: ReplyId, e: ReplyEntity, p: PostId)
    requires id !in replies && ReplyEntities.Visible(e)
    ensures |VisibleRepliesOn(replies[id := e], p)| == |VisibleRepliesOn(replies, p)| + (if e.post == p then 1 else 0)
  {
    if e.post == p {
      assert VisibleRepliesOn(replies[id := e], p) == VisibleRepliesOn(replies, p) + {id};
    } else {
      assert VisibleRepliesOn(replies[id := e], p) == VisibleRepliesOn(replies, p);
    }
  }

  lemma {:induction false} RepliesDelete(replies: map<ReplyId, ReplyEntity>, id: ReplyId, now: Time, p: PostId)
    requires id in replies && ReplyEntities.Visible(replies[id])
    ensures var t := SqlDelete(replies, id, now);
      |VisibleRepliesOn(t, p)| == |VisibleRepliesOn(replies, p)| - (if replies[id].post == p then 1 else 0)
  {
    var t := SqlDelete(replies, id, now);
    if replies[id].post == p {
      assert VisibleRepliesOn(t, p) == VisibleRepliesOn(replies, p) - {id};
    } else {
      assert VisibleRepliesOn(t, p) == VisibleRepliesOn(replies, p);
    }
  }

  /** A user id not in the table has no follow rows; a post id not in the table has no likes or replies. */
  lemma FreshKeysHaveNoEdges(s: BoardState, u: UserId, p: PostId)
    requires WellFormed(s)
    ensures u !in s.users ==> Into(s.follows.Keys, u) == {} && OutOf(s.follows.Keys, u) == {}
    ensures p !in s.posts ==> LikesOf(s.likes.Keys, p) == {} && VisibleRepliesOn(s.replies, p) == {}
  {
  }

  lemma EmptyBoardConsistent()
    ensures WellFormed(EmptyBoard)
    ensures FollowCountsAgree(EmptyBoard) && LikeCountsAgree(EmptyBoard) && ReplyCountsAgree(EmptyBoard)
  {
  }

  // ---------------------------------------------------------------- saving rows

  /**
   * Saving a row that was loaded as `before` and now holds `after`: Hibernate's dirty check
   * runs @PreUpdate (stamping `now`) only when some field changed.
   */
  function FlushUser(before: UserEntity, after: UserEntity, now: Time): (r: UserEntity)
    ensures r.(updatedDateTime := after.updatedDateTime) == after
    ensures after == before ==> r == before
    ensures after != before ==> r.updatedDateTime == Some(now)
  {
    if after == before then before else UserEntities.PreUpdate(after, now)
  }

  function FlushPost(before: PostEntity, after: PostEntity, now: Time): (r: PostEntity)
    ensures r.(updatedDateTime := after.updatedDateTime) == after
    ensures after == before ==> r == before
    ensures after != before ==> r.updatedDateTime == Some(now)
  {
    if after == before then before else PostEntities.PreUpdate(after, now)
  }

  function FlushReply(before: ReplyEntity, after: ReplyEntity, now: Time): (r: ReplyEntity)
    ensures r.(updatedDateTime := after.updatedDateTime) == after
    ensures after == before ==> r == before
    ensures after != before ==> r.updatedDateTime == Some(now)
  {
    if after == before then before else ReplyEntities.PreUpdate(after, now)
  }

  // ---------------------------------------------------------------- history

  /**
   * What no sequence of service calls undoes: rows are never hard-deleted from the user, post
   * and reply tables; their ids, creation times and join columns never change; the identity
   * generators never go back.
   */
  predicate UsersStable(a: map<UserId, UserEntity>, b: map<UserId, UserEntity>)
  {
    forall k :: k in a ==>
      && k in b && b[k].id == a[k].id && b[k].username == a[k].username && b[k].createdDateTime == a[k].createdDateTime
  }

  predicate PostsStable(a: map<PostId, PostEntity>, b: map<PostId, PostEntity>)
  {
    forall p :: p in a ==>
      && p in b && b[p].id == a[p].id && b[p].user == a[p].user && b[p].createdDateTime == a[p].createdDateTime
  }

  predicate RepliesStable(a: map<ReplyId, ReplyEntity>, b: map<ReplyId, ReplyEntity>)
  {
    forall r :: r in a ==>
      && r in b && b[r].id == a[r].id && b[r].user == a[r].user && b[r].post == a[r].post
      && b[r].createdDateTime == a[r].createdDateTime
  }

  predicate TablesStable(s: BoardState, t: BoardState)
  {
    && s.nextUserId <= t.nextUserId && s.nextPostId <= t.nextPostId && s.nextReplyId <= t.nextReplyId
    && UsersStable(s.users, t.users) && PostsStable(s.posts, t.posts) && RepliesStable(s.replies, t.replies)
  }

  /** A row present in both tables is the same row. */
  predicate RowsKept<K, V(==)>(a: map<K, V>, b: map<K, V>)
  {
    forall k :: k in a && k in b ==> b[k] == a[k]
  }

  /**
   * Within one call, a follow or like row that is there before and after is the same row:
   * the setters are private and createdDateTime is not updatable. (Across calls a pair can
   * be deleted and inserted again with a new createdDateTime.)
   */
  predicate EdgeRowsKept(s: BoardState, t: BoardState)
  {
    RowsKept(s.follows, t.follows) && RowsKept(s.likes, t.likes)
  }

  predicate RowsStable(s: BoardState, t: BoardState)
  {
    TablesStable(s, t) && EdgeRowsKept(s, t)
  }

  lemma TablesStableTransitive(s1: BoardState, s2: BoardState, s3: BoardState)
    requires TablesStable(s1, s2) && TablesStable(s2, s3)
    ensures TablesStable(s1, s3)
  {
  }

  lemma RowsStableReflexive(s: BoardState)
    ensures RowsStable(s, s)
  {
  }

  // ---------------------------------------------------------------- one-row updates keep the store well formed
  //
  // A table's integrity is proved on the table alone; the key sets other tables point into
  // only ever grow, and growing them keeps those tables well formed.

  lemma FollowsWiden(follows: map<FollowKey, FollowEntity>, u: set<UserId>, u': set<UserId>)
    requires FollowsWellFormed(follows, u) && u <= u'
    ensures FollowsWellFormed(follows, u')
  {
  }

  lemma PostsWiden(posts: map<PostId, PostEntity>, next: PostId, u: set<UserId>, u': set<UserId>)
    requires PostsKeyed(posts, next, u) && u <= u'
    ensures PostsKeyed(posts, next, u')
  {
  }

  lemma LikesWiden(likes: map<LikeKey, LikeEntity>, u: set<UserId>, p: set<PostId>, u': set<UserId>, p': set<PostId>)
    requires LikesWellFormed(likes, u, p) && u <= u' && p <= p'
    ensures LikesWellFormed(likes, u', p')
  {
  }

  lemma RepliesWiden(replies: map<ReplyId, ReplyEntity>, next: ReplyId, u: set<UserId>, p: set<PostId>, u': set<UserId>, p': set<PostId>)
    requires RepliesKeyed(replies, next, u, p) && u <= u' && p <= p'
    ensures RepliesKeyed(replies, next, u', p')
  {
  }

  /** Rewriting user row k without touching its id, name, creation time or deletion marker. */
  lemma UsersPut(users: map<UserId, UserEntity>, next: UserId, k: UserId, e: UserEntity)
    requires UsersKeyed(users, next) && UniqueVisibleUsernames(users) && k in users
    requires e.id == users[k].id && e.username == users[k].username
    requires e.createdDateTime == users[k].createdDateTime && e.deletedDateTime == users[k].deletedDateTime
    ensures UsersKeyed(users[k := e], next) && UniqueVisibleUsernames(users[k := e])
    ensures users[k := e].Keys == users.Keys && UsersStable(users, users[k := e])
  {
    var t := users[k := e];
    forall a, b | a in t && b in t && UserEntities.Visible(t[a]) && UserEntities.Visible(t[b]) && t[a].username == t[b].username
      ensures a == b
    {
      assert UserEntities.Visible(users[a]) && UserEntities.Visible(users[b]);
      assert users[a].username == users[b].username;
    }
  }

  lemma PutUser(s: BoardState, k: UserId, e: UserEntity)
    requires WellFormed(s) && k in s.users
    requires e.id == s.users[k].id && e.username == s.users[k].username
    requires e.createdDateTime == s.users[k].createdDateTime && e.deletedDateTime == s.users[k].deletedDateTime
    ensures WellFormed(s.(users := s.users[k := e])) && RowsStable(s, s.(users := s.users[k := e]))
  {
    UsersPut(s.users, s.nextUserId, k, e);
  }

  /** What a save of a user row never changes: its key, name, creation time and deletion marker. */
  predicate SameUserIdentity(a: UserEntity, b: UserEntity)
  {
    b.id == a.id && b.username == a.username && b.createdDateTime == a.createdDateTime && b.deletedDateTime == a.deletedDateTime
  }

  lemma UsersReplace(users: map<UserId, UserEntity>, next: UserId, users': map<UserId, UserEntity>)
    requires UsersKeyed(users, next) && UniqueVisibleUsernames(users) && users'.Keys == users.Keys
    requires forall k :: k in users ==> SameUserIdentity(users[k], users'[k])
    ensures UsersKeyed(users', next) && UniqueVisibleUsernames(users') && UsersStable(users, users')
  {
    forall k | k in users' ensures users'[k].id == Some(k) && k < next {
      assert k in users && SameUserIdentity(users[k], users'[k]);
    }
    forall a, b | a in users' && b in users' && UserEntities.Visible(users'[a]) && UserEntities.Visible(users'[b])
      && users'[a].username == users'[b].username
      ensures a == b
    {
      assert SameUserIdentity(users[a], users'[a]) && SameUserIdentity(users[b], users'[b]);
    }
    forall k | k in users
      ensures k in users' && users'[k].id == users[k].id && users'[k].username == users[k].username
      ensures users'[k].createdDateTime == users[k].createdDateTime
    {
      assert SameUserIdentity(users[k], users'[k]);
    }
  }

  /** Saving any number of user rows, none of them changing what SameUserIdentity keeps. */
  lemma ReplaceUsers(s: BoardState, users: map<UserId, UserEntity>)
    requires WellFormed(s) && users.Keys == s.users.Keys
    requires forall k :: k in s.users ==> SameUserIdentity(s.users[k], users[k])
    ensures WellFormed(s.(users := users)) && RowsStable(s, s.(users := users))
  {
    UsersReplace(s.users, s.nextUserId, users);
  }

  /** Inserting a row under the next generated user id; a visible row must not reuse a visible name. */
  lemma UsersAdd(users: map<UserId, UserEntity>, next: UserId, e: UserEntity)
    requires UsersKeyed(users, next) && UniqueVisibleUsernames(users) && e.id == Some(next)
    requires UserEntities.Visible(e) ==>
      forall k :: k in users && UserEntities.Visible(users[k]) ==> users[k].username != e.username
    ensures UsersKeyed(users[next := e], next + 1) && UniqueVisibleUsernames(users[next := e])
    ensures users.Keys <= users[next := e].Keys && UsersStable(users, users[next := e])
  {
    var t := users[next := e];
    assert next !in users;
    forall a, b | a in t && b in t && UserEntities.Visible(t[a]) && UserEntities.Visible(t[b]) && t[a].username == t[b].username
      ensures a == b
    {
      if a != next && b != next {
        assert UserEntities.Visible(users[a]) && UserEntities.Visible(users[b]);
      }
    }
  }

  lemma AddUser(s: BoardState, e: UserEntity)
    requires WellFormed(s) && e.id == Some(s.nextUserId)
    requires UserEntities.Visible(e) ==>
      forall k :: k in s.users && UserEntities.Visible(s.users[k]) ==> s.users[k].username != e.username
    ensures var t := s.(users := s.users[s.nextUserId := e], nextUserId := s.nextUserId + 1);
      WellFormed(t) && RowsStable(s, t)
  {
    var t := s.(users := s.users[s.nextUserId := e], nextUserId := s.nextUserId + 1);
    UsersAdd(s.users, s.nextUserId, e);
    FollowsWiden(s.follows, s.users.Keys, t.users.Keys);
    PostsWiden(s.posts, s.nextPostId, s.users.Keys, t.users.Keys);
    LikesWiden(s.likes, s.users.Keys, s.posts.Keys, t.users.Keys, t.posts.Keys);
    RepliesWiden(s.replies, s.nextReplyId, s.users.Keys, s.posts.Keys, t.users.Keys, t.posts.Keys);
  }

  lemma FollowsInsert(follows: map<FollowKey, FollowEntity>, u: set<UserId>, key: FollowKey, row: FollowEntity)
    requires FollowsWellFormed(follows, u) && key !in follows
    requires FollowEntities.Key(row) == key && row.createdDateTime.Some?
    requires key.follower in u && key.following in u && key.follower != key.following
    ensures FollowsWellFormed(follows[key := row], u) && RowsKept(follows, follows[key := row])
  {
  }

  lemma AddFollow(s: BoardState, key: FollowKey, row: FollowEntity)
    requires WellFormed(s) && key !in s.follows
    requires FollowEntities.Key(row) == key && row.createdDateTime.Some?
    requires key.follower in s.users && key.following in s.users && key.follower != key.following
    ensures WellFormed(s.(follows := s.follows[key := row])) && RowsStable(s, s.(follows := s.follows[key := row]))
  {
    FollowsInsert(s.follows, s.users.Keys, key, row);
  }

  lemma FollowsRemove(follows: map<FollowKey, FollowEntity>, u: set<UserId>, key: FollowKey)
    requires FollowsWellFormed(follows, u)
    ensures FollowsWellFormed(follows - {key}, u) && RowsKept(follows, follows - {key})
  {
  }

  lemma RemoveFollow(s: BoardState, key: FollowKey)
    requires WellFormed(s)
    ensures WellFormed(s.(follows := s.follows - {key})) && RowsStable(s, s.(follows := s.follows - {key}))
  {
    FollowsRemove(s.follows, s.users.Keys, key);
  }

  /** Rewriting post row p without touching its id, owner or creation time. */
  lemma PostsPut(posts: map<PostId, PostEntity>, next: PostId, u: set<UserId>, p: PostId, e: PostEntity)
    requires PostsKeyed(posts, next, u) && p in posts
    requires e.id == posts[p].id && e.user == posts[p].user && e.createdDateTime == posts[p].createdDateTime
    ensures PostsKeyed(posts[p := e], next, u) && posts[p := e].Keys == posts.Keys && PostsStable(posts, posts[p := e])
  {
  }

  lemma PutPost(s: BoardState, p: PostId, e: PostEntity)
    requires WellFormed(s) && p in s.posts
    requires e.id == s.posts[p].id && e.user == s.posts[p].user && e.createdDateTime == s.posts[p].createdDateTime
    ensures WellFormed(s.(posts := s.posts[p := e])) && RowsStable(s, s.(posts := s.posts[p := e]))
  {
    PostsPut(s.posts, s.nextPostId, s.users.Keys, p, e);
  }

  lemma PostsAdd(posts: map<PostId, PostEntity>, next: PostId, u: set<UserId>, e: PostEntity)
    requires PostsKeyed(posts, next, u) && e.id == Some(next) && e.user in u
    ensures PostsKeyed(posts[next := e], next + 1, u) && posts.Keys <= posts[next := e].Keys
    ensures PostsStable(posts, posts[next := e])
  {
    assert next !in posts;
  }

  lemma AddPost(s: BoardState, e: PostEntity)
    requires WellFormed(s) && e.id == Some(s.nextPostId) && e.user in s.users
    ensures var t := s.(posts := s.posts[s.nextPostId := e], nextPostId := s.nextPostId + 1);
      WellFormed(t) && RowsStable(s, t)
  {
    var t := s.(posts := s.posts[s.nextPostId := e], nextPostId := s.nextPostId + 1);
    PostsAdd(s.posts, s.nextPostId, s.users.Keys, e);
    LikesWiden(s.likes, s.users.Keys, s.posts.Keys, t.users.Keys, t.posts.Keys);
    RepliesWiden(s.replies, s.nextReplyId, s.users.Keys, s.posts.Keys, t.users.Keys, t.posts.Keys);
  }

  lemma LikesInsert(likes: map<LikeKey, LikeEntity>, u: set<UserId>, p: set<PostId>, key: LikeKey, row: LikeEntity)
    requires LikesWellFormed(likes, u, p) && key !in likes
    requires LikeEntities.Key(row) == key && row.createdDateTime.Some?
    requires key.user in u && key.post in p
    ensures LikesWellFormed(likes[key := row], u, p) && RowsKept(likes, likes[key := row])
  {
  }

  lemma AddLike(s: BoardState, key: LikeKey, row: LikeEntity)
    requires WellFormed(s) && key !in s.likes
    requires LikeEntities.Key(row) == key && row.createdDateTime.Some?
    requires key.user in s.users && key.post in s.posts
    ensures WellFormed(s.(likes := s.likes[key := row])) && RowsStable(s, s.(likes := s.likes[key := row]))
  {
    LikesInsert(s.likes, s.users.Keys, s.posts.Keys, key, row);
  }

  lemma LikesRemove(likes: map<LikeKey, LikeEntity>, u: set<UserId>, p: set<PostId>, key: LikeKey)
    requires LikesWellFormed(likes, u, p)
    ensures LikesWellFormed(likes - {key}, u, p) && RowsKept(likes, likes - {key})
  {
  }

  lemma RemoveLike(s: BoardState, key: LikeKey)
    requires WellFormed(s)
    ensures WellFormed(s.(likes := s.likes - {key})) && RowsStable(s, s.(likes := s.likes - {key}))
  {
    LikesRemove(s.likes, s.users.Keys, s.posts.Keys, key);
  }

  /** A call that rewrites the post and like tables only, each table kept well formed on its own. */
  lemma PostsAndLikesRewritten(s: BoardState, t: BoardState)
    requires WellFormed(s)
    requires t.users == s.users && t.follows == s.follows && t.replies == s.replies
    requires t.nextUserId == s.nextUserId && t.nextPostId == s.nextPostId && t.nextReplyId == s.nextReplyId
    requires t.posts.Keys == s.posts.Keys && PostsKeyed(t.posts, s.nextPostId, s.users.Keys) && PostsStable(s.posts, t.posts)
    requires LikesWellFormed(t.likes, s.users.Keys, s.posts.Keys) && RowsKept(s.likes, t.likes)
    ensures WellFormed(t) && RowsStable(s, t)
  {
  }

  /** A call that rewrites the post and reply tables only, each table kept well formed on its own. */
  lemma PostsAndRepliesRewritten(s: BoardState, t: BoardState)
    requires WellFormed(s)
    requires t.users == s.users && t.follows == s.follows && t.likes == s.likes
    requires t.nextUserId == s.nextUserId && t.nextPostId == s.nextPostId && s.nextReplyId <= t.nextReplyId
    requires t.posts.Keys == s.posts.Keys && PostsKeyed(t.posts, s.nextPostId, s.users.Keys) && PostsStable(s.posts, t.posts)
    requires RepliesKeyed(t.replies, t.nextReplyId, s.users.Keys, s.posts.Keys) && RepliesStable(s.replies, t.replies)
    ensures WellFormed(t) && RowsStable(s, t)
  {
  }

  /** Rewriting reply rows without touching any id, author, post or creation time. */
  lemma RepliesPut(replies: map<ReplyId, ReplyEntity>, next: ReplyId, u: set<UserId>, p: set<PostId>, replies': map<ReplyId, ReplyEntity>)
    requires RepliesKeyed(replies, next, u, p) && replies'.Keys == replies.Keys
    requires forall r :: r in replies ==>
      && replies'[r].id == replies[r].id && replies'[r].user == replies[r].user
      && replies'[r].post == replies[r].post && replies'[r].createdDateTime == replies[r].createdDateTime
    ensures RepliesKeyed(replies', next, u, p) && RepliesStable(replies, replies')
  {
    forall r | r in replies'
      ensures replies'[r].id == Some(r) && r < next && replies'[r].user in u && replies'[r].post in p
    {
      assert r in replies;
    }
  }

  lemma PutReplies(s: BoardState, replies: map<ReplyId, ReplyEntity>)
    requires WellFormed(s) && replies.Keys == s.replies.Keys
    requires forall r :: r in s.replies ==>
      && replies[r].id == s.replies[r].id && replies[r].user == s.replies[r].user
      && replies[r].post == s.replies[r].post && replies[r].createdDateTime == s.replies[r].createdDateTime
    ensures WellFormed(s.(replies := replies)) && RowsStable(s, s.(replies := replies))
  {
    RepliesPut(s.replies, s.nextReplyId, s.users.Keys, s.posts.Keys, replies);
  }

  lemma RepliesPutOne(replies: map<ReplyId, ReplyEntity>, next: ReplyId, u: set<UserId>, p: set<PostId>, r: ReplyId, e: ReplyEntity)
    requires RepliesKeyed(replies, next, u, p) && r in replies
    requires e.id == replies[r].id && e.user == replies[r].user && e.post == replies[r].post
    requires e.createdDateTime == replies[r].createdDateTime
    ensures RepliesKeyed(replies[r := e], next, u, p) && RepliesStable(replies, replies[r := e])
  {
  }

  lemma PutReply(s: BoardState, r: ReplyId, e: ReplyEntity)
    requires WellFormed(s) && r in s.replies
    requires e.id == s.replies[r].id && e.user == s.replies[r].user && e.post == s.replies[r].post
    requires e.createdDateTime == s.replies[r].createdDateTime
    ensures WellFormed(s.(replies := s.replies[r := e])) && RowsStable(s, s.(replies := s.replies[r := e]))
  {
    RepliesPutOne(s.replies, s.nextReplyId, s.users.Keys, s.posts.Keys, r, e);
  }


  lemma RepliesAdd(replies: map<ReplyId, ReplyEntity>, next: ReplyId, u: set<UserId>, p: set<PostId>, e: ReplyEntity)
    requires RepliesKeyed(replies, next, u, p) && e.id == Some(next) && e.user in u && e.post in p
    ensures RepliesKeyed(replies[next := e], next + 1, u, p) && RepliesStable(replies, replies[next := e])
  {
    assert next !in replies;
  }

  lemma AddReply(s: BoardState, e: ReplyEntity)
    requires WellFormed(s) && e.id == Some(s.nextReplyId) && e.user in s.users && e.post in s.posts
    ensures var t := s.(replies := s.replies[s.nextReplyId := e], nextReplyId := s.nextReplyId + 1);
      WellFormed(t) && RowsStable(s, t)
  {
    RepliesAdd(s.replies, s.nextReplyId, s.users.Keys, s.posts.Keys, e);
  }

  // ---------------------------------------------------------------- the repositories

  /** The repositories' tables, updated in place by the service methods. */
  class Board {
    var users: map<UserId, UserEntity>
    var follows: map<FollowKey, FollowEntity>
    var posts: map<PostId, PostEntity>
    var likes: map<LikeKey, LikeEntity>
    var replies: map<ReplyId, ReplyEntity>
    var nextUserId: UserId
    var nextPostId: PostId
    var nextReplyId: ReplyId

    function State(): BoardState
      reads this
    {
      BoardState(users, follows, posts, likes, replies, nextUserId, nextPostId, nextReplyId)
    }

    ghost predicate Valid()
      reads this
    {
      WellFormed(State())
    }

    constructor ()
      ensures Valid() && State() == EmptyBoard
    {
      users, follows, posts, likes, replies := map[], map[], map[], map[], map[];
      nextUserId, nextPostId, nextReplyId := 0, 0, 0;
    }
  }
}
