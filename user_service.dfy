/**
 * UserService: sign-up, authentication, profile edits, the follow/unfollow state machine
 * and the user, follower, following and liked-user listings.
 *
 * Each mutating call is a `...Step` function from the store before the call to the store
 * after it and the value returned or exception thrown, and a method that performs the same
 * updates on the Board in place. Password hashing is the `encode`/`matches` pair passed in;
 * `now` is the clock and `roll` the avatar number drawn by `new Random().nextInt(100)`.
 * Listings are maps keyed by the row each entry was built from; their order is not modelled.
 */
module UserService {
  import opened Wrappers
  import opened Basics
  import opened Errors
  import opened UserEntities
  import opened PostEntities
  import opened FollowEntities
  import opened LikeEntities
  import opened Store
  import opened UserRecords
  import opened JwtTokens

  // ================================================================ lookups and projections

  /** `loadUserByUsername`: the visible row with that name, or UserNotFoundException(username). */
  function LoadUserByUsername(s: BoardState, username: string): (r: Result<UserEntity, Error>)
    requires UniqueVisibleUsernames(s.users)
    ensures r.Ok? ==> r.value in s.users.Values && UserEntities.Visible(r.value) && r.value.username == username
    ensures r.Err? ==> (r.error == UserNotFound(Some(username))
      && forall k :: k in s.users && UserEntities.Visible(s.users[k]) ==> s.users[k].username != username)
  {
    match FindByUsername(s, username)
    case None => Err(UserNotFound(Some(username)))
    case Some(k) => Ok(s.users[k])
  }

  /** `getUserWithFollowingStatus(currentUser, user)`: the projection annotated with the follow-table lookup. */
  function UserWithFollowingStatus(s: BoardState, currentUser: UserEntity, user: UserId): (u: User)
    requires user in s.users
    ensures u.isFollowing == Some(IsFollowing(s, currentUser, user))
    ensures u.(isFollowing := None) == UserRecords.From(s.users[user])
  {
    FromWithFollowing(s.users[user], IsFollowing(s, currentUser, user))
  }

  /** The annotation is true exactly when the follow row (currentUser, user) exists; the rest is the row's projection. */
  lemma FollowingStatusMatchesTable(s: BoardState, currentUser: UserEntity, user: UserId)
    requires UsersKeyed(s.users, s.nextUserId) && ActingUser(s, currentUser) && user in s.users
    ensures var u := UserWithFollowingStatus(s, currentUser, user);
      && (u.isFollowing == Some(true) <==> FollowKey(currentUser.id.value, user) in s.follows)
      && (u.isFollowing == Some(false) <==> FollowKey(currentUser.id.value, user) !in s.follows)
      && u.userId == Some(user) && u.username == s.users[user].username
      && u.followersCount == s.users[user].followersCount && u.followingsCount == s.users[user].followingsCount
  {
  }

  // ================================================================ signUp / authenticate

  /** The row signUp saves: `UserEntity.of` under the next generated id, stamped by @PrePersist. */
  function NewUser(username: string, hash: string, roll: nat, id: UserId, now: Time): (e: UserEntity)
    requires roll < 100
    ensures e.id == Some(id) && e.username == username && e.password == hash
    ensures UserEntities.IsAvatarUrl(e.profile) && e.description.None? && UserEntities.Visible(e)
    ensures e.followersCount == 0 && e.followingsCount == 0
    ensures e.createdDateTime == Some(now) && e.updatedDateTime == Some(now)
  {
    UserEntities.PrePersist(UserEntities.Of(username, hash, roll).(id := Some(id)), now)
  }

  /** signUp's insert: the row under the next generated id, which then moves on by one. */
  function SignUpCommit(s: BoardState, e: UserEntity): BoardState
  {
    s.(users := s.users[s.nextUserId := e], nextUserId := s.nextUserId + 1)
  }

  lemma SignUpCommitKeepsStore(s: BoardState, e: UserEntity)
    requires WellFormed(s) && e.id == Some(s.nextUserId)
    requires UserEntities.Visible(e) ==>
      forall k :: k in s.users && UserEntities.Visible(s.users[k]) ==> s.users[k].username != e.username
    ensures WellFormed(SignUpCommit(s, e)) && RowsStable(s, SignUpCommit(s, e))
  {
    AddUser(s, e);
  }

  function SignUpStep(s: BoardState, username: string, password: string, encode: string -> string, roll: nat, now: Time): (r: Step<User>)
    requires WellFormed(s) && roll < 100
    ensures WellFormed(r.state) && RowsStable(s, r.state)
    ensures r.result.Err? ==> r.state == s
  {
    if FindByUsername(s, username).Some? then
      Step(s, Err(UserAlreadyExists))
    else
      var saved := NewUser(username, encode(password), roll, s.nextUserId, now);
      SignUpCommitKeepsStore(s, saved);
      Step(SignUpCommit(s, saved), Ok(From(saved)))
  }

  /** signUp fails exactly when a visible user already has the name; otherwise it inserts the new row. */
  lemma SignUpOutcome(s: BoardState, username: string, password: string, encode: string -> string, roll: nat, now: Time)
    requires WellFormed(s) && roll < 100
    ensures var r := SignUpStep(s, username, password, encode, roll, now);
      && (r.result.Err? <==> exists k :: k in s.users && UserEntities.Visible(s.users[k]) && s.users[k].username == username)
      && (r.result.Err? ==> r.result.error == UserAlreadyExists && r.state == s)
      && (r.result.Ok? ==>
            var e := NewUser(username, encode(password), roll, s.nextUserId, now);
            r == Step(SignUpCommit(s, e), Ok(From(e))))
  {
    var found := FindByUsername(s, username);
    if found.Some? {
      assert found.value in s.users;
    }
  }

  /** The insert puts one row under a key not used before and changes nothing else. */
  lemma SignUpCommitEffect(s: BoardState, e: UserEntity)
    requires UsersKeyed(s.users, s.nextUserId)
    ensures var t := SignUpCommit(s, e);
      var id := s.nextUserId;
      && id !in s.users && t.users.Keys == s.users.Keys + {id} && t.users[id] == e
      && (forall k :: k in s.users ==> t.users[k] == s.users[k])
      && t.nextUserId == id + 1
      && t.follows == s.follows && t.posts == s.posts && t.likes == s.likes && t.replies == s.replies
  {
    assert s.nextUserId !in s.users;
  }

  /** After signUp the new name resolves to the new row. */
  lemma SignUpMakesNameFindable(s: BoardState, username: string, password: string, encode: string -> string, roll: nat, now: Time)
    requires WellFormed(s) && roll < 100
    requires SignUpStep(s, username, password, encode, roll, now).result.Ok?
    ensures FindByUsername(SignUpStep(s, username, password, encode, roll, now).state, username) == Some(s.nextUserId)
  {
    SignUpOutcome(s, username, password, encode, roll, now);
    var t := SignUpStep(s, username, password, encode, roll, now).state;
    FindVisibleUser(t, s.nextUserId);
  }

  /** A row with zero counters under an id no edge mentions keeps every counter invariant. */
  lemma SignUpCommitKeepsCounters(s: BoardState, e: UserEntity)
    requires s.nextUserId !in s.users
    requires Into(s.follows.Keys, s.nextUserId) == {} && OutOf(s.follows.Keys, s.nextUserId) == {}
    requires e.followersCount == 0 && e.followingsCount == 0
    requires FollowCountsAgree(s) && LikeCountsAgree(s) && ReplyCountsAgree(s)
    ensures var t := SignUpCommit(s, e);
      FollowCountsAgree(t) && LikeCountsAgree(t) && ReplyCountsAgree(t)
  {
  }

  lemma SignUpKeepsCounters(s: BoardState, username: string, password: string, encode: string -> string, roll: nat, now: Time)
    requires WellFormed(s) && roll < 100
    requires FollowCountsAgree(s) && LikeCountsAgree(s) && ReplyCountsAgree(s)
    ensures var t := SignUpStep(s, username, password, encode, roll, now).state;
      FollowCountsAgree(t) && LikeCountsAgree(t) && ReplyCountsAgree(t)
  {
    SignUpOutcome(s, username, password, encode, roll, now);
    if SignUpStep(s, username, password, encode, roll, now).result.Ok? {
      FreshKeysHaveNoEdges(s, s.nextUserId, s.nextPostId);
      SignUpCommitKeepsCounters(s, NewUser(username, encode(password), roll, s.nextUserId, now));
    }
  }

  /** `authenticate`: the claims of the issued access token, or UserNotFoundException when the username or the password is wrong. */
  function Authenticate(s: BoardState, username: string, password: string, matches: (string, string) -> bool, now: Time): (r: Result<Claims, Error>)
    requires UniqueVisibleUsernames(s.users)
    ensures r.Ok? <==>
      exists k :: k in s.users && UserEntities.Visible(s.users[k]) && s.users[k].username == username
        && matches(password, s.users[k].password)
    ensures r.Ok? ==> (r.value.subject == username && r.value.issuedAt == now
      && r.value.expiration == now + AccessTokenLifetime)
    ensures r.Err? ==> r.error == UserNotFound(Some(username)) || r.error == UserNotFound(None)
  {
    match FindByUsername(s, username)
    case None => Err(UserNotFound(Some(username)))
    case Some(k) =>
      if matches(password, s.users[k].password) then Ok(GenerateToken(s.users[k].username, now))
      else Err(UserNotFound(None))
  }

  /** An unknown name and a wrong password are reported with the same exception class and status; only the message differs. */
  lemma AuthenticateFailuresLookAlike(s: BoardState, username: string, password: string, matches: (string, string) -> bool, now: Time)
    requires UniqueVisibleUsernames(s.users)
    requires Authenticate(s, username, password, matches, now).Err?
    ensures Authenticate(s, username, password, matches, now).error.UserNotFound?
    ensures Status(Authenticate(s, username, password, matches, now).error) == Some(404)
    ensures (Authenticate(s, username, password, matches, now).error == UserNotFound(None)) <==>
      exists k :: k in s.users && UserEntities.Visible(s.users[k]) && s.users[k].username == username
  {
    var found := FindByUsername(s, username);
    if found.Some? {
      assert found.value in s.users;
    }
  }

  /** Whoever signs up can log in with the same password, provided the hasher accepts its own digests. */
  lemma SignUpThenAuthenticate(s: BoardState, username: string, password: string, encode: string -> string,
                               matches: (string, string) -> bool, roll: nat, now: Time, later: Time)
    requires WellFormed(s) && roll < 100
    requires SignUpStep(s, username, password, encode, roll, now).result.Ok?
    requires matches(password, encode(password))
    ensures var t := SignUpStep(s, username, password, encode, roll, now).state;
      Authenticate(t, username, password, matches, later) == Ok(GenerateToken(username, later))
  {
    SignUpOutcome(s, username, password, encode, roll, now);
    SignUpMakesNameFindable(s, username, password, encode, roll, now);
  }

  /** A second signUp with the same name is refused. */
  lemma SignUpTwiceFails(s: BoardState, username: string, p1: string, p2: string, encode: string -> string, roll1: nat, roll2: nat, now: Time, later: Time)
    requires WellFormed(s) && roll1 < 100 && roll2 < 100
    requires SignUpStep(s, username, p1, encode, roll1, now).result.Ok?
    ensures var t := SignUpStep(s, username, p1, encode, roll1, now).state;
      SignUpStep(t, username, p2, encode, roll2, later) == Step(t, Err(UserAlreadyExists))
  {
    SignUpMakesNameFindable(s, username, p1, encode, roll1, now);
  }

  // ================================================================ updateUser

  function UpdateUserStep(s: BoardState, username: string, description: Option<string>, currentUser: UserEntity, now: Time): (r: Step<User>)
    requires WellFormed(s)
    ensures WellFormed(r.state) && RowsStable(s, r.state)
    ensures r.result.Err? ==> r.state == s
  {
    match FindByUsername(s, username)
    case None => Step(s, Err(UserNotFound(Some(username))))
    case Some(k) =>
      var userEntity := s.users[k];
      if userEntity != currentUser then
        Step(s, Err(UserNotAllowed))
      else
        var patched := if description.Some? then userEntity.(description := description) else userEntity;
        var saved := FlushUser(userEntity, patched, now);
        PutUser(s, k, saved);
        Step(s.(users := s.users[k := saved]), Ok(From(saved)))
  }

  /**
   * updateUser: UserNotFound, then UserNotAllowed unless the caller is that user; on success only
   * the description changes (when one is given) and updatedDateTime is stamped only if it did.
   */
  lemma UpdateUserOutcome(s: BoardState, username: string, description: Option<string>, currentUser: UserEntity, now: Time)
    requires WellFormed(s) && ActingUser(s, currentUser)
    ensures var r := UpdateUserStep(s, username, description, currentUser, now);
      var found := FindByUsername(s, username);
      && (found.None? ==> r.result == Err(UserNotFound(Some(username))))
      && (found.Some? && found.value != currentUser.id.value ==> r.result == Err(UserNotAllowed))
      && (found.Some? && found.value == currentUser.id.value ==> r.result.Ok?)
      && (r.result.Err? ==> r.state == s)
      && (r.result.Ok? ==>
            var k := currentUser.id.value;
            var e := r.state.users[k];
            && r.state == s.(users := s.users[k := e])
            && e.description == (if description.Some? then description else currentUser.description)
            && e.(description := currentUser.description, updatedDateTime := currentUser.updatedDateTime) == currentUser
            && (e.description == currentUser.description ==> e == currentUser)
            && (e.description != currentUser.description ==> e.updatedDateTime == Some(now))
            && r.result.value == From(e))
  {
    var found := FindByUsername(s, username);
    if found.Some? {
      RowEqualsPrincipalIffSameKey(s, currentUser, found.value);
    }
  }

  /** A patch without a description, or repeating the stored one, leaves the store exactly as it was. */
  lemma UpdateUserUnchangedIsNoOp(s: BoardState, username: string, description: Option<string>, currentUser: UserEntity, now: Time)
    requires WellFormed(s) && ActingUser(s, currentUser)
    requires description.None? || description == currentUser.description
    ensures UpdateUserStep(s, username, description, currentUser, now).state == s
  {
    UpdateUserOutcome(s, username, description, currentUser, now);
  }

  lemma UpdateUserKeepsCounters(s: BoardState, username: string, description: Option<string>, currentUser: UserEntity, now: Time)
    requires WellFormed(s) && ActingUser(s, currentUser) && FollowCountsAgree(s)
    ensures FollowCountsAgree(UpdateUserStep(s, username, description, currentUser, now).state)
  {
    UpdateUserOutcome(s, username, description, currentUser, now);
    var r := UpdateUserStep(s, username, description, currentUser, now);
    if r.result.Ok? {
      var k := currentUser.id.value;
      var e := r.state.users[k];
      assert e.followersCount == currentUser.followersCount && e.followingsCount == currentUser.followingsCount by {
        assert e.(description := currentUser.description, updatedDateTime := currentUser.updatedDateTime) == currentUser;
      }
      CountersUntouched(s.users, s.follows.Keys, k, e);
    }
  }

  /** Rewriting one row without touching its two counters keeps the follow counters right. */
  lemma CountersUntouched(users: map<UserId, UserEntity>, keys: set<FollowKey>, k: UserId, e: UserEntity)
    requires k in users && FollowCounts(users, keys)
    requires e.followersCount == users[k].followersCount && e.followingsCount == users[k].followingsCount
    ensures FollowCounts(users[k := e], keys)
  {
  }

  // ================================================================ follow / unFollow

  /**
   * follow's counter writes as written: one more in the target's followingsCount and in the
   * actor's followersCount. Both rows change, so the dirty check stamps both at commit.
   */
  function FollowCounterWrites(users: map<UserId, UserEntity>, tid: UserId, cid: UserId, now: Time): (r: map<UserId, UserEntity>)
    requires tid in users && cid in users && tid != cid
    ensures r.Keys == users.Keys
    ensures forall k :: k in users ==> SameUserIdentity(users[k], r[k])
  {
    var target, actor := users[tid], users[cid];
    users[tid := UserEntities.PreUpdate(target.(followingsCount := target.followingsCount + 1), now)]
         [cid := UserEntities.PreUpdate(actor.(followersCount := actor.followersCount + 1), now)]
  }

  /** The writes spelled out for the target and actor rows as the caller holds them. */
  lemma FollowCounterWritesAre(users: map<UserId, UserEntity>, tid: UserId, cid: UserId, now: Time, target: UserEntity, actor: UserEntity)
    requires tid in users && cid in users && tid != cid && users[tid] == target && users[cid] == actor
    ensures FollowCounterWrites(users, tid, cid, now)
      == users[tid := UserEntities.PreUpdate(target.(followingsCount := target.followingsCount + 1), now)]
              [cid := UserEntities.PreUpdate(actor.(followersCount := actor.followersCount + 1), now)]
  {
  }

  /** The success path of follow: insert the row (actor, target), then save both users. */
  function FollowCommit(s: BoardState, tid: UserId, cid: UserId, now: Time): BoardState
    requires tid in s.users && cid in s.users && tid != cid
  {
    s.(follows := s.follows[FollowKey(cid, tid) := FollowEntities.PrePersist(FollowEntities.Of(cid, tid), now)],
       users := FollowCounterWrites(s.users, tid, cid, now))
  }

  lemma FollowCommitKeepsStore(s: BoardState, tid: UserId, cid: UserId, now: Time)
    requires WellFormed(s) && tid in s.users && cid in s.users && tid != cid && FollowKey(cid, tid) !in s.follows
    ensures WellFormed(FollowCommit(s, tid, cid, now)) && RowsStable(s, FollowCommit(s, tid, cid, now))
  {
    var key := FollowKey(cid, tid);
    var row := FollowEntities.PrePersist(FollowEntities.Of(cid, tid), now);
    var s1 := s.(follows := s.follows[key := row]);
    AddFollow(s, key, row);
    ReplaceUsers(s1, FollowCounterWrites(s.users, tid, cid, now));
    TablesStableTransitive(s, s1, FollowCommit(s, tid, cid, now));
  }

  function FollowStep(s: BoardState, username: string, currentUser: UserEntity, now: Time): (r: Step<User>)
    requires WellFormed(s) && ActingUser(s, currentUser)
    ensures WellFormed(r.state) && RowsStable(s, r.state)
    ensures r.result.Err? ==> r.state == s
  {
    match FindByUsername(s, username)
    case None => Step(s, Err(UserNotFound(Some(username))))
    case Some(tid) =>
      var following := s.users[tid];
      if following == currentUser then
        Step(s, Err(InvalidFollow))
      else if FollowKey(currentUser.id.value, tid) in s.follows then
        Step(s, Err(FollowAlreadyExists))
      else
        FollowCommitKeepsStore(s, tid, currentUser.id.value, now);
        // The projection is taken before the commit-time @PreUpdate hook runs.
        Step(FollowCommit(s, tid, currentUser.id.value, now),
             Ok(FromWithFollowing(following.(followingsCount := following.followingsCount + 1), true)))
  }

  /** The guards of follow, in the order the source checks them; no failed call changes anything. */
  lemma FollowOutcome(s: BoardState, username: string, currentUser: UserEntity, now: Time)
    requires WellFormed(s) && ActingUser(s, currentUser)
    ensures var r := FollowStep(s, username, currentUser, now);
      var found := FindByUsername(s, username);
      var cid := currentUser.id.value;
      && (found.None? ==> r.result == Err(UserNotFound(Some(username))))
      && (found.Some? && found.value == cid ==> r.result == Err(InvalidFollow))
      && (found.Some? && found.value != cid && FollowKey(cid, found.value) in s.follows ==> r.result == Err(FollowAlreadyExists))
      && (found.Some? && found.value != cid && FollowKey(cid, found.value) !in s.follows ==> r.result.Ok?)
      && (r.result.Err? ==> r.state == s)
  {
    var found := FindByUsername(s, username);
    if found.Some? {
      RowEqualsPrincipalIffSameKey(s, currentUser, found.value);
    }
  }

  /** A successful follow is the commit on the resolved target and the acting user. */
  lemma FollowSucceeds(s: BoardState, username: string, currentUser: UserEntity, now: Time)
    requires WellFormed(s) && ActingUser(s, currentUser)
    requires FollowStep(s, username, currentUser, now).result.Ok?
    ensures var tid := FindByUsername(s, username).value;
      var cid := currentUser.id.value;
      var target := s.users[tid];
      && tid in s.users && tid != cid && FollowKey(cid, tid) !in s.follows
      && FollowStep(s, username, currentUser, now)
         == Step(FollowCommit(s, tid, cid, now), Ok(FromWithFollowing(target.(followingsCount := target.followingsCount + 1), true)))
  {
    RowEqualsPrincipalIffSameKey(s, currentUser, FindByUsername(s, username).value);
  }

  /**
   * The commit adds exactly the edge (actor, target), adds one to the target's followingsCount and
   * to the actor's followersCount, stamps both rows and changes nothing else.
   */
  lemma FollowCommitEffect(s: BoardState, tid: UserId, cid: UserId, now: Time)
    requires tid in s.users && cid in s.users && tid != cid
    ensures var t := FollowCommit(s, tid, cid, now);
      var target := s.users[tid];
      var actor := s.users[cid];
      && t.follows == s.follows[FollowKey(cid, tid) := FollowEntity(cid, tid, Some(now))]
      && t.posts == s.posts && t.likes == s.likes && t.replies == s.replies
      && t.nextUserId == s.nextUserId && t.nextPostId == s.nextPostId && t.nextReplyId == s.nextReplyId
      && t.users.Keys == s.users.Keys
      && (forall u :: u in s.users && u != tid && u != cid ==> t.users[u] == s.users[u])
      && t.users[tid].(updatedDateTime := target.updatedDateTime) == target.(followingsCount := target.followingsCount + 1)
      && t.users[cid].(updatedDateTime := actor.updatedDateTime) == actor.(followersCount := actor.followersCount + 1)
      && t.users[tid].updatedDateTime == Some(now) && t.users[cid].updatedDateTime == Some(now)
      && FollowKey(cid, tid) in t.follows
  {
  }

  /** follow keeps the as-written correspondence: followingsCount counts incoming rows, followersCount outgoing ones. */
  lemma FollowCommitKeepsCounters(s: BoardState, tid: UserId, cid: UserId, now: Time)
    requires tid in s.users && cid in s.users && tid != cid && FollowKey(cid, tid) !in s.follows
    requires FollowCountsAgree(s)
    ensures FollowCountsAgree(FollowCommit(s, tid, cid, now))
  {
    var key := FollowKey(cid, tid);
    var users := FollowCounterWrites(s.users, tid, cid, now);
    var keys := s.follows.Keys + {key};
    assert FollowCommit(s, tid, cid, now).follows.Keys == keys;
    forall u | u in users
      ensures users[u].followingsCount == |Into(keys, u)| && users[u].followersCount == |OutOf(keys, u)|
    {
      IntoInsert(s.follows.Keys, key, u);
      OutOfInsert(s.follows.Keys, key, u);
    }
  }

  lemma FollowKeepsCounters(s: BoardState, username: string, currentUser: UserEntity, now: Time)
    requires WellFormed(s) && ActingUser(s, currentUser) && FollowCountsAgree(s)
    ensures FollowCountsAgree(FollowStep(s, username, currentUser, now).state)
  {
    if FollowStep(s, username, currentUser, now).result.Ok? {
      FollowSucceeds(s, username, currentUser, now);
      FollowCommitKeepsCounters(s, FindByUsername(s, username).value, currentUser.id.value, now);
    }
  }

  /** Following someone twice: the second call is refused with FollowAlreadyExists. */
  lemma FollowTwiceFails(s: BoardState, username: string, currentUser: UserEntity, now: Time, later: Time)
    requires WellFormed(s) && ActingUser(s, currentUser)
    requires FollowStep(s, username, currentUser, now).result.Ok?
    ensures var t := FollowStep(s, username, currentUser, now).state;
      var actor := t.users[currentUser.id.value];
      ActingUser(t, actor) && FollowStep(t, username, actor, later).result == Err(FollowAlreadyExists)
  {
    FollowSucceeds(s, username, currentUser, now);
    var tid, cid := FindByUsername(s, username).value, currentUser.id.value;
    FollowCommitEffect(s, tid, cid, now);
    var t := FollowStep(s, username, currentUser, now).state;
    FindByUsernameStable(s, t, username);
    FollowOutcome(t, username, t.users[cid], later);
  }

  /**
   * unFollow's counter writes: both counters clamped at zero, `max(0, c - 1)`. A row whose counter
   * was already 0 does not change, and the dirty check then leaves its updatedDateTime alone.
   */
  function UnFollowCounterWrites(users: map<UserId, UserEntity>, tid: UserId, cid: UserId, now: Time): (r: map<UserId, UserEntity>)
    requires tid in users && cid in users && tid != cid
    ensures r.Keys == users.Keys
    ensures forall k :: k in users ==> SameUserIdentity(users[k], r[k])
  {
    var target, actor := users[tid], users[cid];
    users[tid := FlushUser(target, target.(followingsCount := FloorDecrement(target.followingsCount)), now)]
         [cid := FlushUser(actor, actor.(followersCount := FloorDecrement(actor.followersCount)), now)]
  }

  /** The success path of unFollow: delete the row (actor, target), then save both users. */
  function UnFollowCommit(s: BoardState, tid: UserId, cid: UserId, now: Time): BoardState
    requires tid in s.users && cid in s.users && tid != cid
  {
    s.(follows := s.follows - {FollowKey(cid, tid)}, users := UnFollowCounterWrites(s.users, tid, cid, now))
  }

  lemma UnFollowCommitKeepsStore(s: BoardState, tid: UserId, cid: UserId, now: Time)
    requires WellFormed(s) && tid in s.users && cid in s.users && tid != cid
    ensures WellFormed(UnFollowCommit(s, tid, cid, now)) && RowsStable(s, UnFollowCommit(s, tid, cid, now))
  {
    var s1 := s.(follows := s.follows - {FollowKey(cid, tid)});
    RemoveFollow(s, FollowKey(cid, tid));
    ReplaceUsers(s1, UnFollowCounterWrites(s.users, tid, cid, now));
    TablesStableTransitive(s, s1, UnFollowCommit(s, tid, cid, now));
  }

  function UnFollowStep(s: BoardState, username: string, currentUser: UserEntity, now: Time): (r: Step<User>)
    requires WellFormed(s) && ActingUser(s, currentUser)
    ensures WellFormed(r.state) && RowsStable(s, r.state)
    ensures r.result.Err? ==> r.state == s
  {
    match FindByUsername(s, username)
    case None => Step(s, Err(UserNotFound(Some(username))))
    case Some(tid) =>
      var following := s.users[tid];
      if following == currentUser then
        Step(s, Err(InvalidFollow))
      else if FollowKey(currentUser.id.value, tid) !in s.follows then
        Step(s, Err(FollowNotFound))
      else
        UnFollowCommitKeepsStore(s, tid, currentUser.id.value, now);
        Step(UnFollowCommit(s, tid, currentUser.id.value, now),
             Ok(FromWithFollowing(following.(followingsCount := FloorDecrement(following.followingsCount)), false)))
  }

  /** The guards of unFollow, in source order; no failed call changes anything. */
  lemma UnFollowOutcome(s: BoardState, username: string, currentUser: UserEntity, now: Time)
    requires WellFormed(s) && ActingUser(s, currentUser)
    ensures var r := UnFollowStep(s, username, currentUser, now);
      var found := FindByUsername(s, username);
      var cid := currentUser.id.value;
      && (found.None? ==> r.result == Err(UserNotFound(Some(username))))
      && (found.Some? && found.value == cid ==> r.result == Err(InvalidFollow))
      && (found.Some? && found.value != cid && FollowKey(cid, found.value) !in s.follows ==> r.result == Err(FollowNotFound))
      && (found.Some? && found.value != cid && FollowKey(cid, found.value) in s.follows ==> r.result.Ok?)
      && (r.result.Err? ==> r.state == s)
  {
    var found := FindByUsername(s, username);
    if found.Some? {
      RowEqualsPrincipalIffSameKey(s, currentUser, found.value);
    }
  }

  /** A successful unFollow is the commit on the resolved target and the acting user. */
  lemma UnFollowSucceeds(s: BoardState, username: string, currentUser: UserEntity, now: Time)
    requires WellFormed(s) && ActingUser(s, currentUser)
    requires UnFollowStep(s, username, currentUser, now).result.Ok?
    ensures var tid := FindByUsername(s, username).value;
      var cid := currentUser.id.value;
      var target := s.users[tid];
      && tid in s.users && tid != cid && FollowKey(cid, tid) in s.follows
      && UnFollowStep(s, username, currentUser, now)
         == Step(UnFollowCommit(s, tid, cid, now),
                 Ok(FromWithFollowing(target.(followingsCount := FloorDecrement(target.followingsCount)), false)))
  {
    RowEqualsPrincipalIffSameKey(s, currentUser, FindByUsername(s, username).value);
  }

  /** The commit removes exactly the edge (actor, target) and lowers both counters, never below zero. */
  lemma UnFollowCommitEffect(s: BoardState, tid: UserId, cid: UserId, now: Time)
    requires tid in s.users && cid in s.users && tid != cid
    ensures var t := UnFollowCommit(s, tid, cid, now);
      var target := s.users[tid];
      var actor := s.users[cid];
      && t.follows == s.follows - {FollowKey(cid, tid)}
      && t.posts == s.posts && t.likes == s.likes && t.replies == s.replies
      && t.nextUserId == s.nextUserId && t.nextPostId == s.nextPostId && t.nextReplyId == s.nextReplyId
      && t.users.Keys == s.users.Keys
      && (forall u :: u in s.users && u != tid && u != cid ==> t.users[u] == s.users[u])
      && t.users[tid].(updatedDateTime := target.updatedDateTime) == target.(followingsCount := FloorDecrement(target.followingsCount))
      && t.users[cid].(updatedDateTime := actor.updatedDateTime) == actor.(followersCount := FloorDecrement(actor.followersCount))
      && FollowKey(cid, tid) !in t.follows
  {
  }

  /** Under the counter invariant the clamp never bites: each counter drops by exactly one and the invariant holds again. */
  lemma UnFollowCommitKeepsCounters(s: BoardState, tid: UserId, cid: UserId, now: Time)
    requires tid in s.users && cid in s.users && tid != cid && FollowKey(cid, tid) in s.follows
    requires FollowCountsAgree(s)
    ensures FollowCountsAgree(UnFollowCommit(s, tid, cid, now))
  {
    var key := FollowKey(cid, tid);
    var users := UnFollowCounterWrites(s.users, tid, cid, now);
    var keys := s.follows.Keys - {key};
    assert UnFollowCommit(s, tid, cid, now).follows.Keys == keys;
    assert key in Into(s.follows.Keys, tid) && key in OutOf(s.follows.Keys, cid);
    forall u | u in users
      ensures users[u].followingsCount == |Into(keys, u)| && users[u].followersCount == |OutOf(keys, u)|
    {
      IntoRemove(s.follows.Keys, key, u);
      OutOfRemove(s.follows.Keys, key, u);
    }
  }

  lemma UnFollowKeepsCounters(s: BoardState, username: string, currentUser: UserEntity, now: Time)
    requires WellFormed(s) && ActingUser(s, currentUser) && FollowCountsAgree(s)
    ensures FollowCountsAgree(UnFollowStep(s, username, currentUser, now).state)
  {
    if UnFollowStep(s, username, currentUser, now).result.Ok? {
      UnFollowSucceeds(s, username, currentUser, now);
      UnFollowCommitKeepsCounters(s, FindByUsername(s, username).value, currentUser.id.value, now);
    }
  }

  /** The two commits cancel: the edge set comes back, and every user row up to its update timestamp. */
  lemma CommitsCancel(s: BoardState, tid: UserId, cid: UserId, now: Time, later: Time)
    requires tid in s.users && cid in s.users && tid != cid && FollowKey(cid, tid) !in s.follows
    ensures var s2 := UnFollowCommit(FollowCommit(s, tid, cid, now), tid, cid, later);
      && s2.follows == s.follows && s2.users.Keys == s.users.Keys
      && (forall u :: u in s.users ==> s2.users[u].(updatedDateTime := s.users[u].updatedDateTime) == s.users[u])
  {
    var s1 := FollowCommit(s, tid, cid, now);
    FollowCommitEffect(s, tid, cid, now);
    UnFollowCommitEffect(s1, tid, cid, later);
    assert s1.follows - {FollowKey(cid, tid)} == s.follows;
  }

  /** follow then unFollow of the same pair succeeds and restores the edge set and every user row up to its update timestamp. */
  lemma FollowThenUnFollowRestores(s: BoardState, username: string, currentUser: UserEntity, now: Time, later: Time)
    requires WellFormed(s) && ActingUser(s, currentUser)
    requires FollowStep(s, username, currentUser, now).result.Ok?
    ensures var s1 := FollowStep(s, username, currentUser, now).state;
      var actor := s1.users[currentUser.id.value];
      && ActingUser(s1, actor)
      && var r := UnFollowStep(s1, username, actor, later);
      && r.result.Ok?
      && r.state.follows == s.follows
      && r.state.users.Keys == s.users.Keys
      && (forall u :: u in s.users ==> r.state.users[u].(updatedDateTime := s.users[u].updatedDateTime) == s.users[u])
  {
    FollowSucceeds(s, username, currentUser, now);
    var tid, cid := FindByUsername(s, username).value, currentUser.id.value;
    FollowCommitEffect(s, tid, cid, now);
    var s1 := FollowStep(s, username, currentUser, now).state;
    var actor := s1.users[cid];
    FindByUsernameStable(s, s1, username);
    UnFollowOutcome(s1, username, actor, later);
    UnFollowSucceeds(s1, username, actor, later);
    CommitsCancel(s, tid, cid, now, later);
  }

  // ================================================================ the listings

  /** `String.isBlank` over the ASCII range: every character is Java whitespace. */
  predicate IsBlank(q: string)
  {
    forall i :: 0 <= i < |q| ==> (q[i] as int == 32 || 9 <= q[i] as int <= 13 || 28 <= q[i] as int <= 31)
  }

  /** The derived query `findByUsernameContaining`: q occurs in name as a contiguous run. */
  predicate Contains(name: string, q: string)
  {
    exists i :: 0 <= i <= |name| - |q| && OccursAt(name, q, i)
  }

  predicate OccursAt(name: string, q: string, i: int)
  {
    0 <= i <= |name| - |q| && name[i..i + |q|] == q
  }

  /** Which visible users getUsers lists: all of them for a missing or blank query, else those whose name contains it. */
  predicate UserMatches(s: BoardState, query: Option<string>, k: UserId)
    requires k in s.users
  {
    UserEntities.Visible(s.users[k]) && (query.Some? && !IsBlank(query.value) ==> Contains(s.users[k].username, query.value))
  }

  /** `getUsers(query, currentUser)`, keyed by user id. */
  function GetUsers(s: BoardState, query: Option<string>, currentUser: UserEntity): (r: map<UserId, User>)
    ensures forall k :: k in r ==> k in s.users && UserEntities.Visible(s.users[k])
    ensures forall k :: k in r ==> r[k].username == s.users[k].username && r[k].isFollowing == Some(IsFollowing(s, currentUser, k))
  {
    map k | k in s.users && UserMatches(s, query, k) :: UserWithFollowingStatus(s, currentUser, k)
  }

  /**
   * Without a (non-blank) query every visible user is listed; with one, exactly the visible
   * users whose name contains it; a user's full name always finds that user.
   */
  lemma GetUsersCoverage(s: BoardState, query: Option<string>, currentUser: UserEntity, k: UserId)
    requires k in s.users && UserEntities.Visible(s.users[k])
    ensures (query.None? || IsBlank(query.value)) ==> k in GetUsers(s, query, currentUser)
    ensures query.Some? && !IsBlank(query.value) ==>
      (k in GetUsers(s, query, currentUser) <==> Contains(s.users[k].username, query.value))
    ensures k in GetUsers(s, Some(s.users[k].username), currentUser)
    ensures k in GetUsers(s, query, currentUser) ==> GetUsers(s, query, currentUser)[k].isFollowing == Some(IsFollowing(s, currentUser, k))
  {
    var name := s.users[k].username;
    assert OccursAt(name, name, 0);
  }

  /** No soft-deleted user is ever listed, whatever the query. */
  lemma GetUsersHidesDeleted(s: BoardState, query: Option<string>, currentUser: UserEntity, k: UserId)
    requires k in s.users && !UserEntities.Visible(s.users[k])
    ensures k !in GetUsers(s, query, currentUser)
  {
  }

  /** `getUser(username, currentUser)`. */
  function GetUser(s: BoardState, username: string, currentUser: UserEntity): (r: Result<User, Error>)
    requires UniqueVisibleUsernames(s.users)
    ensures r.Err? <==> FindByUsername(s, username).None?
    ensures r.Err? ==> r.error == UserNotFound(Some(username))
    ensures r.Ok? ==> r.value.username == username
  {
    match FindByUsername(s, username)
    case None => Err(UserNotFound(Some(username)))
    case Some(k) => Ok(UserWithFollowingStatus(s, currentUser, k))
  }

  /** getUser returns the same record the unfiltered listing holds for that user. */
  lemma GetUserAgreesWithListing(s: BoardState, username: string, currentUser: UserEntity)
    requires UniqueVisibleUsernames(s.users) && FindByUsername(s, username).Some?
    ensures var k := FindByUsername(s, username).value;
      k in GetUsers(s, None, currentUser) && GetUser(s, username, currentUser) == Ok(GetUsers(s, None, currentUser)[k])
  {
  }

  /** `getFollowersByUsername`: one entry per follow row into the user, keyed by that row. */
  function GetFollowersByUsername(s: BoardState, username: string, currentUser: UserEntity): (r: Result<map<FollowKey, Follower>, Error>)
    requires WellFormed(s)
    ensures r.Err? <==> FindByUsername(s, username).None?
    ensures r.Err? ==> r.error == UserNotFound(Some(username))
  {
    match FindByUsername(s, username)
    case None => Err(UserNotFound(Some(username)))
    case Some(k) =>
      Ok(map f | f in Into(s.follows.Keys, k) :: Follower(UserWithFollowingStatus(s, currentUser, f.follower), s.follows[f].createdDateTime))
  }

  /**
   * The followers listing holds one entry per incoming follow row, each naming that row's follower
   * and its creation time; its size is the user's followingsCount (the counter follow bumps on the target).
   */
  lemma FollowersListing(s: BoardState, username: string, currentUser: UserEntity)
    requires WellFormed(s) && FindByUsername(s, username).Some?
    ensures var k := FindByUsername(s, username).value;
      var listing := GetFollowersByUsername(s, username, currentUser).value;
      && listing.Keys == Into(s.follows.Keys, k)
      && (forall f :: f in listing ==>
            && f.following == k && listing[f].user.userId == Some(f.follower)
            && listing[f].followedDateTime == s.follows[f].createdDateTime)
      && (FollowCountsAgree(s) ==> |listing.Keys| == s.users[k].followingsCount)
  {
  }

  /** `getFollowingsByUsername`: one entry per follow row out of the user, keyed by that row. */
  function GetFollowingsByUsername(s: BoardState, username: string, currentUser: UserEntity): (r: Result<map<FollowKey, User>, Error>)
    requires WellFormed(s)
    ensures r.Err? <==> FindByUsername(s, username).None?
    ensures r.Err? ==> r.error == UserNotFound(Some(username))
  {
    match FindByUsername(s, username)
    case None => Err(UserNotFound(Some(username)))
    case Some(k) => Ok(map f | f in OutOf(s.follows.Keys, k) :: UserWithFollowingStatus(s, currentUser, f.following))
  }

  /** The followings listing holds one entry per outgoing follow row; its size is the user's followersCount. */
  lemma FollowingsListing(s: BoardState, username: string, currentUser: UserEntity)
    requires WellFormed(s) && FindByUsername(s, username).Some?
    ensures var k := FindByUsername(s, username).value;
      var listing := GetFollowingsByUsername(s, username, currentUser).value;
      && listing.Keys == OutOf(s.follows.Keys, k)
      && (forall f :: f in listing ==> f.follower == k && listing[f].userId == Some(f.following))
      && (FollowCountsAgree(s) ==> |listing.Keys| == s.users[k].followersCount)
  {
  }

  /** After a successful follow the actor appears among the target's followers, and the target among the actor's followings. */
  lemma FollowShowsInListings(s: BoardState, username: string, currentUser: UserEntity, now: Time, viewer: UserEntity)
    requires WellFormed(s) && ActingUser(s, currentUser)
    requires FollowStep(s, username, currentUser, now).result.Ok?
    ensures var t := FollowStep(s, username, currentUser, now).state;
      var key := FollowKey(currentUser.id.value, FindByUsername(s, username).value);
      && GetFollowersByUsername(t, username, viewer).Ok?
      && key in GetFollowersByUsername(t, username, viewer).value
      && GetFollowersByUsername(t, username, viewer).value[key].followedDateTime == Some(now)
      && GetFollowingsByUsername(t, t.users[currentUser.id.value].username, viewer).Ok?
      && key in GetFollowingsByUsername(t, t.users[currentUser.id.value].username, viewer).value
  {
    FollowSucceeds(s, username, currentUser, now);
    FollowCommitEffect(s, FindByUsername(s, username).value, currentUser.id.value, now);
    var t := FollowStep(s, username, currentUser, now).state;
    FindByUsernameStable(s, t, username);
    FindVisibleUser(t, currentUser.id.value);
  }

  /** `getLikedUserWithFollowingStatus`: who made like row k, on which post, and when. */
  function LikedUserOf(s: BoardState, k: LikeKey, currentUser: UserEntity): (l: LikedUser)
    requires WellFormed(s) && k in s.likes
    ensures l.user.userId == s.users[k.user].id && l.user.username == s.users[k.user].username
    ensures l.user.isFollowing == Some(IsFollowing(s, currentUser, k.user))
    ensures l.postId == Some(k.post) && l.likedDateTime == s.likes[k].createdDateTime
  {
    LikedUser(UserWithFollowingStatus(s, currentUser, k.user), Some(k.post), s.likes[k].createdDateTime)
  }

  /** `getLikedUsersByPostId`: one entry per like row on a visible post, keyed by that row. */
  function GetLikedUsersByPostId(s: BoardState, postId: PostId, currentUser: UserEntity): (r: Result<map<LikeKey, LikedUser>, Error>)
    requires WellFormed(s)
    ensures r.Err? <==> !PostVisible(s, postId)
    ensures r.Err? ==> r.error == PostNotFound
  {
    if !PostVisible(s, postId) then Err(PostNotFound)
    else Ok(map k | k in LikesOf(s.likes.Keys, postId) :: LikedUserOf(s, k, currentUser))
  }

  /** The liked-users listing of a post mirrors its like rows; its size is the post's likesCount. */
  lemma LikedUsersOfPostListing(s: BoardState, postId: PostId, currentUser: UserEntity)
    requires WellFormed(s) && PostVisible(s, postId)
    ensures var listing := GetLikedUsersByPostId(s, postId, currentUser).value;
      && listing.Keys == LikesOf(s.likes.Keys, postId)
      && (forall k :: k in listing ==>
            listing[k].user.userId == Some(k.user) && listing[k].postId == Some(postId)
            && listing[k].likedDateTime == s.likes[k].createdDateTime)
      && (LikeCountsAgree(s) ==> |listing.Keys| == s.posts[postId].likesCount)
  {
  }

  /** Like rows on the user's visible posts (`postRepository.findByUser` sees only visible posts). */
  predicate LikeOnPostOf(s: BoardState, k: LikeKey, owner: UserId)
  {
    PostVisible(s, k.post) && s.posts[k.post].user == owner
  }

  /** `getLikedUsersByUser`: the likes on every visible post the user owns, keyed by like row. */
  function GetLikedUsersByUser(s: BoardState, username: string, currentUser: UserEntity): (r: Result<map<LikeKey, LikedUser>, Error>)
    requires WellFormed(s)
    ensures r.Err? <==> FindByUsername(s, username).None?
    ensures r.Err? ==> r.error == UserNotFound(Some(username))
  {
    match FindByUsername(s, username)
    case None => Err(UserNotFound(Some(username)))
    case Some(u) => Ok(map k | k in s.likes && LikeOnPostOf(s, k, u) :: LikedUserOf(s, k, currentUser))
  }

  /** The per-user listing is exactly the union of the per-post listings of the user's visible posts. */
  lemma LikedUsersByUserIsUnionOfPosts(s: BoardState, username: string, currentUser: UserEntity)
    requires WellFormed(s) && FindByUsername(s, username).Some?
    ensures var u := FindByUsername(s, username).value;
      var all := GetLikedUsersByUser(s, username, currentUser).value;
      && (forall p :: p in s.posts && PostVisible(s, p) && s.posts[p].user == u ==>
            var one := GetLikedUsersByPostId(s, p, currentUser).value;
            forall k :: k in one ==> k in all && all[k] == one[k])
      && (forall k :: k in all ==>
            var p := k.post;
            && PostVisible(s, p) && s.posts[p].user == u
            && k in GetLikedUsersByPostId(s, p, currentUser).value
            && GetLikedUsersByPostId(s, p, currentUser).value[k] == all[k])
  {
  }

  // ================================================================ the service methods on the Board

  method SignUp(board: Board, username: string, password: string, encode: string -> string, roll: nat, now: Time)
    returns (r: Result<User, Error>)
    requires board.Valid() && roll < 100
    modifies board
    ensures board.Valid()
    ensures Step(board.State(), r) == SignUpStep(old(board.State()), username, password, encode, roll, now)
  {
    if FindByUsername(board.State(), username).Some? {
      return Err(UserAlreadyExists);
    }
    var userEntity := UserEntities.Of(username, encode(password), roll);
    // save: the generated id is assigned, then @PrePersist stamps both timestamps.
    userEntity := userEntity.(id := Some(board.nextUserId));
    userEntity := UserEntities.PrePersist(userEntity, now);
    board.users := board.users[board.nextUserId := userEntity];
    board.nextUserId := board.nextUserId + 1;
    r := Ok(From(userEntity));
  }

  method UpdateUser(board: Board, username: string, description: Option<string>, currentUser: UserEntity, now: Time)
    returns (r: Result<User, Error>)
    requires board.Valid()
    modifies board
    ensures board.Valid()
    ensures Step(board.State(), r) == UpdateUserStep(old(board.State()), username, description, currentUser, now)
  {
    var found := FindByUsername(board.State(), username);
    if found.None? {
      return Err(UserNotFound(Some(username)));
    }
    var userEntity := board.users[found.value];
    if userEntity != currentUser {
      return Err(UserNotAllowed);
    }
    var loaded := userEntity;
    if description.Some? {
      userEntity := userEntity.(description := description);
    }
    userEntity := FlushUser(loaded, userEntity, now);
    board.users := board.users[found.value := userEntity];
    r := Ok(From(userEntity));
  }

  method Follow(board: Board, username: string, currentUser: UserEntity, now: Time) returns (r: Result<User, Error>)
    requires board.Valid() && ActingUser(board.State(), currentUser)
    modifies board
    ensures board.Valid()
    ensures Step(board.State(), r) == FollowStep(old(board.State()), username, currentUser, now)
  {
    ghost var s := board.State();
    FollowOutcome(s, username, currentUser, now);
    var found := FindByUsername(board.State(), username);
    if found.None? {
      return Err(UserNotFound(Some(username)));
    }
    var tid := found.value;
    var following := board.users[tid];
    if following == currentUser {
      return Err(InvalidFollow);
    }
    var cid := currentUser.id.value;
    if FollowKey(cid, tid) in board.follows {
      return Err(FollowAlreadyExists);
    }
    board.follows := board.follows[FollowKey(cid, tid) := FollowEntities.PrePersist(FollowEntities.Of(cid, tid), now)];
    var following' := following.(followingsCount := following.followingsCount + 1);
    var current' := currentUser.(followersCount := currentUser.followersCount + 1);
    // saveAll: both rows changed, so @PreUpdate stamps both when the transaction commits.
    board.users := board.users[tid := UserEntities.PreUpdate(following', now)][cid := UserEntities.PreUpdate(current', now)];
    FollowSucceeds(s, username, currentUser, now);
    FollowCounterWritesAre(s.users, tid, cid, now, following, currentUser);
    assert board.State() == FollowCommit(s, tid, cid, now);
    r := Ok(FromWithFollowing(following', true));
  }

  method UnFollow(board: Board, username: string, currentUser: UserEntity, now: Time) returns (r: Result<User, Error>)
    requires board.Valid() && ActingUser(board.State(), currentUser)
    modifies board
    ensures board.Valid()
    ensures Step(board.State(), r) == UnFollowStep(old(board.State()), username, currentUser, now)
  {
    ghost var s := board.State();
    UnFollowOutcome(s, username, currentUser, now);
    var found := FindByUsername(board.State(), username);
    if found.None? {
      return Err(UserNotFound(Some(username)));
    }
    var tid := found.value;
    var following := board.users[tid];
    if following == currentUser {
      return Err(InvalidFollow);
    }
    var cid := currentUser.id.value;
    if FollowKey(cid, tid) !in board.follows {
      return Err(FollowNotFound);
    }
    board.follows := board.follows - {FollowKey(cid, tid)};
    var following' := following.(followingsCount := FloorDecrement(following.followingsCount));
    var current' := currentUser.(followersCount := FloorDecrement(currentUser.followersCount));
    board.users := board.users[tid := FlushUser(following, following', now)][cid := FlushUser(currentUser, current', now)];
    UnFollowSucceeds(s, username, currentUser, now);
    assert board.State() == UnFollowCommit(s, tid, cid, now);
    r := Ok(FromWithFollowing(following', false));
  }
}
