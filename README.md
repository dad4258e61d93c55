# fc_board: users, follows, posts, likes and replies

This is a Dafny model of the service layer of fc_board. fc_board is a Spring Boot bulletin
board. Users sign up and log in with a JWT. They follow one another, write posts, like posts
and reply to them. Every row is soft-deleted, and the services keep denormalised counters
next to the rows they count: a user's follower and following counts, and a post's like and
reply counts.

Module layout:

- The entities are datatypes (`UserEntities`, `PostEntities`, `FollowEntities`, `LikeEntities`,
  `ReplyEntities`). Lombok's all-field `@EqualsAndHashCode` is exactly datatype equality. A
  setter becomes a functional update of the row.
- The JPA repositories are one store, `Store`:
  - `BoardState` is the tables as maps, plus the three identity generators.
  - `WellFormed` is the store's integrity: keys match ids, join columns point at existing
    rows, no one follows themselves, and visible usernames are unique.
  - `Board` is a class whose map fields the service methods reassign in place.
- `UserService`, `PostService` and `ReplyService` model one service each:
  - Every mutating call is a pure `...Step` function from the store before the call to the
    store after it plus the value returned or the exception thrown.
  - A method on `Board` performs the same updates in place and is proved equal to that function.
  - Lemmas about the functions state what the call promises: its error cases and their order,
    its exact effect, the counter invariants it keeps, and how consecutive calls compose.
- `AuthenticationFilter` is the request gate. A pure `Filter` decides the outcome, and
  `DoFilterInternal` updates a `SecurityContext` object and a `FilterChain` object.
- `UserRecords`, `PostRecords` and `ReplyRecords` are the response projections.
- `JwtTokens` is the token's claim set.

Hibernate's dirty check is modelled explicitly: `Store.FlushUser`, `Store.FlushPost` and
`Store.FlushReply` run `@PreUpdate` only when the row actually changed. In the `@Transactional`
calls (follow, unFollow, toggleLike, createReply, deleteReply) the hook runs at commit, after the
response was built. Their responses therefore carry the old `updatedDateTime`. The other
calls save immediately and respond with the saved row.

Two behaviours of the code that the names alone do not suggest:

- `follow` adds one to the *target's* `followingsCount` and to the *actor's*
  `followersCount`, and `unFollow` undoes exactly that. So `followingsCount` counts the
  follow rows pointing *at* a user (its followers) and `followersCount` counts the rows going
  *out* (whom it follows). The model states the invariant that way round (`Store.FollowCounts`)
  and proves every call keeps it.
- `updateReply` and `deleteReply` never check that the reply belongs to the `postId` in the
  path. `deleteReply` lowers the count of the post named in the call. The model keeps this,
  and `ReplyService.DeleteReplyOnOtherPostDrifts` shows the counters drift when the two differ.
- The reply entity's soft-delete statement compares `post_id`, not the reply's id, with the
  deleted reply's id (see "## Findings"). `ReplyService.DeleteReplyAsWrittenStep` is deleteReply
  with that statement, and `ReplyService.DeleteReplyAsWrittenBreaksCounters` shows a successful
  call leaving the reply visible and the counter wrong. `ReplyService.DeleteReplyStep` and the
  lemmas about it use the corrected statement `ReplyEntities.SqlDelete`.

## Model

| member | source | states |
|---|---|---|
| UserEntities.DecimalString | src/main/java/com/fc_board/model/entity/UserEntity.java:57 | Java's decimal rendering of a non-negative int is a non-empty string of digits |
| UserEntities.DecimalRoundTrip | src/main/java/com/fc_board/model/entity/UserEntity.java:57 | reading back the decimal rendering of `n` gives `n`, so the avatar number is recoverable from the URL |
| UserEntities.AvatarUrl | src/main/java/com/fc_board/model/entity/UserEntity.java:57 | the profile for `nextInt(100) = roll` is the avatar prefix followed by the number `roll + 1`, which lies in 1..100 |
| UserEntities.Of | src/main/java/com/fc_board/model/entity/UserEntity.java:53-59 | `of(u, p)` has username `u`, password `p`, an avatar URL with a number in 1..100, no id, no timestamps, no description and both counters 0 |
| UserEntities.PrePersist | src/main/java/com/fc_board/model/entity/UserEntity.java:61-65 | at persist `createdDateTime == updatedDateTime == now`, and no other field changes |
| UserEntities.PreUpdate | src/main/java/com/fc_board/model/entity/UserEntity.java:67-70 | an update stamps `updatedDateTime`, leaves `createdDateTime` and every other field alone |
| UserEntities.SoftDelete | src/main/java/com/fc_board/model/entity/UserEntity.java:19-20 | delete only sets `deletedDateTime`, making the row invisible to lookups |
| UserEntities.AccountAlwaysUsable | src/main/java/com/fc_board/model/entity/UserEntity.java:87-105 | the four account-status predicates are true of every user |
| PostEntities.Of | src/main/java/com/fc_board/model/entity/PostEntity.java:33-59 | `of(body, user)` sets exactly body and owner; both counters start at 0; no id and no timestamps |
| PostEntities.PrePersist | src/main/java/com/fc_board/model/entity/PostEntity.java:61-65 | at persist `createdDateTime == updatedDateTime == now`, nothing else changes |
| PostEntities.PreUpdate | src/main/java/com/fc_board/model/entity/PostEntity.java:67-70 | an update touches only `updatedDateTime` |
| PostEntities.SoftDelete | src/main/java/com/fc_board/model/entity/PostEntity.java:16-17 | delete only sets `deletedDateTime`, and the row becomes invisible |
| FollowEntities.Of | src/main/java/com/fc_board/model/entity/FollowEntity.java:37-42 | `of(a, b)` stores `a` as follower and `b` as following, never swapped, with no creation time yet |
| FollowEntities.PrePersist | src/main/java/com/fc_board/model/entity/FollowEntity.java:44-47 | persist sets `createdDateTime` and keeps the pair |
| LikeEntities.Of | src/main/java/com/fc_board/model/entity/LikeEntity.java:37-42 | `of(u, p)` stores user `u` and post `p`, with no creation time yet |
| LikeEntities.PrePersist | src/main/java/com/fc_board/model/entity/LikeEntity.java:44-47 | persist sets `createdDateTime` and keeps the pair |
| ReplyEntities.Of | src/main/java/com/fc_board/model/entity/ReplyEntity.java:51-57 | `of(body, user, post)` sets exactly those three fields; no id, no timestamps, visible |
| ReplyEntities.PrePersist | src/main/java/com/fc_board/model/entity/ReplyEntity.java:59-63 | at persist `createdDateTime == updatedDateTime == now`, nothing else changes |
| ReplyEntities.PreUpdate | src/main/java/com/fc_board/model/entity/ReplyEntity.java:65-68 | an update touches only `updatedDateTime` |
| ReplyEntities.SqlDeleteAsWritten | src/main/java/com/fc_board/model/entity/ReplyEntity.java:16 | the soft-delete statement as written marks every reply whose `post_id` equals the deleted reply's id, and no other row |
| ReplyEntities.SqlDeleteAsWrittenKeepsReply | src/main/java/com/fc_board/model/entity/ReplyEntity.java:16-17 | under that statement the deleted reply itself stays visible unless its post happens to share its id |
| ReplyEntities.SqlDeleteAsWrittenCounterexample | src/main/java/com/fc_board/model/entity/ReplyEntity.java:16-17 | deleting reply 1 on post 2 leaves reply 1 visible and hides reply 2, which is on post 1 |
| ReplyEntities.SqlDelete | src/main/java/com/fc_board/model/entity/ReplyEntity.java:16-17 | the corrected statement hides exactly the deleted reply, changes only its `deletedDateTime`, and leaves every other row as it was |
| UserRecords.From | src/main/java/com/fc_board/model/user/User.java:18-30 | `from(entity)` leaves `isFollowing` null |
| UserRecords.FromWithFollowing | src/main/java/com/fc_board/model/user/User.java:32-44 | `from(entity, b)` sets `isFollowing` to `b` |
| UserRecords.FromCopiesFields | src/main/java/com/fc_board/model/user/User.java:18-29 | `from(entity)` copies id, username, profile, description, both counters and both timestamps unchanged |
| UserRecords.ProjectionsAgree | src/main/java/com/fc_board/model/user/User.java:18-44 | the two projections agree on every field except `isFollowing` |
| UserRecords.ProjectionKeepsIdentity | src/main/java/com/fc_board/model/user/User.java:18-44 | rows with different ids project to different records |
| PostRecords.From | src/main/java/com/fc_board/model/post/Post.java:15-22 | `Post.from` carries the post's id, body, `createdDateTime` and `updatedDateTime` unchanged |
| PostRecords.FromIgnoresCounters | src/main/java/com/fc_board/model/post/Post.java:9-22 | the projection shows no counters: changing them does not change it |
| ReplyRecords.From | src/main/java/com/fc_board/model/reply/Reply.java:19-28 | `Reply.from` carries the reply's id, body and both timestamps unchanged; the nested user is the author's (its id and name, `isFollowing` null) and the nested post is the reply's post (its id and body) |
| JwtTokens.GenerateToken | src/main/java/com/fc_board/service/JwtService.java:26-33 | a token for `subject` issued at `now` expires at `now + 10800000` ms |
| Store.RowEqualsPrincipalIffSameKey | src/main/java/com/fc_board/service/UserService.java:109 | with all-field equality, comparing a stored row with the acting principal is comparing their keys |
| Store.FindByUsername | src/main/java/com/fc_board/repository/UserRepository.java:9 | `findByUsername` returns the visible user with exactly that name, and is empty only when no visible user has it |
| Store.FindVisibleUser | src/main/java/com/fc_board/repository/UserRepository.java:9 | looking up a visible user's name finds that user |
| Store.FindByUsernameStable | src/main/java/com/fc_board/repository/UserRepository.java:9 | the lookup depends only on names and visibility |
| Store.FlushUser | src/main/java/com/fc_board/model/entity/UserEntity.java:67-70 | saving a loaded user stamps `updatedDateTime` when some field changed, and leaves the row as it was otherwise |
| Store.FlushPost | src/main/java/com/fc_board/model/entity/PostEntity.java:67-70 | the same dirty check for a post row |
| Store.FlushReply | src/main/java/com/fc_board/model/entity/ReplyEntity.java:65-68 | the same dirty check for a reply row |
| UserService.LoadUserByUsername | src/main/java/com/fc_board/service/UserService.java:41-45 | returns the visible row with that name, or fails with UserNotFound(username) exactly when there is none |
| UserService.UserWithFollowingStatus | src/main/java/com/fc_board/service/UserService.java:195-200 | the record is the user's plain projection with `isFollowing` set to whether the caller follows that user |
| UserService.FollowingStatusMatchesTable | src/main/java/com/fc_board/service/UserService.java:195-200 | `isFollowing` is true iff the row (currentUser, user) exists, false iff it does not; the other fields are the user's own |
| UserService.NewUser | src/main/java/com/fc_board/service/UserService.java:52 | the saved user has the next id, the name, the encoded password, an avatar URL, no description, counters 0 and both timestamps `now` |
| UserService.SignUpStep | src/main/java/com/fc_board/service/UserService.java:47-54 | signUp keeps the store well formed, changes no existing row's identity, and changes nothing when it fails |
| UserService.SignUpOutcome | src/main/java/com/fc_board/service/UserService.java:47-54 | signUp fails with UserAlreadyExists iff a visible user has that exact name, changing nothing; otherwise it inserts exactly the new user and returns its projection |
| UserService.SignUpCommitEffect | src/main/java/com/fc_board/service/UserService.java:52 | the insert adds one user under a fresh id and changes no other row or table |
| UserService.SignUpMakesNameFindable | src/main/java/com/fc_board/service/UserService.java:48-52 | after a successful signUp the name looks up the new user |
| UserService.SignUpCommitKeepsCounters | src/main/java/com/fc_board/service/UserService.java:52 | a new user with zero counters and no edges keeps every counter invariant |
| UserService.SignUpKeepsCounters | src/main/java/com/fc_board/service/UserService.java:47-54 | signUp keeps the follow, like and reply counter invariants |
| UserService.Authenticate | src/main/java/com/fc_board/service/UserService.java:56-66 | a token is issued iff a visible user has the name and the password matches its hash; the token's subject is the name and it expires in three hours; both failures are UserNotFound |
| UserService.AuthenticateFailuresLookAlike | src/main/java/com/fc_board/service/UserService.java:56-66 | both failures are a 404 UserNotFound; the one without a name is exactly the wrong-password case |
| UserService.SignUpThenAuthenticate | src/main/java/com/fc_board/service/UserService.java:47-66 | after signUp, logging in with the same password yields that user's token |
| UserService.SignUpTwiceFails | src/main/java/com/fc_board/service/UserService.java:48-50 | a second signUp with the same name fails with UserAlreadyExists and changes nothing |
| UserService.UpdateUserStep | src/main/java/com/fc_board/service/UserService.java:89-102 | updateUser keeps the store well formed and changes nothing when it fails |
| UserService.UpdateUserOutcome | src/main/java/com/fc_board/service/UserService.java:89-102 | UserNotFound, then UserNotAllowed unless the row is the principal; on success only `description` changes, only when the patch is non-null, stamped only if it changed; returns the saved row's projection |
| UserService.UpdateUserUnchangedIsNoOp | src/main/java/com/fc_board/service/UserService.java:97-101 | a null or unchanged description leaves the store exactly as it was |
| UserService.UpdateUserKeepsCounters | src/main/java/com/fc_board/service/UserService.java:89-102 | updateUser keeps the follow counter invariant |
| UserService.CountersUntouched | src/main/java/com/fc_board/service/UserService.java:98 | rewriting a user without changing its counters keeps the follow counter invariant |
| UserService.FollowCounterWrites | src/main/java/com/fc_board/service/UserService.java:121-124 | the two counter writes of follow keep every user's id, name, creation time and deletion marker |
| UserService.FollowCounterWritesAre | src/main/java/com/fc_board/service/UserService.java:121-124 | those writes are +1 on the target's followingsCount and +1 on the actor's followersCount, each stamped |
| UserService.FollowStep | src/main/java/com/fc_board/service/UserService.java:104-127 | follow keeps the store well formed and changes nothing when it fails |
| UserService.FollowOutcome | src/main/java/com/fc_board/service/UserService.java:105-119 | follow fails with UserNotFound, then InvalidFollow on self, then FollowAlreadyExists if the pair exists, and succeeds otherwise; no error path changes anything |
| UserService.FollowSucceeds | src/main/java/com/fc_board/service/UserService.java:119-126 | a successful follow commits exactly the new edge and the two counter writes, and returns the target with `isFollowing = true` |
| UserService.FollowCommitEffect | src/main/java/com/fc_board/service/UserService.java:119-124 | the commit adds exactly the edge (currentUser, target), raises the target's followingsCount and the actor's followersCount by one, and changes no other row or table |
| UserService.FollowCommitKeepsCounters | src/main/java/com/fc_board/service/UserService.java:119-124 | adding a fresh edge with those writes keeps the follow counter invariant |
| UserService.FollowKeepsCounters | src/main/java/com/fc_board/service/UserService.java:104-127 | follow keeps the follow counter invariant |
| UserService.FollowTwiceFails | src/main/java/com/fc_board/service/UserService.java:113-117 | following the same user again fails with FollowAlreadyExists |
| UserService.UnFollowCounterWrites | src/main/java/com/fc_board/service/UserService.java:143-146 | the two counter writes of unFollow keep every user's identity |
| UserService.UnFollowStep | src/main/java/com/fc_board/service/UserService.java:129-149 | unFollow keeps the store well formed and changes nothing when it fails |
| UserService.UnFollowOutcome | src/main/java/com/fc_board/service/UserService.java:130-141 | unFollow fails with UserNotFound, then InvalidFollow on self, then FollowNotFound if the edge is absent, and succeeds otherwise; no error path changes anything |
| UserService.UnFollowSucceeds | src/main/java/com/fc_board/service/UserService.java:141-148 | a successful unFollow commits exactly the edge removal and the two floored decrements, and returns the target with `isFollowing = false` |
| UserService.UnFollowCommitEffect | src/main/java/com/fc_board/service/UserService.java:141-146 | the commit removes exactly that edge, sets both counters to `max(0, c - 1)` and changes no other row or table |
| UserService.UnFollowCommitKeepsCounters | src/main/java/com/fc_board/service/UserService.java:141-146 | removing an existing edge with those writes keeps the follow counter invariant |
| UserService.UnFollowKeepsCounters | src/main/java/com/fc_board/service/UserService.java:129-149 | unFollow keeps the follow counter invariant |
| UserService.CommitsCancel | src/main/java/com/fc_board/service/UserService.java:121-144 | the unFollow commit after the follow commit restores the edge set and every user row except its timestamp |
| UserService.FollowThenUnFollowRestores | src/main/java/com/fc_board/service/UserService.java:104-149 | follow then unFollow on the same pair both succeed and restore the edge set and both counters exactly |
| UserService.GetUsers | src/main/java/com/fc_board/service/UserService.java:68-80 | only visible users are listed, each under its own name with `isFollowing` taken from the follow table |
| UserService.GetUsersCoverage | src/main/java/com/fc_board/service/UserService.java:68-80 | with no or a blank query every visible user is listed; with a non-blank query a visible user is listed exactly when its name contains the query; a user's own name always finds it; each entry's `isFollowing` reflects the follow table |
| UserService.GetUsersHidesDeleted | src/main/java/com/fc_board/service/UserService.java:68-80 | a soft-deleted user is never listed |
| UserService.GetUser | src/main/java/com/fc_board/service/UserService.java:82-87 | UserNotFound(username) exactly when no visible user has the name; otherwise that user's projection |
| UserService.GetUserAgreesWithListing | src/main/java/com/fc_board/service/UserService.java:68-87 | getUser returns the same record the unfiltered listing holds for that user |
| UserService.GetFollowersByUsername | src/main/java/com/fc_board/service/UserService.java:151-161 | fails with UserNotFound exactly when no visible user has the name |
| UserService.FollowersListing | src/main/java/com/fc_board/service/UserService.java:151-161 | the followers of X are exactly the follower side of the edges into X, each with the edge's creation time; under the counter invariant their number is X's followingsCount |
| UserService.GetFollowingsByUsername | src/main/java/com/fc_board/service/UserService.java:163-171 | fails with UserNotFound exactly when no visible user has the name |
| UserService.FollowingsListing | src/main/java/com/fc_board/service/UserService.java:163-171 | the followings of X are exactly the following side of the edges out of X; under the counter invariant their number is X's followersCount |
| UserService.FollowShowsInListings | src/main/java/com/fc_board/service/UserService.java:104-171 | after a follow, the new edge appears in the target's followers, stamped `now`, and in the actor's followings |
| UserService.LikedUserOf | src/main/java/com/fc_board/service/UserService.java:202-207 | the entry names the user who made the like row (id, name, whether the caller follows them), the liked post and the like's `createdDateTime` |
| UserService.GetLikedUsersByPostId | src/main/java/com/fc_board/service/UserService.java:173-181 | fails with PostNotFound exactly when the post is missing or deleted |
| UserService.LikedUsersOfPostListing | src/main/java/com/fc_board/service/UserService.java:173-181 | lists exactly the like rows of the post, each with the liker, the post id and the like's creation time; under the counter invariant their number is likesCount |
| UserService.GetLikedUsersByUser | src/main/java/com/fc_board/service/UserService.java:183-193 | fails with UserNotFound exactly when no visible user has the name |
| UserService.LikedUsersByUserIsUnionOfPosts | src/main/java/com/fc_board/service/UserService.java:183-193 | the listing is exactly the union of the per-post listings over the user's visible posts |
| UserService.SignUp | src/main/java/com/fc_board/service/UserService.java:47-54 | the in-place signUp keeps the store well formed and has the effect and result of `SignUpStep` |
| UserService.UpdateUser | src/main/java/com/fc_board/service/UserService.java:89-102 | the in-place updateUser has the effect and result of `UpdateUserStep` |
| UserService.Follow | src/main/java/com/fc_board/service/UserService.java:104-127 | the in-place follow has the effect and result of `FollowStep` |
| UserService.UnFollow | src/main/java/com/fc_board/service/UserService.java:129-149 | the in-place unFollow has the effect and result of `UnFollowStep` |
| PostService.GetPosts | src/main/java/com/fc_board/service/PostService.java:30-33 | lists exactly the visible posts, each as `Post.from` of its row |
| PostService.GetPostByPostId | src/main/java/com/fc_board/service/PostService.java:35-39 | PostNotFound exactly when the post is missing or deleted; otherwise its id and body |
| PostService.GetPostByPostIdAgreesWithListing | src/main/java/com/fc_board/service/PostService.java:30-39 | a post is found by id iff it is listed, and with the same record |
| PostService.GetPostByUsername | src/main/java/com/fc_board/service/PostService.java:72-78 | UserNotFound(username) exactly when no visible user has the name; otherwise exactly the visible posts owned by that user |
| PostService.PostListingsPartition | src/main/java/com/fc_board/service/PostService.java:72-78 | every post in a user's listing is in the full listing with the same record, and every listed post of a visible owner is in its owner's listing |
| PostService.NewPost | src/main/java/com/fc_board/service/PostService.java:41-45 | the saved post has the next id, the body, the owner, both counters 0 and both timestamps `now` |
| PostService.CreatePostStep | src/main/java/com/fc_board/service/PostService.java:41-46 | createPost always succeeds and keeps the store well formed |
| PostService.CreatePostCommitEffect | src/main/java/com/fc_board/service/PostService.java:42-44 | the insert adds one post under a fresh id and changes no other row or table |
| PostService.CreatePostCommitKeepsCounters | src/main/java/com/fc_board/service/PostService.java:42-44 | a new post with zero counters and no likes or replies keeps every counter invariant |
| PostService.CreatePostKeepsCounters | src/main/java/com/fc_board/service/PostService.java:41-46 | createPost keeps the follow, like and reply counter invariants |
| PostService.CreatePostShowsForAuthor | src/main/java/com/fc_board/service/PostService.java:41-46 | the new post appears in its author's listing, with the record createPost returned, the new id and the body |
| PostService.UpdatePostStep | src/main/java/com/fc_board/service/PostService.java:48-59 | updatePost keeps the store well formed and changes nothing when it fails |
| PostService.UpdatePostOutcome | src/main/java/com/fc_board/service/PostService.java:48-59 | PostNotFound, then UserNotAllowed unless the owner is the principal; on success only `body` changes, stamped only if it changed; returns the saved row's projection |
| PostService.PostCountersUntouched | src/main/java/com/fc_board/service/PostService.java:56-57 | rewriting a post without changing its counters keeps the like and reply counter invariants |
| PostService.UpdatePostKeepsCounters | src/main/java/com/fc_board/service/PostService.java:48-59 | updatePost keeps the like and reply counter invariants |
| PostService.DeletePostStep | src/main/java/com/fc_board/service/PostService.java:61-70 | deletePost keeps the store well formed and changes nothing when it fails |
| PostService.DeletePostOutcome | src/main/java/com/fc_board/service/PostService.java:61-70 | PostNotFound, then UserNotAllowed unless the owner is the principal; on success the only change is that post's soft delete |
| PostService.SoftDeleteEffect | src/main/java/com/fc_board/service/PostService.java:69 | after the soft delete the post is invisible, the listing loses exactly that post, and likes and replies stay |
| PostService.DeletePostKeepsCounters | src/main/java/com/fc_board/service/PostService.java:61-70 | deletePost keeps the like and reply counter invariants |
| PostService.DeletedPostIsGone | src/main/java/com/fc_board/service/PostService.java:61-70 | after deletePost, toggleLike and updatePost on that post fail with PostNotFound and change nothing |
| PostService.ToggleLikeStep | src/main/java/com/fc_board/service/PostService.java:80-96 | toggleLike keeps the store well formed and changes nothing when it fails |
| PostService.ToggleLikeOutcome | src/main/java/com/fc_board/service/PostService.java:80-96 | PostNotFound exactly on a missing or deleted post, changing nothing; otherwise the toggle commit, returning the post's projection |
| PostService.ToggleLikeCommitEffect | src/main/java/com/fc_board/service/PostService.java:85-95 | membership of (user, post) flips; no other pair, like row or post changes; the count becomes `max(0, c - 1)` on unlike and `c + 1` on like |
| PostService.ToggleLikeCommitKeepsCounters | src/main/java/com/fc_board/service/PostService.java:85-95 | if likesCount equals the number of likes on every post before, it does after |
| PostService.RepliesCountUntouched | src/main/java/com/fc_board/service/PostService.java:89-92 | rewriting a post's like count keeps the reply counter invariant |
| PostService.ToggleLikeKeepsCounters | src/main/java/com/fc_board/service/PostService.java:80-96 | toggleLike keeps the like and reply counter invariants |
| PostService.TogglesCancel | src/main/java/com/fc_board/service/PostService.java:85-95 | two toggle commits restore the like pairs and every post except its timestamp |
| PostService.ToggleLikeCommitKeepsPost | src/main/java/com/fc_board/service/PostService.java:85-95 | a toggle never changes a post's visibility or any user |
| PostService.ToggleLikeSucceeds | src/main/java/com/fc_board/service/PostService.java:80-96 | on a visible post, toggleLike is exactly the toggle commit returning the post's projection |
| PostService.ToggleLikeTwiceRestores | src/main/java/com/fc_board/service/PostService.java:80-96 | two toggleLike calls both succeed and restore the like set and every post's counters |
| PostService.CreatePost | src/main/java/com/fc_board/service/PostService.java:41-46 | the in-place createPost has the effect and result of `CreatePostStep` |
| PostService.UpdatePost | src/main/java/com/fc_board/service/PostService.java:48-59 | the in-place updatePost has the effect and result of `UpdatePostStep` |
| PostService.DeletePost | src/main/java/com/fc_board/service/PostService.java:61-70 | the in-place deletePost has the effect and result of `DeletePostStep` |
| PostService.ToggleLike | src/main/java/com/fc_board/service/PostService.java:80-96 | the in-place toggleLike has the effect and result of `ToggleLikeStep` |
| ReplyService.GetRepliesByPostId | src/main/java/com/fc_board/service/ReplyService.java:30-34 | PostNotFound exactly on a missing or deleted post; otherwise exactly the visible replies on that post, each showing that post |
| ReplyService.GetRepliesByUser | src/main/java/com/fc_board/service/ReplyService.java:79-85 | UserNotFound(username) exactly when no visible user has the name; otherwise exactly the visible replies written by that user |
| ReplyService.RepliesListingSize | src/main/java/com/fc_board/service/ReplyService.java:30-34 | under the reply counter invariant, a post's listing has exactly repliesCount entries |
| ReplyService.ReplyListingsAgree | src/main/java/com/fc_board/service/ReplyService.java:79-85 | a visible reply is in its post's listing and its author's listing with the same record |
| ReplyService.NewReply | src/main/java/com/fc_board/service/ReplyService.java:41 | the saved reply has the next id, the body, the author, the post and both timestamps `now` |
| ReplyService.CreateReplyStep | src/main/java/com/fc_board/service/ReplyService.java:36-47 | createReply keeps the store well formed and changes nothing when it fails |
| ReplyService.CreateReplyOutcome | src/main/java/com/fc_board/service/ReplyService.java:36-47 | PostNotFound exactly on a missing or deleted post, changing nothing; otherwise the commit, returning the new reply's projection |
| ReplyService.CreateReplyCommitEffect | src/main/java/com/fc_board/service/ReplyService.java:41-44 | one new reply under a fresh id; that post's repliesCount rises by one; no other reply, post or table changes |
| ReplyService.CreateReplyCommitKeepsCounters | src/main/java/com/fc_board/service/ReplyService.java:41-44 | a new visible reply on the post counted keeps the reply and like counter invariants |
| ReplyService.CreateReplyKeepsCounters | src/main/java/com/fc_board/service/ReplyService.java:36-47 | createReply keeps the reply and like counter invariants |
| ReplyService.UpdateReplyStep | src/main/java/com/fc_board/service/ReplyService.java:49-59 | updateReply keeps the store well formed and changes nothing when it fails |
| ReplyService.UpdateReplyOutcome | src/main/java/com/fc_board/service/ReplyService.java:49-59 | PostNotFound, then ReplyNotFound, then UserNotAllowed unless the author is the principal; on success only the reply's body changes, stamped only if it changed |
| ReplyService.UpdateReplyIgnoresPostId | src/main/java/com/fc_board/service/ReplyService.java:50-51 | for any two visible posts in the path, updateReply behaves the same: the reply's own post is never checked |
| ReplyService.ReplyCountsUntouched | src/main/java/com/fc_board/service/ReplyService.java:57-58 | rewriting a reply in place without moving or hiding it keeps the reply counter invariant |
| ReplyService.UpdateReplyKeepsCounters | src/main/java/com/fc_board/service/ReplyService.java:49-59 | updateReply keeps the reply counter invariant |
| ReplyService.DeleteReplyStep | src/main/java/com/fc_board/service/ReplyService.java:61-77 | deleteReply keeps the store well formed and changes nothing when it fails |
| ReplyService.DeleteReplyOutcome | src/main/java/com/fc_board/service/ReplyService.java:61-77 | PostNotFound, then ReplyNotFound, then UserNotAllowed; otherwise exactly the delete commit |
| ReplyService.DeleteReplyCommitEffect | src/main/java/com/fc_board/service/ReplyService.java:73-76 | the reply becomes invisible and no other reply changes; the *given* post's repliesCount becomes `max(0, c - 1)`; no other post or table changes |
| ReplyService.DeleteReplyCommitKeepsCounters | src/main/java/com/fc_board/service/ReplyService.java:73-76 | when the reply is on the post named in the call, the counter invariants are kept |
| ReplyService.DeleteReplyOnOtherPostDrifts | src/main/java/com/fc_board/service/ReplyService.java:61-77 | when the reply is on another post, its own post keeps counting it, and the reply counter invariant breaks |
| ReplyService.DeleteReplyKeepsCounters | src/main/java/com/fc_board/service/ReplyService.java:61-77 | deleteReply keeps the counter invariants whenever the reply is on the post in the path |
| ReplyService.CreateThenDeleteCommitsRestore | src/main/java/com/fc_board/service/ReplyService.java:43-75 | deleting the reply just added restores the post's repliesCount and every post's visible replies |
| ReplyService.CreateThenDeleteRestores | src/main/java/com/fc_board/service/ReplyService.java:36-77 | createReply then deleteReply of that reply on the same post both succeed and restore repliesCount and the visible replies |
| ReplyService.CreateReply | src/main/java/com/fc_board/service/ReplyService.java:36-47 | the in-place createReply has the effect and result of `CreateReplyStep` |
| ReplyService.UpdateReply | src/main/java/com/fc_board/service/ReplyService.java:49-59 | the in-place updateReply has the effect and result of `UpdateReplyStep` |
| ReplyService.DeleteReplyAsWrittenStep | src/main/java/com/fc_board/service/ReplyService.java:61-77 | deleteReply running the soft-delete statement as written: the same guards and result as `DeleteReplyStep`, and no change on failure |
| ReplyService.DeleteReplyAsWrittenCommitDrifts | src/main/java/com/fc_board/service/ReplyService.java:73-76 | on the commit as written, a reply on the post in the call (whose id differs from the reply's) stays visible, that post's visible replies are unchanged, and its repliesCount drops one below them |
| ReplyService.DeleteReplyAsWrittenBreaksCounters | src/main/java/com/fc_board/service/ReplyService.java:73-76 | as written, the owner deleting a reply on its own post (whose id differs from the reply's) succeeds, the reply stays visible, and the post's repliesCount ends one below the replies it shows |
| ReplyService.DeleteReply | src/main/java/com/fc_board/service/ReplyService.java:61-77 | the in-place deleteReply has the effect and result of `DeleteReplyStep` |
| AuthenticationFilter.AccessToken | src/main/java/com/fc_board/config/JwtAuthenticationFilter.java:40 | the token is what follows the seven-character prefix: prefix + token is the header |
| AuthenticationFilter.Bind | src/main/java/com/fc_board/config/JwtAuthenticationFilter.java:44-46 | the new authentication holds the loaded user, no credentials, no authorities, is authenticated and carries the request's details |
| AuthenticationFilter.Filter | src/main/java/com/fc_board/config/JwtAuthenticationFilter.java:29-51 | JwtTokenNotFound iff the header is empty or lacks the prefix; the chain runs iff the pass succeeds; an existing authentication is kept; a failure leaves the context as it was; the context changes only from unset to a bound token |
| AuthenticationFilter.AccessTokenOfBearer | src/main/java/com/fc_board/config/JwtAuthenticationFilter.java:40 | for the header `"Bearer " + t` the token is exactly `t` |
| AuthenticationFilter.RejectsWithoutBearer | src/main/java/com/fc_board/config/JwtAuthenticationFilter.java:35-37 | a header without the prefix is refused, the context is unchanged and the chain does not run |
| AuthenticationFilter.KeepsExistingAuthentication | src/main/java/com/fc_board/config/JwtAuthenticationFilter.java:39-50 | with an authentication already bound, it is kept without resolving the token, and the chain runs once |
| AuthenticationFilter.BindsTokenSubject | src/main/java/com/fc_board/config/JwtAuthenticationFilter.java:39-48 | otherwise the context is bound iff the token's subject names a visible user, and then to that user's row, which is a valid acting principal; a bad token or unknown user leaves it unset and surfaces the exception |
| AuthenticationFilter.FilterIsIdempotent | src/main/java/com/fc_board/config/JwtAuthenticationFilter.java:39-50 | a second pass with what the first one bound changes nothing |
| AuthenticationFilter.DoFilterInternal | src/main/java/com/fc_board/config/JwtAuthenticationFilter.java:29-51 | the in-place filter leaves the context as `Filter` says and forwards the request to the chain exactly once when it passes, never when it is refused |

## Left out

- Controllers, exception handler and request DTOs: HTTP routing and shaping only. A service
  exception is the `Errors.Error` value it would raise; `Errors.Status` gives the HTTP status
  of the exception classes in this model.
- I/O, time and randomness: the clock is the `now` parameter. The avatar draw
  `new Random().nextInt(100)` is the `roll` parameter, constrained to 0..99.
- BCrypt: `encode` and `matches` are function parameters. SignUpThenAuthenticate requires
  `matches(p, encode(p))`, as BCrypt guarantees.
- JwtService signing and parsing: decoding a token is the `getUsername` parameter of the
  filter, None where jjwt throws. Only the claim set and its three-hour lifetime are kept.
- Transactions and concurrency: each service call is one atomic step. Races between the existence
  checks and the inserts, and unique-constraint violations, are not modelled.
- Java `Long` overflow: counters and ids are unbounded naturals.
- List order: every listing is a map keyed by the row each entry was built from. Duplicates
  and ordering of the Java lists are not modelled.
- Object identity and Hibernate proxies: a row is a value. Two distinct Java objects with equal
  fields are indistinguishable here, as they are to Lombok's `equals`.
- Entity setters: these become functional updates of a row value, not field writes on an
  object. Only the service methods and the security context are modelled as in-place updates.
- UserEntity fields: the services call `setFollowersCount`, `setFollowingsCount` and
  `setDescription`, but UserEntity.java declares no such counter fields and no public
  description setter. The model gives users both counters, defaulting to 0, and a settable
  description, defaulting to null.
- UserService.GetUsers: `findByUsernameContaining` is not declared in UserRepository.java. It is
  modelled as a case-sensitive substring match over visible users.
- UserService.IsBlank: `String.isBlank` is approximated by ASCII whitespace. Other Unicode
  whitespace is not recognised.
- Follower and LikedUser records: their classes are not part of this model. Their fields are
  taken from the `from` calls in UserService.java.
- PostService.UpdatePost: the patch body is a plain string. A null body from a request is not modelled.
- ReplyService.DeleteReplyKeepsCounters: this requires the reply to be on the post in the
  path. `DeleteReplyOnOtherPostDrifts` covers the other case, where the invariant does not hold.
  It is also stated of the corrected soft-delete statement; as written the invariant breaks
  (`DeleteReplyAsWrittenBreaksCounters`).
- DeleteReplyStep: commits the corrected statement `ReplyEntities.SqlDelete`, not the
  `where post_id = ?` statement of ReplyEntity.java:16; `DeleteReplyAsWrittenStep` is the call as written.
- DeleteReplyOutcome: "exactly the delete commit" is the commit with the corrected statement.
  As written the guards and result are the same (`DeleteReplyAsWrittenStep`) but the commit differs.
- DeleteReplyCommitEffect: "the reply becomes invisible and no other reply changes" holds of the
  corrected statement only. As written the reply stays visible unless its post's id equals
  its own (`ReplyEntities.SqlDeleteAsWrittenKeepsReply`).
- DeleteReplyCommitKeepsCounters: holds of the corrected statement only. As written the
  invariant breaks even on the reply's own post (`DeleteReplyAsWrittenBreaksCounters`).
- DeleteReplyOnOtherPostDrifts: the conjunct about the reply's own post counting one reply
  too many assumes the corrected statement hid the reply.
- CreateThenDeleteCommitsRestore: the restoring round trip is proved for the corrected
  statement only. As written the new reply stays visible after the delete.
- CreateThenDeleteRestores: the same round trip through the two calls, again for the corrected
  statement only.
- DeleteReply: the in-place method runs the corrected statement, as `DeleteReplyStep` does.
- UserService.UpdateUserKeepsCounters, PostService.UpdatePostKeepsCounters and
  ReplyService.UpdateReplyKeepsCounters: these state only the invariants the call could
  touch. The call leaves the other tables equal, as its Outcome lemma states.
- Spring's `OncePerRequestFilter` bookkeeping and `SecurityContextHolder` thread-locals:
  there is one context object per request. `setContext` stores back the same object and has no
  further effect.

## Findings

| source | as written | input that shows it | evidently intended | confidence | as-written member | corrected member |
|---|---|---|---|---|---|---|
| src/main/java/com/fc_board/model/entity/ReplyEntity.java:16 | the soft-delete statement is `update reply set deleted_date_time = current_timestamp where post_id = ?`, with the reply's id bound to `?` | replies 1 (on post 2) and 2 (on post 1); delete reply 1: reply 1 stays visible and reply 2 is hidden | `where reply_id = ?`: exactly the deleted reply is hidden | high, not executed | ReplyEntities.SqlDeleteAsWrittenCounterexample | ReplyEntities.SqlDelete |
| src/main/java/com/fc_board/service/ReplyService.java:73-76 | `replyRepository.delete(replyEntity)` runs that statement, then the post's repliesCount is lowered by one | the owner deletes a visible reply on its own post, the post's id differing from the reply's: the call succeeds, the reply stays visible and repliesCount drops below the replies shown | the reply is hidden and repliesCount still equals the post's visible replies | high, not executed | ReplyService.DeleteReplyAsWrittenBreaksCounters | ReplyService.DeleteReplyCommitKeepsCounters |
