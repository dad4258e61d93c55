/**
 * The User response record and its two `from` projections, plus the Follower and
 * LikedUser wrappers the follow and like listings build around it.
 */
module UserRecords {
  import opened Wrappers
  import opened Basics
  import opened UserEntities

  datatype User = User(
    userId: Option<UserId>,
    username: string,
    profile: string,
    description: Option<string>,
    followersCount: nat,
    followingsCount: nat,
    createdDateTime: Option<Time>,
    updatedDateTime: Option<Time>,
    isFollowing: Option<bool>)     // Boolean: null when the caller's relationship is not computed

  /** `User.from(entity)`. */
  function From(e: UserEntity): (u: User)
    ensures u.isFollowing.None?
  {
    User(e.id, e.username, e.profile, e.description, e.followersCount, e.followingsCount,
         e.createdDateTime, e.updatedDateTime, None)
  }

  /** `User.from(entity, isFollowing)`. */
  function FromWithFollowing(e: UserEntity, isFollowing: bool): (u: User)
    ensures u.isFollowing == Some(isFollowing)
  {
    User(e.id, e.username, e.profile, e.description, e.followersCount, e.followingsCount,
         e.createdDateTime, e.updatedDateTime, Some(isFollowing))
  }

  /** `from(entity)` copies every entity field it shows unchanged. */
  lemma FromCopiesFields(e: UserEntity)
    ensures var u := From(e);
      && u.userId == e.id && u.username == e.username && u.profile == e.profile
      && u.description == e.description
      && u.followersCount == e.followersCount && u.followingsCount == e.followingsCount
      && u.createdDateTime == e.createdDateTime && u.updatedDateTime == e.updatedDateTime
  {
  }

  /** The two projections agree on every field but isFollowing. */
  lemma ProjectionsAgree(e: UserEntity, b: bool)
    ensures FromWithFollowing(e, b) == From(e).(isFollowing := Some(b))
    ensures FromWithFollowing(e, b).(isFollowing := None) == From(e)
  {
  }

  /** A projection determines the row's id, so distinct rows project to distinct records. */
  lemma ProjectionKeepsIdentity(e1: UserEntity, e2: UserEntity, b1: bool, b2: bool)
    requires e1.id != e2.id
    ensures FromWithFollowing(e1, b1) != FromWithFollowing(e2, b2)
    ensures From(e1) != From(e2)
  {
  }

  /** `Follower.from(user, createdDateTime)`: a listed follower and when the follow row was created. */
  datatype Follower = Follower(user: User, followedDateTime: Option<Time>)

  /** `LikedUser.from(user, postId, createdDateTime)`: who liked which post, and when. */
  datatype LikedUser = LikedUser(user: User, postId: Option<PostId>, likedDateTime: Option<Time>)
}
