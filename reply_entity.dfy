/**
 * The `reply` table row. `user` and `post` are the join columns (primary keys).
 * Only `body` is publicly settable in the Java class.
 */
module ReplyEntities {
  import opened Wrappers
  import opened Basics

  datatype ReplyEntity = ReplyEntity(
    id: Option<ReplyId>,
    body: string,
    createdDateTime: Option<Time>,
    updatedDateTime: Option<Time>,
    deletedDateTime: Option<Time>,
    user: UserId,
    post: PostId)

  predicate Transient(e: ReplyEntity)
  {
    e.id.None? && e.createdDateTime.None? && e.updatedDateTime.None? && e.deletedDateTime.None?
  }

  /** Rows with a deletedDateTime are invisible (@SQLRestriction("deleted_date_time is null")). */
  predicate Visible(e: ReplyEntity)
  {
    e.deletedDateTime.None?
  }

  /** `ReplyEntity.of(body, user, post)`. */
  function Of(body: string, user: UserId, post: PostId): (e: ReplyEntity)
    ensures e.body == body && e.user == user && e.post == post
    ensures Transient(e) && Visible(e)
  {
    ReplyEntity(None, body, None, None, None, user, post)
  }

  function PrePersist(e: ReplyEntity, now: Time): (r: ReplyEntity)
    ensures r.createdDateTime == r.updatedDateTime == Some(now)
    ensures r.(createdDateTime := e.createdDateTime, updatedDateTime := e.updatedDateTime) == e
  {
    e.(createdDateTime := Some(now), updatedDateTime := Some(now))
  }

  function PreUpdate(e: ReplyEntity, now: Time): (r: ReplyEntity)
    ensures r.updatedDateTime == Some(now) && r.createdDateTime == e.createdDateTime
    ensures r.(updatedDateTime := e.updatedDateTime) == e
  {
    e.(updatedDateTime := Some(now))
  }

  function MarkDeleted(e: ReplyEntity, now: Time): ReplyEntity
  {
    e.(deletedDateTime := Some(now))
  }

  /**
   * The @SQLDelete statement as written: `update reply set deleted_date_time = current_timestamp
   * where post_id = ?`, with the deleted reply's id bound to `?`. It marks every reply whose
   * post_id equals that id, whatever its own id.
   */
  function SqlDeleteAsWritten(table: map<ReplyId, ReplyEntity>, id: ReplyId, now: Time): (t: map<ReplyId, ReplyEntity>)
    ensures t.Keys == table.Keys
    ensures forall r :: r in table ==> t[r] == if table[r].post == id then MarkDeleted(table[r], now) else table[r]
  {
    map r | r in table :: if table[r].post == id then MarkDeleted(table[r], now) else table[r]
  }

  /** The reply being deleted survives the statement as written whenever it is not on a post whose id equals its own id. */
  lemma SqlDeleteAsWrittenKeepsReply(table: map<ReplyId, ReplyEntity>, id: ReplyId, now: Time)
    requires id in table && Visible(table[id]) && table[id].post != id
    ensures Visible(SqlDeleteAsWritten(table, id, now)[id])
  {
  }

  /** A concrete table: deleting reply 1 (on post 2) leaves it visible and hides reply 2 (on post 1). */
  lemma SqlDeleteAsWrittenCounterexample()
    ensures
      var table := map[1 := ReplyEntity(Some(1), "a", Some(0), Some(0), None, 7, 2),
                       2 := ReplyEntity(Some(2), "b", Some(0), Some(0), None, 8, 1)];
      var t := SqlDeleteAsWritten(table, 1, 5);
      Visible(t[1]) && !Visible(t[2])
  {
  }

  /** The statement corrected to `where reply_id = ?`: exactly the deleted reply becomes invisible. */
  function SqlDelete(table: map<ReplyId, ReplyEntity>, id: ReplyId, now: Time): (t: map<ReplyId, ReplyEntity>)
    ensures t.Keys == table.Keys
    ensures id in table ==> !Visible(t[id]) && t[id].(deletedDateTime := table[id].deletedDateTime) == table[id]
    ensures forall r :: r in table && r != id ==> t[r] == table[r]
  {
    if id in table then table[id := MarkDeleted(table[id], now)] else table
  }
}
