/**
 * The blocks controller: listing the caller's blocks, blocking a user and
 * unblocking by block id. Blocking also removes the contacts between the two
 * users in both directions.
 */
module Blocks {
  import opened Wrappers
  import opened Js
  import opened Http
  import opened Validation
  import opened Db

  const BlockIdMessage := "Block ID must be a positive integer"
  const BlockedIdMessage := "Blocked user ID must be a positive integer"
  /** Stands for the query engine's own message when an argument has the wrong type. */
  const QueryRejected := "Invalid query argument"

  /** The `blocked` user as the handlers include it: id, username, displayName, avatarUrl. */
  datatype UserSummary = UserSummary(id: int, username: string, displayName: string, avatarUrl: Option<string>)

  /** A block row with its `blocked` user included. */
  datatype BlockView = BlockView(id: int, blockerId: int, blockedId: int, blocked: UserSummary)

  function Summary(u: User): UserSummary {
    UserSummary(u.id, u.username, u.displayName, u.avatarUrl)
  }

  /**
   * The block table's guarantees: ids below `nextBlockId`, nobody blocks
   * themselves, the blocked user exists, and at most one block per
   * (blocker, blocked) pair.
   */
  ghost predicate Valid(db: Db) {
    && UsersValid(db.users, db.nextUserId)
    && 1 <= db.nextBlockId
    && (forall id :: id in db.blocks ==> 1 <= id < db.nextBlockId)
    && (forall id :: id in db.blocks ==> db.blocks[id].blockerId != db.blocks[id].blockedId)
    && (forall id :: id in db.blocks ==> db.blocks[id].blockedId in db.users)
    && (forall a, b :: a in db.blocks && b in db.blocks && db.blocks[a] == db.blocks[b] ==> a == b)
  }

  function View(db: Db, id: int): BlockView
    requires Valid(db) && id in db.blocks
  {
    var b := db.blocks[id];
    BlockView(id, b.blockerId, b.blockedId, Summary(db.users[b.blockedId]))
  }

  /** The caller's blocks with ids in [from, db.nextBlockId), in id order. */
  function BlocksFrom(db: Db, userId: int, from: int): (r: seq<BlockView>)
    requires Valid(db)
    ensures forall i :: 0 <= i < |r| ==> from <= r[i].id && r[i].id in db.blocks && r[i] == View(db, r[i].id) && r[i].blockerId == userId
    ensures forall i, j :: 0 <= i < j < |r| ==> r[i].id < r[j].id
    ensures forall id :: from <= id && id in db.blocks && db.blocks[id].blockerId == userId ==> View(db, id) in r
    decreases db.nextBlockId - from
  {
    if from >= db.nextBlockId then []
    else
      var rest := BlocksFrom(db, userId, from + 1);
      if from in db.blocks && db.blocks[from].blockerId == userId then [View(db, from)] + rest else rest
  }

  /** `getBlocks`: exactly the blocks whose blocker is the caller, each once, by id. */
  function GetBlocks(db: Db, userId: int): (r: seq<BlockView>)
    requires Valid(db)
    ensures forall i :: 0 <= i < |r| ==> r[i].id in db.blocks && r[i] == View(db, r[i].id) && r[i].blockerId == userId
    ensures forall i, j :: 0 <= i < j < |r| ==> r[i].id < r[j].id
    ensures forall id :: id in db.blocks && db.blocks[id].blockerId == userId ==> View(db, id) in r
  {
    BlocksFrom(db, userId, 1)
  }

  /** Whether the caller already blocks `blockedId`. */
  predicate AlreadyBlocked(db: Db, userId: int, blockedId: int) {
    exists id :: id in db.blocks && db.blocks[id] == Block(userId, blockedId)
  }

  /** The table after a successful block: one new row, contacts between the two removed. */
  function AddBlock(db: Db, userId: int, blockedId: int): Db {
    var contacts := map id | id in db.contacts && !Between(db.contacts[id], userId, blockedId) :: db.contacts[id];
    db.(blocks := db.blocks[db.nextBlockId := Block(userId, blockedId)],
        nextBlockId := db.nextBlockId + 1,
        contacts := contacts)
  }

  /**
   * `blockUser`. The body value must be an integer of at least 1; blocking
   * oneself is a 400; a body value that is not a number is rejected by the
   * query (500); an unknown user is a 404 and an existing block a 409. On
   * success one block is added and the contacts between the two go.
   */
  function BlockUser(db: Db, userId: int, blockedId: Value): (r: (Db, Outcome<BlockView>))
    requires Valid(db) && userId in db.users
    ensures Valid(r.0)
    ensures !r.1.Success? ==> r.0 == db
    ensures !IsIntAtLeast(blockedId, 1) ==> r.1 == Invalid([FieldError("blockedId", BlockedIdMessage)])
    ensures IsIntAtLeast(blockedId, 1) && blockedId == Num(userId) ==> r.1 == Error(BadRequest, "Cannot block yourself")
    ensures IsIntAtLeast(blockedId, 1) && !blockedId.Num? ==> r.1 == Error(ServerError, QueryRejected)
    ensures blockedId.Num? && blockedId.n >= 1 && blockedId.n != userId ==>
      var b := blockedId.n;
      && (b !in db.users ==> r.1 == Error(NotFound, "User to block not found"))
      && (b in db.users && AlreadyBlocked(db, userId, b) ==> r.1 == Error(Conflict, "User is already blocked"))
      && (b in db.users && !AlreadyBlocked(db, userId, b) ==>
            && r.0 == AddBlock(db, userId, b)
            && r.1 == Success(Created, View(r.0, db.nextBlockId)))
  {
    PositiveNumberIsInt(if blockedId.Num? then blockedId.n else 0);
    var errors := if IsIntAtLeast(blockedId, 1) then [] else [FieldError("blockedId", BlockedIdMessage)];
    match HandleValidationErrors(errors)
    case Reject(es) => (db, Invalid(es))
    case Proceed =>
      if blockedId == Num(userId) then (db, Error(BadRequest, "Cannot block yourself"))
      else if !blockedId.Num? then (db, Error(ServerError, QueryRejected))
      else
        var b := blockedId.n;
        if b !in db.users then (db, Error(NotFound, "User to block not found"))
        else if AlreadyBlocked(db, userId, b) then (db, Error(Conflict, "User is already blocked"))
        else
          var db' := AddBlock(db, userId, b);
          assert Valid(db') by { AddBlockValid(db, userId, b); }
          (db', Success(Created, View(db', db.nextBlockId)))
  }

  lemma AddBlockValid(db: Db, userId: int, b: int)
    requires Valid(db) && userId != b && b in db.users && !AlreadyBlocked(db, userId, b)
    ensures Valid(AddBlock(db, userId, b))
  {
    var d := AddBlock(db, userId, b);
    assert forall x :: x in db.blocks ==> db.blocks[x] != Block(userId, b);
  }

  /**
   * `unblockUser`. The id must be an integer of at least 1; the block must
   * exist and belong to the caller, otherwise 404 and nothing changes; on
   * success exactly that block is removed.
   */
  function UnblockUser(db: Db, userId: int, id: Value): (r: (Db, Outcome<string>))
    requires Valid(db)
    ensures Valid(r.0)
    ensures !r.1.Success? ==> r.0 == db
    ensures !IsIntAtLeast(id, 1) ==> r.1 == Invalid([FieldError("id", BlockIdMessage)])
    ensures IsIntAtLeast(id, 1) ==>
      var k := ParamInt(id).value;
      && (k in db.blocks && db.blocks[k].blockerId == userId ==>
            r.0 == db.(blocks := db.blocks - {k}) && r.1 == Success(Ok, "User unblocked successfully"))
      && (!(k in db.blocks && db.blocks[k].blockerId == userId) ==> r.1 == Error(NotFound, "Block not found"))
  {
    var errors := if IsIntAtLeast(id, 1) then [] else [FieldError("id", BlockIdMessage)];
    match HandleValidationErrors(errors)
    case Reject(es) => (db, Invalid(es))
    case Proceed =>
      var k := ParamInt(id).value;
      if k in db.blocks && db.blocks[k].blockerId == userId then
        (db.(blocks := db.blocks - {k}), Success(Ok, "User unblocked successfully"))
      else (db, Error(NotFound, "Block not found"))
  }

  /**
   * A successful block adds exactly one row and removes exactly the contacts
   * between the two users; every other contact and every other table is untouched.
   */
  lemma BlockFrame(db: Db, userId: int, b: int)
    requires Valid(db) && userId in db.users
    requires BlockUser(db, userId, Num(b)).1.Success?
    ensures var d := BlockUser(db, userId, Num(b)).0;
      && d.blocks.Keys == db.blocks.Keys + {db.nextBlockId}
      && db.nextBlockId !in db.blocks
      && d.blocks[db.nextBlockId] == Block(userId, b)
      && (forall id :: id in db.blocks ==> d.blocks[id] == db.blocks[id])
      && (forall id :: id in d.contacts ==> !Between(d.contacts[id], userId, b))
      && (forall id :: id in db.contacts && !Between(db.contacts[id], userId, b) ==>
            id in d.contacts && d.contacts[id] == db.contacts[id])
      && d.contacts.Keys <= db.contacts.Keys
      && d.users == db.users && d.chats == db.chats && d.members == db.members && d.notifications == db.notifications
  {
    PositiveNumberIsInt(b);
  }

  /** Blocking the same user twice: the second attempt is a 409 and changes nothing. */
  lemma SecondBlockConflicts(db: Db, userId: int, b: int)
    requires Valid(db) && userId in db.users
    requires BlockUser(db, userId, Num(b)).1.Success?
    ensures var d := BlockUser(db, userId, Num(b)).0;
      BlockUser(d, userId, Num(b)) == (d, Error(Conflict, "User is already blocked"))
  {
    PositiveNumberIsInt(b);
    var d := BlockUser(db, userId, Num(b)).0;
    assert d.blocks[db.nextBlockId] == Block(userId, b);
  }

  /** Unblocking the block just created restores the block table. */
  lemma UnblockUndoesBlock(db: Db, userId: int, b: int)
    requires Valid(db) && userId in db.users
    requires BlockUser(db, userId, Num(b)).1.Success?
    ensures var d := BlockUser(db, userId, Num(b)).0;
      var u := UnblockUser(d, userId, Num(db.nextBlockId));
      u.1.Success? && u.0.blocks == db.blocks
  {
    PositiveNumberIsInt(b);
    PositiveNumberIsInt(db.nextBlockId);
    ParseShowRoundTrip(db.nextBlockId);
    var d := BlockUser(db, userId, Num(b)).0;
    assert d.blocks - {db.nextBlockId} == db.blocks;
  }

  /** Nobody but the blocker can remove a block. */
  lemma OnlyBlockerUnblocks(db: Db, userId: int, k: int)
    requires Valid(db) && k >= 1
    requires k in db.blocks && db.blocks[k].blockerId != userId
    ensures UnblockUser(db, userId, Num(k)) == (db, Error(NotFound, "Block not found"))
  {
    PositiveNumberIsInt(k);
    ParseShowRoundTrip(k);
  }
}
