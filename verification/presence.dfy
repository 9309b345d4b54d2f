/**
 * Presence: one status document per user (ONLINE, OFFLINE or BUSY, with the
 * time of the last update), read with create-on-first-read and written with
 * an upsert.
 */
module Presence {
  import opened Wrappers
  import opened Js
  import opened Http
  import opened Validation

  const StatusMessage := "Status must be ONLINE, OFFLINE, or BUSY"

  datatype Status = Online | Offline | Busy

  /** A `UserStatus` document. */
  datatype UserStatus = UserStatus(userId: int, status: Status, lastActive: int)

  /** The collection, keyed by `userId` (its unique index). */
  type Statuses = map<int, UserStatus>

  ghost predicate Valid(st: Statuses) {
    forall u :: u in st ==> st[u].userId == u
  }

  /** The text of each status as stored and as accepted by `isIn`. */
  function StatusName(s: Status): string {
    match s
    case Online => "ONLINE"
    case Offline => "OFFLINE"
    case Busy => "BUSY"
  }

  /** `isIn(['ONLINE', 'OFFLINE', 'BUSY'])`: the status a body value names, if any. */
  function ParseStatus(v: Value): (r: Option<Status>)
    ensures r.Some? <==> exists s :: ToText(v) == StatusName(s)
    ensures r.Some? ==> ToText(v) == StatusName(r.value)
  {
    var t := ToText(v);
    if t == StatusName(Online) then Some(Online)
    else if t == StatusName(Offline) then Some(Offline)
    else if t == StatusName(Busy) then Some(Busy)
    else
      assert forall s :: StatusName(s) != t;
      None
  }

  /** Parsing a status's own name gives that status back. */
  lemma StatusNameRoundTrip(s: Status)
    ensures ParseStatus(Str(StatusName(s))) == Some(s)
  {
  }

  /** The document `UserStatus.create({ userId })` makes: the schema's defaults. */
  function DefaultStatus(userId: int, now: int): UserStatus {
    UserStatus(userId, Offline, now)
  }

  /**
   * `getStatus`: the `userId` parameter must be an integer of at least 1;
   * the user's document is returned, created with the defaults (OFFLINE,
   * last active now) when there is none. No other document changes.
   */
  function GetStatus(st: Statuses, userId: Value, now: int): (r: (Statuses, Outcome<UserStatus>))
    requires Valid(st)
    ensures Valid(r.0)
    ensures r.1.Invalid? <==> !IsIntAtLeast(userId, 1)
    ensures r.1.Invalid? ==> r.0 == st && r.1.errors == [FieldError("userId", UserIdMessage)]
    ensures r.1.Invalid? || r.1.Success?
    ensures r.1.Success? ==>
      var u := ParamInt(userId).value;
      && ParamInt(userId).Some? && u >= 1
      && u in r.0 && r.1 == Success(Ok, r.0[u])
      && (u in st ==> r.0 == st)
      && (u !in st ==> r.0 == st[u := DefaultStatus(u, now)])
  {
    var gate := HandleValidationErrors(UserIdErrors(userId));
    if gate.Reject? then (st, Invalid(gate.errors))
    else
      var u := ParamInt(userId).value;
      if u in st then (st, Success(Ok, st[u]))
      else
        var doc := DefaultStatus(u, now);
        (st[u := doc], Success(Ok, doc))
  }

  /**
   * `updateStatus`: the body's `status` must name one of the three values;
   * the caller's document is then set to it with last active now, created
   * if missing. Last active moves on every update, whatever the status.
   */
  function UpdateStatus(st: Statuses, userId: int, status: Value, now: int): (r: (Statuses, Outcome<UserStatus>))
    requires Valid(st)
    ensures Valid(r.0)
    ensures r.1.Invalid? <==> ParseStatus(status).None?
    ensures r.1.Invalid? ==> r.0 == st && r.1.errors == [FieldError("status", StatusMessage)]
    ensures r.1.Invalid? || r.1.Success?
    ensures r.1.Success? ==>
      && r.1.value == UserStatus(userId, ParseStatus(status).value, now)
      && StatusName(r.1.value.status) == ToText(status)
      && r.0 == st[userId := r.1.value]
  {
    match ParseStatus(status)
    case None => (st, Invalid([FieldError("status", StatusMessage)]))
    case Some(s) =>
      var doc := UserStatus(userId, s, now);
      (st[userId := doc], Success(Ok, doc))
  }

  /** Reading a status twice: the second read changes nothing and returns the same document. */
  lemma GetStatusIsIdempotent(st: Statuses, userId: Value, now: int, later: int)
    requires Valid(st)
    ensures var (s1, o1) := GetStatus(st, userId, now);
      GetStatus(s1, userId, later) == (s1, o1)
  {
  }

  /** After an update, reading the caller's status returns what was written, at the update's time. */
  lemma UpdateThenGet(st: Statuses, userId: int, status: Status, now: int, later: int)
    requires Valid(st) && userId >= 1
    ensures var s1 := UpdateStatus(st, userId, Str(StatusName(status)), now).0;
      GetStatus(s1, Str(ShowInt(userId)), later).1 == Success(Ok, UserStatus(userId, status, now))
  {
    ParseShowRoundTrip(userId);
  }

  /** An update touches only the caller's document. */
  lemma UpdateLeavesOthers(st: Statuses, userId: int, status: Value, now: int, other: int)
    requires Valid(st) && other != userId && other in st
    ensures var s1 := UpdateStatus(st, userId, status, now).0;
      other in s1 && s1[other] == st[other]
  {
  }
}
