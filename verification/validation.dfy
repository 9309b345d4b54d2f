/**
 * The validation middleware: the gate that turns collected validator errors
 * into a 400 reply, and the username and user-id validators.
 */
module Validation {
  import opened Js
  import opened Http

  const UsernameLengthMessage := "Username must be between 3 and 50 characters"
  const UsernameCharsMessage := "Username can only contain letters, numbers, and underscores"
  const UserIdMessage := "User ID must be a positive integer"

  /** `handleValidationErrors`: reply 400 with the list when it is non-empty, otherwise continue. */
  datatype ValidationGate = Proceed | Reject(errors: seq<FieldError>)

  function HandleValidationErrors(errors: seq<FieldError>): (r: ValidationGate)
    ensures r.Proceed? <==> errors == []
    ensures r.Reject? ==> r.errors == errors
  {
    if |errors| > 0 then Reject(errors) else Proceed
  }

  /** The character class `[A-Za-z0-9_]`. */
  predicate IsWordChar(c: char) {
    ('A' <= c <= 'Z') || ('a' <= c <= 'z') || ('0' <= c <= '9') || c == '_'
  }

  /** The regular expression `^[A-Za-z0-9_]+$`, matched character by character. */
  function MatchesWord(t: string): (r: bool)
    ensures r <==> |t| > 0 && forall i :: 0 <= i < |t| ==> IsWordChar(t[i])
  {
    |t| > 0 && MatchesWordChars(t, 0)
  }

  function MatchesWordChars(t: string, from: nat): (r: bool)
    requires from <= |t|
    ensures r <==> forall i :: from <= i < |t| ==> IsWordChar(t[i])
    decreases |t| - from
  {
    from == |t| || (IsWordChar(t[from]) && MatchesWordChars(t, from + 1))
  }

  /** The usernames the validator accepts. */
  predicate ValidUsername(t: string) {
    3 <= |t| <= 50 && forall i :: 0 <= i < |t| ==> IsWordChar(t[i])
  }

  /**
   * `validateUsername`: both checks run and each failure adds its message;
   * the list is empty exactly for valid usernames.
   */
  function UsernameErrors(v: Value): (r: seq<FieldError>)
    ensures r == [] <==> ValidUsername(ToText(v))
    ensures |r| <= 2
    ensures forall i :: 0 <= i < |r| ==> r[i].field == "username"
    ensures !(3 <= |ToText(v)| <= 50) ==> FieldError("username", UsernameLengthMessage) in r
  {
    var t := ToText(v);
    (if 3 <= |t| <= 50 then [] else [FieldError("username", UsernameLengthMessage)])
    + (if MatchesWord(t) then [] else [FieldError("username", UsernameCharsMessage)])
  }

  /** `validateUserId`: `userId` must be an integer no smaller than 1. */
  function UserIdErrors(v: Value): (r: seq<FieldError>)
    ensures r == [] <==> IsIntAtLeast(v, 1)
    ensures v.Num? ==> (r == [] <==> v.n >= 1)
  {
    PositiveNumberIsInt(if v.Num? then v.n else 0);
    if IsIntAtLeast(v, 1) then [] else [FieldError("userId", UserIdMessage)]
  }

  /** A username that is absent fails the length check, so the gate rejects it. */
  lemma MissingUsernameRejected()
    ensures HandleValidationErrors(UsernameErrors(Undefined)).Reject?
  {
  }

  /** The textual form of any positive integer passes the user-id validator. */
  lemma PositiveIdTextAccepted(n: int)
    requires n >= 1
    ensures UserIdErrors(Str(ShowInt(n))) == []
  {
    ParseShowRoundTrip(n);
  }
}
