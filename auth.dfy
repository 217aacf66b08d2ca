/**
 * The two guards in front of every protected route of `index.js`: the
 * `Authorization: Bearer <token>` header split done by `authenticate`, and
 * the role check done by `authorize(allowedRoles)`. Verifying the token's
 * signature is not part of this model: the verified claims are an input.
 */
module Auth {
  import opened Common
  import Validators

  datatype AuthError = MissingHeader | InvalidFormat

  /** The 401 message each header failure answers with. */
  function AuthErrorMessage(e: AuthError): string {
    match e
    case MissingHeader => "Missing authorization header"
    case InvalidFormat => "Invalid authorization format. Use: Bearer <token>"
  }

  /**
   * The token handed to the signature check: the header must split on
   * spaces into exactly `Bearer` and one more piece. An empty header counts
   * as missing, since the empty string is falsy.
   */
  function BearerToken(header: Option<string>): (r: Result<string, AuthError>)
    ensures header.None? || header == Some("") ==> r == Err(MissingHeader)
    ensures r.Ok? ==> ' ' !in r.value
  {
    if header.None? || header.value == "" then Err(MissingHeader)
    else
      var parts := Split(header.value, ' ');
      if |parts| != 2 || parts[0] != "Bearer" then Err(InvalidFormat)
      else Ok(parts[1])
  }

  /** A non-empty header yields token `t` exactly when it reads `Bearer ` followed by a space-free `t`. */
  lemma BearerTokenIff(h: string, t: string)
    requires h != ""
    ensures BearerToken(Some(h)) == Ok(t) <==> h == "Bearer " + t && ' ' !in t
  {
    var parts := Split(h, ' ');
    if BearerToken(Some(h)) == Ok(t) {
      JoinSplit(h, ' ');
      assert parts == ["Bearer", t];
      JoinCons("Bearer", [t], ' ');
    }
    if h == "Bearer " + t && ' ' !in t {
      var ps := ["Bearer", t];
      JoinCons("Bearer", [t], ' ');
      assert Join(ps, ' ') == h;
      SplitJoin(ps, ' ');
    }
  }

  /** Any other header with a non-empty value is refused as badly formatted. */
  lemma MalformedHeader(h: string)
    requires h != ""
    requires forall t :: h != "Bearer " + t || ' ' in t
    ensures BearerToken(Some(h)) == Err(InvalidFormat)
  {
    if BearerToken(Some(h)).Ok? {
      BearerTokenIff(h, BearerToken(Some(h)).value);
      assert false;
    }
  }

  // ---------------------------------------------------------------------------
  // authorize (index.js:151-177)

  datatype Access = Allowed | Unauthenticated | Forbidden

  /** The verified claims `authenticate` puts on the request; the token may carry no role. */
  datatype Claims = Claims(role: Option<string>)

  /**
   * `authorize(allowedRoles)`: no verified user is 401; under a non-empty list
   * a user whose role is missing or not listed is 403; an empty list lets
   * every verified user through.
   */
  function Authorize(allowedRoles: seq<string>, user: Option<Claims>): (r: Access)
    ensures r == Unauthenticated <==> user.None?
    ensures r == Allowed <==>
              user.Some? && (allowedRoles == [] || (user.value.role.Some? && user.value.role.value in allowedRoles))
    ensures user.Some? && user.value.role.None? ==> (r == Forbidden <==> allowedRoles != [])
  {
    if user.None? then Unauthenticated
    else if |allowedRoles| > 0 && (user.value.role.None? || user.value.role.value !in allowedRoles) then Forbidden
    else Allowed
  }

  /** The role lists the routes of the ledger core are mounted with. */
  const LedgerWriters: seq<string> := ["admin", "accountant"]
  const LedgerReaders: seq<string> := ["admin", "accountant", "teacher"]
  const AdminOnly: seq<string> := ["admin"]
  const AttendanceWriters: seq<string> := ["admin", "teacher"]
  const AnnouncementEditors: seq<string> := ["admin", "teacher"]

  /** Recording a payment, creating a student or creating a fee is for admins and accountants only. */
  lemma LedgerWritersAdmit(role: string)
    ensures Authorize(LedgerWriters, Some(Claims(Some(role)))) == Allowed <==> role == "admin" || role == "accountant"
  {
  }

  /** Only an admin may delete students. */
  lemma DeletesAdminOnly(role: string)
    ensures Authorize(AdminOnly, Some(Claims(Some(role)))) == Allowed <==> role == "admin"
  {
  }

  /** Whoever may write to the ledger may also read it. */
  lemma WritersCanRead(user: Option<Claims>)
    ensures Authorize(LedgerWriters, user) == Allowed ==> Authorize(LedgerReaders, user) == Allowed
  {
  }

  /** Every role a registration can carry may list fees and the per-student summary. */
  lemma RegisteredRolesCanReadLedger(u: Validators.RegisterInput)
    requires Validators.ValidateRegistration(u).Ok?
    ensures Authorize(LedgerReaders, Some(Claims(Some(Validators.ValidateRegistration(u).value.role)))) == Allowed
  {
  }
}
