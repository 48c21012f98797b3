/**
 * The account and password-reset handlers of the `/user` router: register,
 * profile update, forgot-password token issue, and the GET and POST
 * reset-password handlers.
 *
 * The user table is a map from id to record, updated in place by the
 * handlers. bcrypt is an uninterpreted function `hash(password, salt)`
 * passed in by the caller together with the salt it would have generated;
 * JWT is the symbolic signer of module Jwt; the clock is the `now` parameter.
 */
module Accounts {
  import opened Wrappers
  import Jwt

  type Id = nat

  /** bcrypt as a black box: `hash(password, salt)`. */
  type Hasher = (string, string) -> string

  /** The server-wide signing secret. */
  const JWT_SECRET: string := "some super secret..."

  const MIN_PASSWORD_LENGTH: nat := 4

  /** `expiresIn: "15m"`, in seconds. */
  const RESET_TOKEN_LIFETIME: nat := 900

  /** A row of the users table; `password` holds the bcrypt hash. */
  datatype User = User(name: string, email: string, password: string)

  /** The two validation errors, with the text the form shows. */
  datatype ValidationError = PasswordsDoNotMatch | PasswordTooShort
  {
    function Text(): (text: string)
      ensures PasswordsDoNotMatch? ==> text == "Passwords do not match"
      ensures PasswordTooShort? ==> text == "Password must be at least 4 characters"
    {
      match this
      case PasswordsDoNotMatch => "Passwords do not match"
      case PasswordTooShort => "Password must be at least 4 characters"
    }
  }

  datatype RegisterOutcome =
    | RegisterRejected(errors: seq<ValidationError>)
    | AlreadyRegistered
    | Registered(id: Id)

  /** A reset link `/user/reset-password/<id>/<token>`. */
  datatype ResetLink = ResetLink(id: Id, token: Jwt.Token)

  /**
   * What GET reset-password does: render the form for the stored email,
   * flash "Invalid ID", or let the exception of a failed verify escape its
   * `try { } finally { }`. That exception rejects the promise of the
   * `.then` callback and nothing handles it, so no page is rendered; what
   * the Node runtime then does with the process is not modelled.
   */
  datatype ViewOutcome =
    | ResetForm(email: string)
    | InvalidId
    | Unanswered(reason: Jwt.VerifyError)

  datatype ResetOutcome =
    | PasswordChanged
    | ResetRejected(errors: seq<ValidationError>)
    | NoSuchId
    | BadToken(reason: Jwt.VerifyError)

  /**
   * JavaScript's `String.prototype.length`: the number of UTF-16 code units,
   * so a character outside the Basic Multilingual Plane counts twice.
   */
  function Utf16Length(s: string): (n: nat)
    ensures |s| <= n <= 2 * |s|
  {
    if s == [] then 0
    else (if s[0] as int > 0xFFFF then 2 else 1) + Utf16Length(s[1..])
  }

  /** The error list the register and reset handlers build, in push order. */
  function PasswordErrors(password: string, password2: string): (errors: seq<ValidationError>)
    ensures PasswordsDoNotMatch in errors <==> password != password2
    ensures PasswordTooShort in errors <==> Utf16Length(password) < MIN_PASSWORD_LENGTH
    ensures errors == [] <==> password == password2 && Utf16Length(password) >= MIN_PASSWORD_LENGTH
    ensures |errors| <= 2
    ensures password != password2 ==> errors[0] == PasswordsDoNotMatch
  {
    (if password != password2 then [PasswordsDoNotMatch] else [])
    + (if Utf16Length(password) < MIN_PASSWORD_LENGTH then [PasswordTooShort] else [])
  }

  /** The checks of the register and reset handlers, pushing onto `errors`. */
  method ValidatePasswords(password: string, password2: string) returns (errors: seq<ValidationError>)
    ensures errors == PasswordErrors(password, password2)
  {
    errors := [];
    if password != password2 {
      errors := errors + [PasswordsDoNotMatch];
    }
    if Utf16Length(password) < MIN_PASSWORD_LENGTH {
      errors := errors + [PasswordTooShort];
    }
  }

  /** The key reset tokens of a user are signed with: secret + password hash. */
  function ResetKey(passwordHash: string): (key: string)
    ensures |key| == |JWT_SECRET| + |passwordHash|
    ensures key[..|JWT_SECRET|] == JWT_SECRET && key[|JWT_SECRET|..] == passwordHash
  {
    JWT_SECRET + passwordHash
  }

  /**
   * Key derivation is injective in the password hash, so a new password
   * hash always means a new signing key.
   */
  lemma ResetKeyInjective(h1: string, h2: string)
    ensures ResetKey(h1) == ResetKey(h2) <==> h1 == h2
  {
    if ResetKey(h1) == ResetKey(h2) {
      assert h1 == ResetKey(h1)[|JWT_SECRET|..];
      assert h2 == ResetKey(h2)[|JWT_SECRET|..];
    }
  }

  /**
   * A token signed under the key of one password hash is refused under the
   * key of any other, whatever the clock says.
   */
  lemma PasswordChangeInvalidates(token: Jwt.Token, oldHash: string, newHash: string, at: int)
    requires Jwt.Verify(token, ResetKey(oldHash), at).Verified?
    requires newHash != oldHash
    ensures forall t :: Jwt.Verify(token, ResetKey(newHash), t) == Jwt.Rejected(Jwt.InvalidSignature)
  {
    ResetKeyInjective(oldHash, newHash);
  }

  /**
   * The one-time `id` flash slot the GET update-account page fills and the
   * POST update handler reads. `req.flash('id')` returns every queued value
   * as an array and clears the slot.
   */
  class Flash {
    var ids: seq<Id>

    constructor ()
      ensures ids == []
    {
      ids := [];
    }

    /** GET /updateAccount/:id */
    method Push(id: Id)
      modifies this
      ensures ids == old(ids) + [id]
    {
      ids := ids + [id];
    }

    /** `req.flash('id')` */
    method Take() returns (taken: seq<Id>)
      modifies this
      ensures taken == old(ids) && ids == []
    {
      taken := ids;
      ids := [];
    }
  }

  /** The users table, with the auto-increment counter that numbers new rows. */
  class UserTable {
    var users: map<Id, User>
    var nextId: Id

    /** Every stored id was handed out by the counter. */
    ghost predicate Valid()
      reads this
    {
      forall id :: id in users ==> id < nextId
    }

    /** No two rows share an email. */
    ghost predicate EmailsUnique()
      reads this
    {
      forall a, b :: a in users && b in users && users[a].email == users[b].email ==> a == b
    }

    predicate HasEmail(email: string)
      reads this
    {
      exists id :: id in users && users[id].email == email
    }

    constructor ()
      ensures users == map[] && nextId == 0
      ensures Valid() && EmailsUnique()
    {
      users := map[];
      nextId := 0;
    }

    /** `User.findOne({where: {email}})`: some row with that email, if any. */
    method FindByEmail(email: string) returns (found: Option<Id>)
      ensures found.None? <==> !HasEmail(email)
      ensures found.Some? ==> found.value in users && users[found.value].email == email
    {
      if id :| id in users && users[id].email == email {
        found := Some(id);
      } else {
        found := None;
      }
    }

    /** POST /user/register */
    method Register(name: string, email: string, password: string, password2: string,
                    hash: Hasher, salt: string) returns (r: RegisterOutcome)
      requires Valid()
      modifies this
      ensures Valid()
      ensures old(EmailsUnique()) ==> EmailsUnique()
      ensures PasswordErrors(password, password2) != [] ==>
                r == RegisterRejected(PasswordErrors(password, password2))
                && users == old(users) && nextId == old(nextId)
      ensures PasswordErrors(password, password2) == [] && old(HasEmail(email)) ==>
                r == AlreadyRegistered && users == old(users) && nextId == old(nextId)
      ensures PasswordErrors(password, password2) == [] && !old(HasEmail(email)) ==>
                r.Registered? && r.id !in old(users)
                && users == old(users)[r.id := User(name, email, hash(password, salt))]
    {
      var errors := ValidatePasswords(password, password2);
      if errors != [] {
        return RegisterRejected(errors);
      }
      var existing := FindByEmail(email);
      if existing.Some? {
        return AlreadyRegistered;
      }
      var id := nextId;
      users := users[id := User(name, email, hash(password, salt))];
      nextId := nextId + 1;
      r := Registered(id);
    }

    /**
     * POST /user/update: two unconditional updates, first the name, then the
     * email, of every row whose id is in the list the flash returned. There
     * is no validation and no uniqueness check of the new email.
     */
    method Update(ids: seq<Id>, name: string, email: string)
      requires Valid()
      modifies this
      ensures Valid()
      ensures nextId == old(nextId) && users.Keys == old(users).Keys
      ensures forall id :: id in users ==>
                users[id] == if id in ids then old(users)[id].(name := name, email := email)
                             else old(users)[id]
      ensures old(EmailsUnique())
              && (forall a, b :: a in old(users) && b in old(users) && a in ids && b in ids ==> a == b)
              && (forall o :: o in old(users) && o !in ids ==> old(users)[o].email != email)
              ==> EmailsUnique()
    {
      users := map id | id in users :: if id in ids then users[id].(name := name) else users[id];
      users := map id | id in users :: if id in ids then users[id].(email := email) else users[id];
    }

    /**
     * POST /user/showForgot: for a registered email, a link carrying a token
     * signed over `{email, id}` with the user's current reset key, valid for
     * 15 minutes from `now`. The table is only read.
     */
    method ShowForgot(email: string, now: int) returns (link: Option<ResetLink>)
      ensures link.None? <==> !HasEmail(email)
      ensures link.Some? ==>
                var id := link.value.id;
                var token := link.value.token;
                && id in users && users[id].email == email
                && token.claims == Jwt.Payload(email, id)
                && token.key == ResetKey(users[id].password)
                && (forall t :: now <= t < now + RESET_TOKEN_LIFETIME ==>
                      Jwt.Verify(token, ResetKey(users[id].password), t) == Jwt.Verified(Jwt.Payload(email, id)))
                && Jwt.Verify(token, ResetKey(users[id].password), now + RESET_TOKEN_LIFETIME)
                   == Jwt.Rejected(Jwt.TokenExpired)
    {
      var found := FindByEmail(email);
      if found.None? {
        return None;
      }
      var id := found.value;
      var user := users[id];
      var secret := ResetKey(user.password);
      var payload := Jwt.Payload(user.email, id);
      var token := Jwt.Sign(payload, secret, now, RESET_TOKEN_LIFETIME);
      link := Some(ResetLink(id, token));
    }

    /** GET /user/reset-password/:id/:token */
    method ViewReset(id: Id, token: Jwt.Token, now: int) returns (r: ViewOutcome)
      ensures r == InvalidId <==> id !in users
      ensures r.ResetForm? <==>
                id in users && Jwt.Verify(token, ResetKey(users[id].password), now).Verified?
      ensures r.ResetForm? ==> r.email == users[id].email
      ensures r.Unanswered? ==>
                id in users && Jwt.Verify(token, ResetKey(users[id].password), now) == Jwt.Rejected(r.reason)
    {
      if id !in users {
        return InvalidId;
      }
      var user := users[id];
      var secret := ResetKey(user.password);
      var verification := Jwt.Verify(token, secret, now);
      if verification.Rejected? {
        return Unanswered(verification.reason);
      }
      r := ResetForm(user.email);
    }

    /**
     * POST /user/reset-password/:id/:token as written: the token is never
     * verified. An unknown id changes nothing; otherwise the passwords are
     * validated as on registration, and on success only the password field
     * of that row is replaced by the new hash.
     */
    method SubmitReset(id: Id, token: Jwt.Token, password: string, password2: string,
                       hash: Hasher, salt: string) returns (r: ResetOutcome)
      requires Valid()
      modifies this
      ensures Valid() && nextId == old(nextId)
      ensures old(EmailsUnique()) ==> EmailsUnique()
      ensures id !in old(users) ==> r == NoSuchId && users == old(users)
      ensures id in old(users) && PasswordErrors(password, password2) != [] ==>
                r == ResetRejected(PasswordErrors(password, password2)) && users == old(users)
      ensures id in old(users) && PasswordErrors(password, password2) == [] ==>
                r == PasswordChanged
                && users == old(users)[id := old(users)[id].(password := hash(password, salt))]
    {
      if id !in users {
        return NoSuchId;
      }
      var errors := ValidatePasswords(password, password2);
      if errors != [] {
        return ResetRejected(errors);
      }
      users := users[id := users[id].(password := hash(password, salt))];
      r := PasswordChanged;
    }

    /**
     * The reset submission with the token check the flow relies on: the
     * token must verify under the user's current reset key before the
     * passwords are validated. A successful reset changes the key, so when
     * the new hash differs from the old one the same token never verifies
     * again.
     */
    method SubmitResetChecked(id: Id, token: Jwt.Token, password: string, password2: string,
                              hash: Hasher, salt: string, now: int) returns (r: ResetOutcome)
      requires Valid()
      modifies this
      ensures Valid() && nextId == old(nextId)
      ensures old(EmailsUnique()) ==> EmailsUnique()
      ensures id !in old(users) ==> r == NoSuchId && users == old(users)
      ensures id in old(users) && Jwt.Verify(token, ResetKey(old(users)[id].password), now).Rejected? ==>
                r == BadToken(Jwt.Verify(token, ResetKey(old(users)[id].password), now).reason)
                && users == old(users)
      ensures id in old(users) && Jwt.Verify(token, ResetKey(old(users)[id].password), now).Verified?
              && PasswordErrors(password, password2) != [] ==>
                r == ResetRejected(PasswordErrors(password, password2)) && users == old(users)
      ensures id in old(users) && Jwt.Verify(token, ResetKey(old(users)[id].password), now).Verified?
              && PasswordErrors(password, password2) == [] ==>
                r == PasswordChanged
                && users == old(users)[id := old(users)[id].(password := hash(password, salt))]
      ensures r == PasswordChanged && hash(password, salt) != old(users)[id].password ==>
                forall t :: Jwt.Verify(token, ResetKey(users[id].password), t) == Jwt.Rejected(Jwt.InvalidSignature)
    {
      if id !in users {
        return NoSuchId;
      }
      var verification := Jwt.Verify(token, ResetKey(users[id].password), now);
      if verification.Rejected? {
        return BadToken(verification.reason);
      }
      var errors := ValidatePasswords(password, password2);
      if errors != [] {
        return ResetRejected(errors);
      }
      var oldHash := users[id].password;
      var newHash := hash(password, salt);
      users := users[id := users[id].(password := newHash)];
      r := PasswordChanged;
      if newHash != oldHash {
        PasswordChangeInvalidates(token, oldHash, newHash, now);
      }
    }
  }
}
