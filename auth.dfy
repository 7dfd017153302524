/** The account routes: registration, login, the profile behind a bearer token, and
    the forgot / reset / verify cycle of password-reset tokens. Hashing, signing and
    the random reset token are not modelled; they arrive as the functions of a
    `Crypto` value and as parameters, together with the clock. */
module Auth {
  import opened Text
  import opened Common
  import opened Schema
  import opened Validation

  // ----- cryptography, taken as given -----

  /** What a token carries: the user's id, username and email. */
  datatype Claims = Claims(id: UserId, username: string, email: string)

  /** SHA-256 (hex digest), bcrypt hash and compare, and JWT sign and verify. */
  datatype Crypto = Crypto(
    sha256: string -> string,
    bcryptHash: (string, string) -> string,
    bcryptCompare: (string, string) -> bool,
    sign: Claims -> string,
    verify: string -> Option<Claims>)

  /** The properties of the primitives the round trips rely on: a password matches
      its own hash whatever the salt, a signed token verifies to its claims, and a
      signed token is a non-empty string without spaces. */
  ghost predicate CryptoSound(c: Crypto) {
    && (forall p, salt :: c.bcryptCompare(p, c.bcryptHash(p, salt)))
    && (forall cl :: c.verify(c.sign(cl)) == Some(cl))
    && (forall cl :: c.sign(cl) != "" && ' ' !in c.sign(cl))
  }

  /** The `data` of a register or login response. */
  datatype AuthData = AuthData(id: UserId, username: string, email: string, token: string)

  /** The `data` of a profile response: the password is never part of it. */
  datatype ProfileData = ProfileData(id: UserId, username: string, email: string, authProvider: AuthProvider, createdAt: int)

  function ClaimsOf(u: User): Claims {
    Claims(u.id, u.username, u.email)
  }

  function AuthDataOf(u: User, c: Crypto): AuthData {
    AuthData(u.id, u.username, u.email, c.sign(ClaimsOf(u)))
  }

  /** The token of a register or login response verifies to the very id, username and
      email the response shows, and fits in a bearer header. */
  lemma IssuedTokenNamesUser(u: User, c: Crypto)
    requires CryptoSound(c)
    ensures var d := AuthDataOf(u, c);
      && c.verify(d.token) == Some(Claims(d.id, d.username, d.email))
      && d.token != "" && ' ' !in d.token
  {
  }

  function ProfileDataOf(u: User): ProfileData {
    ProfileData(u.id, u.username, u.email, u.authProvider, u.createdAt)
  }

  // ----- lookups -----

  /** `findOne(filter)`: the first stored user the filter accepts. */
  function First(users: seq<User>, p: User -> bool): (r: Option<nat>)
    ensures r.None? <==> forall i :: 0 <= i < |users| ==> !p(users[i])
    ensures r.Some? ==> r.value < |users| && p(users[r.value])
    ensures r.Some? ==> forall j :: 0 <= j < r.value ==> !p(users[j])
  {
    if users == [] then None
    else if p(users[0]) then Some(0)
    else
      var rest := First(users[1..], p);
      assert forall i :: 1 <= i < |users| ==> users[i] == users[1..][i - 1];
      if rest.Some? then Some(rest.value + 1) else None
  }

  function FindByUsername(users: seq<User>, name: string): (r: Option<nat>)
    ensures r.None? <==> forall i :: 0 <= i < |users| ==> users[i].username != name
    ensures r.Some? ==> r.value < |users| && users[r.value].username == name
  {
    First(users, (u: User) => u.username == name)
  }

  function FindByEmail(users: seq<User>, email: string): (r: Option<nat>)
    ensures r.None? <==> forall i :: 0 <= i < |users| ==> users[i].email != email
    ensures r.Some? ==> r.value < |users| && users[r.value].email == email
  {
    First(users, (u: User) => u.email == email)
  }

  /** `User.findById`, as GET /profile looks up the id a token carries. */
  function FindById(users: seq<User>, id: UserId): (r: Option<nat>)
    ensures r.None? <==> forall i :: 0 <= i < |users| ==> users[i].id != id
    ensures r.Some? ==> r.value < |users| && users[r.value].id == id
  {
    First(users, (u: User) => u.id == id)
  }

  /** `{$or: [{username}, {email}]}` finds somebody. */
  predicate Taken(users: seq<User>, username: string, email: string) {
    exists i :: 0 <= i < |users| && (users[i].username == username || users[i].email == email)
  }

  // ----- reset tokens -----

  /** How long a reset token stays usable: one hour, in milliseconds. */
  const ResetWindow: int := 3600000

  /** `{resetPasswordToken: hash, resetPasswordExpires: {$gt: now}}` accepts the user. */
  predicate ResetMatches(u: User, hash: string, now: int) {
    u.resetPasswordToken == Some(hash) && u.resetPasswordExpires.Some? && u.resetPasswordExpires.value > now
  }

  function FindReset(users: seq<User>, hash: string, now: int): (r: Option<nat>)
    ensures r.None? <==> forall i :: 0 <= i < |users| ==> !ResetMatches(users[i], hash, now)
    ensures r.Some? ==> r.value < |users| && ResetMatches(users[r.value], hash, now)
  {
    First(users, (u: User) => ResetMatches(u, hash, now))
  }

  /** The user after forgot-password: only the hash of the raw token is kept, with an
      expiry one hour ahead; an earlier pair is overwritten. */
  function WithResetPair(u: User, hash: string, now: int): (r: User)
    ensures r.resetPasswordToken == Some(hash) && r.resetPasswordExpires == Some(now + ResetWindow)
    ensures r.(resetPasswordToken := u.resetPasswordToken, resetPasswordExpires := u.resetPasswordExpires,
               updatedAt := u.updatedAt) == u
  {
    u.(resetPasswordToken := Some(hash), resetPasswordExpires := Some(now + ResetWindow), updatedAt := now)
  }

  /** The user after a successful reset: the new password hash, and no reset pair. */
  function Cleared(u: User, passwordHash: string, now: int): (r: User)
    ensures r.password == Some(passwordHash) && r.resetPasswordToken == None && r.resetPasswordExpires == None
    ensures r.(password := u.password, resetPasswordToken := u.resetPasswordToken,
               resetPasswordExpires := u.resetPasswordExpires, updatedAt := u.updatedAt) == u
  {
    u.(password := Some(passwordHash), resetPasswordToken := None, resetPasswordExpires := None, updatedAt := now)
  }

  /** A freshly stored reset pair opens the reset exactly until the hour is over. */
  lemma ResetPairWindow(u: User, hash: string, now: int, later: int)
    ensures ResetMatches(WithResetPair(u, hash, now), hash, later) <==> later < now + ResetWindow
  {
  }

  /** A reset clears the pair it used: once the only user holding the hash has reset
      the password, the same token is refused at any later time. */
  lemma ResetIsSingleUse(users: seq<User>, i: nat, hash: string, passwordHash: string, now: int, later: int)
    requires FindReset(users, hash, now) == Some(i)
    requires forall j :: 0 <= j < |users| && j != i ==> users[j].resetPasswordToken != Some(hash)
    ensures FindReset(users[i := Cleared(users[i], passwordHash, now)], hash, later).None?
  {
    var after := users[i := Cleared(users[i], passwordHash, now)];
    forall j | 0 <= j < |after| ensures !ResetMatches(after[j], hash, later) {
      if j != i {
        assert after[j] == users[j];
      }
    }
  }

  // ----- the Authorization header -----

  /** `authHeader && authHeader.split(' ')[1]`, when that is a non-empty string. */
  function BearerToken(header: Option<string>): (r: Option<string>)
    ensures header.None? || header.value == "" ==> r.None?
    ensures r.Some? ==> r.value != "" && ' ' !in r.value
    ensures r.Some? ==> header.Some? && |Split(header.value, ' ')| >= 2 && r.value == Split(header.value, ' ')[1]
    ensures r.Some? <==> header.Some? && |Split(header.value, ' ')| >= 2 && Split(header.value, ' ')[1] != ""
  {
    if header.None? || header.value == "" then None
    else
      var parts := Split(header.value, ' ');
      if |parts| >= 2 && parts[1] != "" then Some(parts[1]) else None
  }

  /** `Bearer <token>` yields the token. */
  lemma BearerOfHeader(scheme: string, token: string)
    requires ' ' !in scheme && ' ' !in token && token != ""
    ensures BearerToken(Some(scheme + " " + token)) == Some(token)
  {
    SplitPiece(scheme, [token], ' ');
    SplitPiece(token, [], ' ');
  }

  // ----- the read-only routes -----

  const InvalidCredentials := "Invalid username or password"

  /** POST /login. */
  function Login(users: seq<User>, b: LoginBody, c: Crypto): (r: Outcome<AuthData>)
    ensures LoginErrors(b) != [] ==> r == Failure(400, "Validation failed", LoginErrors(b))
    ensures r.Success? <==>
      && LoginErrors(b) == []
      && FindByUsername(users, Trim(AsString(b.username))).Some?
      && var u := users[FindByUsername(users, Trim(AsString(b.username))).value];
         u.password.Some? && c.bcryptCompare(AsString(b.password), u.password.value)
    ensures r.Success? ==> r.code == 200
    ensures r.Success? ==>
      exists i :: 0 <= i < |users| && users[i].username == Trim(AsString(b.username)) && r.data == AuthDataOf(users[i], c)
    ensures r.Failure? && r.code == 401 ==> r == Fail(401, InvalidCredentials)
  {
    var errors := LoginErrors(b);
    if errors != [] then Failure(400, "Validation failed", errors)
    else
      var i := FindByUsername(users, Trim(AsString(b.username)));
      if i.None? then Fail(401, InvalidCredentials)
      else
        var u := users[i.value];
        if u.password.None? then Fail(500, "Error logging in")
        else if !c.bcryptCompare(AsString(b.password), u.password.value) then Fail(401, InvalidCredentials)
        else Success(200, "Login successful", AuthDataOf(u, c))
  }

  /** An unknown username and a wrong password get the very same answer. */
  lemma LoginFailuresIndistinguishable(users: seq<User>, unknown: LoginBody, wrong: LoginBody, c: Crypto)
    requires LoginErrors(unknown) == [] && LoginErrors(wrong) == []
    requires FindByUsername(users, Trim(AsString(unknown.username))).None?
    requires var i := FindByUsername(users, Trim(AsString(wrong.username)));
      i.Some? && users[i.value].password.Some? &&
      !c.bcryptCompare(AsString(wrong.password), users[i.value].password.value)
    ensures Login(users, unknown, c) == Login(users, wrong, c) == Fail(401, InvalidCredentials)
  {
  }

  /** GET /profile. */
  function Profile(users: seq<User>, header: Option<string>, c: Crypto): (r: Outcome<ProfileData>)
    ensures BearerToken(header).None? ==> r == Fail(401, "No token provided")
    ensures BearerToken(header).Some? && c.verify(BearerToken(header).value).None? ==> r == Fail(401, "Invalid token")
    ensures r.Success? <==>
      BearerToken(header).Some? && c.verify(BearerToken(header).value).Some? &&
      FindById(users, c.verify(BearerToken(header).value).value.id).Some?
    ensures r.Success? ==> r.code == 200
    ensures r.Success? ==>
      exists i :: 0 <= i < |users| && users[i].id == c.verify(BearerToken(header).value).value.id && r.data == ProfileDataOf(users[i])
    ensures r.Failure? ==> r.errors == [] && (r.code == 401 || r == Fail(404, "User not found"))
  {
    var token := BearerToken(header);
    if token.None? then Fail(401, "No token provided")
    else
      var claims := c.verify(token.value);
      if claims.None? then Fail(401, "Invalid token")
      else
        var i := FindById(users, claims.value.id);
        if i.None? then Fail(404, "User not found")
        else Success(200, "", ProfileDataOf(users[i.value]))
  }

  /** GET /verify-reset-token: the lookup of the reset route, and nothing changes. */
  function VerifyResetToken(users: seq<User>, token: Field, now: int, c: Crypto): (r: Outcome<()>)
    ensures !Truthy(token) ==> r == Fail(400, "Token is required")
    ensures r.Success? <==> Truthy(token) && FindReset(users, c.sha256(token.s), now).Some?
    ensures r.Success? ==> r == Success(200, "Token is valid", ())
    ensures Truthy(token) && r.Failure? ==> r == Fail(400, "Invalid or expired token")
  {
    if !Truthy(token) then Fail(400, "Token is required")
    else if FindReset(users, c.sha256(token.s), now).None? then Fail(400, "Invalid or expired token")
    else Success(200, "Token is valid", ())
  }

  // ----- the store's invariant -----

  /** A reset pair is either wholly present or wholly absent. */
  predicate ResetPairConsistent(u: User) {
    u.resetPasswordToken.Some? <==> u.resetPasswordExpires.Some?
  }

  /** Every stored user satisfies userSchema, has an id below `next` and a consistent
      reset pair; the unique indexes hold. */
  ghost predicate UsersValid(users: seq<User>, next: UserId) {
    && (forall i :: 0 <= i < |users| ==> UserValid(users[i]) && users[i].id < next && ResetPairConsistent(users[i]))
    && UniqueKeys(users)
  }

  /** The document register saves, once the schema setters ran. */
  function Registered(id: UserId, username: string, email: string, passwordHash: string, now: int): (u: User)
    ensures u.id == id && u.password == Some(passwordHash)
    ensures u.username == Trim(username) && u.email == EmailKey(email)
    ensures u.googleId == None && u.authProvider == Local && ResetPairConsistent(u)
    ensures u.resetPasswordToken == None && !u.isVerified && u.createdAt == now
  {
    UserSetters(NewUser(id, username, email, Some(passwordHash), now))
  }

  /** A user document that passed its schema, whose username and email are not taken,
      can join a valid store under the next id. */
  lemma AddKeepsValid(users: seq<User>, next: UserId, u: User)
    requires UsersValid(users, next) && UserValid(u) && ResetPairConsistent(u) && u.id == next
    requires !Taken(users, u.username, u.email) && u.googleId == None
    ensures UsersValid(users + [u], next + 1)
  {
    var r := users + [u];
    forall i, j | 0 <= i < j < |r|
      ensures r[i].id != r[j].id && r[i].username != r[j].username && r[i].email != r[j].email
      ensures r[i].googleId.Some? ==> r[i].googleId != r[j].googleId
    {
      assert r[i] == users[i];
      if j < |users| {
        assert r[j] == users[j];
      }
    }
  }

  /** Changing only the password and reset fields of one user keeps the store valid,
      provided the user still passes the schema and the pair stays consistent. */
  lemma ReplaceKeepsValid(users: seq<User>, next: UserId, i: nat, u: User)
    requires UsersValid(users, next) && i < |users| && UserValid(u) && ResetPairConsistent(u)
    requires u.id == users[i].id && u.username == users[i].username && u.email == users[i].email
    requires u.googleId == users[i].googleId
    ensures UsersValid(users[i := u], next)
  {
  }

  // ----- round trips -----

  /** A registered user logs in with the password they chose. */
  lemma LoginWithRegisteredPassword(users: seq<User>, i: nat, b: LoginBody, salt: string, c: Crypto)
    requires CryptoSound(c) && UniqueKeys(users) && i < |users|
    requires b.username.Text? && b.password.Text? && b.password.s != ""
    requires users[i].username == b.username.s && users[i].username != "" && Trimmed(users[i].username)
    requires users[i].password == Some(c.bcryptHash(b.password.s, salt))
    ensures Login(users, b, c) == Success(200, "Login successful", AuthDataOf(users[i], c))
  {
    TrimIdempotent(b.username.s);
    assert FindByUsername(users, b.username.s).Some?;
  }

  /** The token a register or login response carries opens that user's profile. */
  lemma IssuedTokenOpensProfile(users: seq<User>, i: nat, c: Crypto)
    requires CryptoSound(c) && UniqueKeys(users) && i < |users|
    ensures Profile(users, Some("Bearer " + AuthDataOf(users[i], c).token), c)
      == Success(200, "", ProfileDataOf(users[i]))
  {
    var token := c.sign(ClaimsOf(users[i]));
    var header := Some("Bearer " + token);
    assert ' ' !in "Bearer";
    assert "Bearer " + token == "Bearer" + " " + token;
    BearerOfHeader("Bearer", token);
    assert BearerToken(header) == Some(token);
    assert c.verify(token) == Some(ClaimsOf(users[i]));
    var k := FindById(users, users[i].id);
    assert k.Some?;
    assert k.value == i;
  }

  /** Once forgot-password stored a pair for a user, the raw token verifies until the
      hour is over. */
  lemma ForgotThenVerify(users: seq<User>, i: nat, raw: string, now: int, later: int, c: Crypto)
    requires i < |users| && raw != "" && later < now + ResetWindow
    ensures VerifyResetToken(users[i := WithResetPair(users[i], c.sha256(raw), now)], Text(raw), later, c)
      == Success(200, "Token is valid", ())
  {
    var after := users[i := WithResetPair(users[i], c.sha256(raw), now)];
    assert ResetMatches(after[i], c.sha256(raw), later);
  }

  class UserStore {
    var users: seq<User>
    var nextId: UserId

    ghost predicate Valid()
      reads this
    {
      UsersValid(users, nextId)
    }

    constructor ()
      ensures Valid() && users == [] && nextId == 0
    {
      users := [];
      nextId := 0;
    }

    /** POST /register: the validation chains and handleValidationErrors, then the
        handler. */
    method Register(b: RegisterBody, rules: EmailRules, salt: string, now: int, c: Crypto) returns (r: Outcome<AuthData>)
      requires Valid()
      modifies this
      ensures Valid()
      ensures RegisterErrors(b, rules) != [] ==>
        r == Failure(400, "Validation failed", RegisterErrors(b, rules)) && unchanged(this)
      ensures RegisterErrors(b, rules) == [] ==>
        var u := Registered(old(nextId), RegisterUsername(b), RegisterEmail(b, rules),
                            c.bcryptHash(AsString(b.password), salt), now);
        SavedIfFree(old(users), old(nextId), u, r, c)
    {
      var errors := RegisterErrors(b, rules);
      var rejected := HandleValidationErrors<AuthData>(errors);
      if rejected.Some? {
        return rejected.value;
      }
      var hash := c.bcryptHash(AsString(b.password), salt);
      var u := Registered(nextId, RegisterUsername(b), RegisterEmail(b, rules), hash, now);
      r := SaveUser(u, c);
    }

    /** What the register handler does with the document it built: 409 when the
        username or the email is taken, 500 when userSchema refuses it, otherwise the
        user is appended and a token for it is returned. */
    ghost predicate SavedIfFree(before: seq<User>, next: UserId, u: User, r: Outcome<AuthData>, c: Crypto)
      reads this
    {
      && (Taken(before, u.username, u.email) ==>
            r == Fail(409, "Username or email already exists") && users == before && nextId == next)
      && (!Taken(before, u.username, u.email) && !UserValid(u) ==>
            r == Fail(500, "Error registering user") && users == before && nextId == next)
      && (!Taken(before, u.username, u.email) && UserValid(u) ==>
            && users == before + [u] && nextId == next + 1
            && r == Success(201, "User registered successfully", AuthDataOf(u, c)))
    }

    /** The register handler, after validation. */
    method SaveUser(u: User, c: Crypto) returns (r: Outcome<AuthData>)
      requires Valid() && u.id == nextId && u.googleId == None && ResetPairConsistent(u)
      modifies this
      ensures Valid()
      ensures SavedIfFree(old(users), old(nextId), u, r, c)
    {
      if Taken(users, u.username, u.email) {
        return Fail(409, "Username or email already exists");
      }
      if !UserValid(u) {
        return Fail(500, "Error registering user");
      }
      AddKeepsValid(users, nextId, u);
      users := users + [u];
      nextId := nextId + 1;
      r := Success(201, "User registered successfully", AuthDataOf(u, c));
    }

    /** POST /forgot-password. `raw` is the random token, `emailSent` what the mail
        service reported. The pair is stored before the mail goes out, so it stays
        stored when sending fails. */
    method ForgotPassword(email: Field, raw: string, emailSent: bool, now: int, c: Crypto) returns (r: Outcome<()>)
      requires Valid()
      modifies this
      ensures Valid() && nextId == old(nextId)
      ensures !Truthy(email) ==> r == Fail(400, "Email is required") && users == old(users)
      ensures Truthy(email) && FindByEmail(old(users), EmailKey(email.s)).None? ==>
        r == Fail(404, "No account found with this email") && users == old(users)
      ensures Truthy(email) && FindByEmail(old(users), EmailKey(email.s)).Some? ==>
        var i := FindByEmail(old(users), EmailKey(email.s)).value;
        && (old(users)[i].authProvider == Google ==>
              r == Fail(400, "This account uses Google authentication. Please sign in with Google.")
              && users == old(users))
        && (old(users)[i].authProvider == Local ==>
              && users == old(users)[i := WithResetPair(old(users)[i], c.sha256(raw), now)]
              && r == if emailSent then Success(200, "Password reset email sent. Check your inbox.", ())
                      else Fail(500, "Failed to send reset email. Please try again."))
    {
      if !Truthy(email) {
        return Fail(400, "Email is required");
      }
      var i := FindByEmail(users, EmailKey(email.s));
      if i.None? {
        return Fail(404, "No account found with this email");
      }
      var u := users[i.value];
      if u.authProvider == Google {
        return Fail(400, "This account uses Google authentication. Please sign in with Google.");
      }
      StoreResetPair(i.value, c.sha256(raw), now);
      if emailSent {
        r := Success(200, "Password reset email sent. Check your inbox.", ());
      } else {
        r := Fail(500, "Failed to send reset email. Please try again.");
      }
    }

    /** `user.resetPasswordToken = hash; user.resetPasswordExpires = now + 1h; save()`. */
    method StoreResetPair(i: nat, hash: string, now: int)
      requires Valid() && i < |users|
      modifies this
      ensures Valid() && nextId == old(nextId)
      ensures users == old(users)[i := WithResetPair(old(users)[i], hash, now)]
    {
      var updated := WithResetPair(users[i], hash, now);
      ReplaceKeepsValid(users, nextId, i, updated);
      users := users[i := updated];
    }

    /** POST /reset-password: both inputs are checked before any lookup; the user whose
        stored hash matches and whose expiry lies ahead gets the new password, and the
        pair is cleared. */
    method ResetPassword(token: Field, password: Field, salt: string, now: int, c: Crypto) returns (r: Outcome<()>)
      requires Valid()
      modifies this
      ensures Valid() && nextId == old(nextId)
      ensures !Truthy(token) || !Truthy(password) ==>
        r == Fail(400, "Token and password are required") && users == old(users)
      ensures Truthy(token) && Truthy(password) && Utf16Length(password.s) < 6 ==>
        r == Fail(400, "Password must be at least 6 characters") && users == old(users)
      ensures Truthy(token) && Truthy(password) && Utf16Length(password.s) >= 6 &&
              FindReset(old(users), c.sha256(token.s), now).None? ==>
        r == Fail(400, "Invalid or expired reset token") && users == old(users)
      ensures Truthy(token) && Truthy(password) && Utf16Length(password.s) >= 6 &&
              FindReset(old(users), c.sha256(token.s), now).Some? ==>
        var i := FindReset(old(users), c.sha256(token.s), now).value;
        var u := Cleared(old(users)[i], c.bcryptHash(password.s, salt), now);
        && (!UserValid(u) ==> r == Fail(500, "Error resetting password") && users == old(users))
        && (UserValid(u) ==>
              users == old(users)[i := u]
              && r == Success(200, "Password reset successful. Please login with your new password.", ()))
    {
      if !Truthy(token) || !Truthy(password) {
        return Fail(400, "Token and password are required");
      }
      if Utf16Length(password.s) < 6 {
        return Fail(400, "Password must be at least 6 characters");
      }
      var i := FindReset(users, c.sha256(token.s), now);
      if i.None? {
        return Fail(400, "Invalid or expired reset token");
      }
      var u := Cleared(users[i.value], c.bcryptHash(password.s, salt), now);
      if !UserValid(u) {
        return Fail(500, "Error resetting password");
      }
      ReplaceKeepsValid(users, nextId, i.value, u);
      users := users[i.value := u];
      r := Success(200, "Password reset successful. Please login with your new password.", ());
    }
  }
}
