/** The account logic of the server: the CORS origin check, the sign-up
    password pattern, sign-up, sign-in and Google find-or-create over the
    `users` table, and the token payload it signs.  Password hashing and
    comparison are oracles: sign-up receives the hash, sign-in a `compare`
    function.  A query's `rows[0]` is the first matching row in table
    order. */
module ServerAuth {
  import opened Wrappers
  import opened JsText
  import opened Store
  import AuthMiddleware

  // ---------------------------------------------------------------------
  // CORS

  const AllowedOrigins: seq<string> := ["http://localhost:5173", "https://your-deployed-site-url.com"]

  /** The `origin` callback: no origin, or one on the allowlist. */
  predicate CorsAllows(origin: Value) {
    !Truthy(origin) || (origin.Str? && origin.s in AllowedOrigins)
  }

  /** Over every origin: the request passes exactly when it has no origin
      (or a falsy one) or comes from one of the two listed sites. */
  lemma CorsAllowsExactly(origin: Value)
    ensures CorsAllows(origin) <==>
      || origin in {Null, Num(0), Str(""), Bool(false)}
      || origin == Str("http://localhost:5173")
      || origin == Str("https://your-deployed-site-url.com")
  {
  }

  /** The dev frontend is allowed; the same URL with a trailing slash, or
      any other site, is not. */
  lemma CorsExamples()
    ensures CorsAllows(Str("http://localhost:5173"))
    ensures CorsAllows(Null) && CorsAllows(Str(""))
    ensures !CorsAllows(Str("http://localhost:5173/"))
    ensures !CorsAllows(Str("http://evil.example"))
  {
    assert "http://localhost:5173/" != AllowedOrigins[0] by {
      assert |"http://localhost:5173/"| != |AllowedOrigins[0]|;
    }
    assert "http://localhost:5173/" != AllowedOrigins[1] by {
      assert "http://localhost:5173/"[0..2] == "ht";
      assert "http://localhost:5173/"[4] != AllowedOrigins[1][4];
    }
    assert "http://evil.example" != AllowedOrigins[0] by {
      assert "http://evil.example"[7] != AllowedOrigins[0][7];
    }
    assert "http://evil.example" != AllowedOrigins[1] by {
      assert "http://evil.example"[4] != AllowedOrigins[1][4];
    }
  }

  // ---------------------------------------------------------------------
  // Password pattern

  /** The characters `.` does not match. */
  predicate IsLineTerminator(c: char) {
    c == '\n' || c == '\r' || c == '\U{2028}' || c == '\U{2029}'
  }

  predicate NoLineTerminator(s: string) {
    forall j :: 0 <= j < |s| ==> !IsLineTerminator(s[j])
  }

  predicate IsSpecial(c: char) {
    c in "!@#$%^&*()_+-=[]{};':\"\\|,.<>/?"
  }

  /** A lookahead `(?=.*[...])` at the start of `p`: some character of the
      class is reached through characters `.` matches. */
  predicate Lookahead(p: string, isIn: char -> bool) {
    exists i :: 0 <= i < |p| && NoLineTerminator(p[..i]) && isIn(p[i])
  }

  /** The sign-up pattern read literally: four lookaheads, then `.{6,50}$`. */
  predicate MatchesPasswordPattern(p: string) {
    && Lookahead(p, IsLowerAscii)
    && Lookahead(p, IsUpperAscii)
    && Lookahead(p, IsDigit)
    && Lookahead(p, IsSpecial)
    && 6 <= |p| <= 50 && NoLineTerminator(p)
  }

  /** The password policy in words. */
  predicate StrongPassword(p: string) {
    && 6 <= |p| <= 50
    && NoLineTerminator(p)
    && (exists i :: 0 <= i < |p| && IsLowerAscii(p[i]))
    && (exists i :: 0 <= i < |p| && IsUpperAscii(p[i]))
    && (exists i :: 0 <= i < |p| && IsDigit(p[i]))
    && (exists i :: 0 <= i < |p| && IsSpecial(p[i]))
  }

  lemma LookaheadWithoutTerminators(p: string, isIn: char -> bool)
    requires NoLineTerminator(p)
    ensures Lookahead(p, isIn) <==> exists i :: 0 <= i < |p| && isIn(p[i])
  {
    if exists i :: 0 <= i < |p| && isIn(p[i]) {
      var i :| 0 <= i < |p| && isIn(p[i]);
      assert NoLineTerminator(p[..i]);
    }
  }

  /** The pattern accepts exactly the passwords of 6 to 50 characters, none
      a line terminator, with a lower-case letter, an upper-case letter, a
      digit and a special character. */
  lemma PasswordPatternIsPolicy(p: string)
    ensures MatchesPasswordPattern(p) <==> StrongPassword(p)
  {
    if NoLineTerminator(p) {
      LookaheadWithoutTerminators(p, IsLowerAscii);
      LookaheadWithoutTerminators(p, IsUpperAscii);
      LookaheadWithoutTerminators(p, IsDigit);
      LookaheadWithoutTerminators(p, IsSpecial);
    }
  }

  lemma PasswordExamples()
    ensures StrongPassword("Abcde1!")
    ensures !StrongPassword("Ab1!")
    ensures !StrongPassword("abcdef1!")
  {
    var p := "Abcde1!";
    assert IsLowerAscii(p[1]) && IsUpperAscii(p[0]) && IsDigit(p[5]) && IsSpecial(p[6]);
    var q := "abcdef1!";
    assert forall i :: 0 <= i < |q| ==> !IsUpperAscii(q[i]);
  }

  // ---------------------------------------------------------------------
  // Users

  /** A row of `users`; `passwordHash` is `Null` for NULL. */
  datatype User = User(userId: int, username: string, email: string, passwordHash: Value)

  /** The marker hash of accounts created through Google. */
  const GoogleMarker: string := "google_oauth"

  function UserObject(u: User): Object {
    map["user_id" := Num(u.userId), "username" := Str(u.username), "email" := Str(u.email),
        "password_hash" := u.passwordHash]
  }

  /** The row as sent to the client: `delete user.password_hash`. */
  function PublicUser(u: User): Object {
    UserObject(u) - {"password_hash"}
  }

  /** The payload `createAndSetToken` signs: `{ id: user.user_id, email }`. */
  function TokenPayload(u: User): Object {
    map["id" := Num(u.userId), "email" := Str(u.email)]
  }

  /** A user may sign in with a password unless the hash is missing or the
      Google marker. */
  predicate PasswordLogin(u: User) {
    Truthy(u.passwordHash) && u.passwordHash != Str(GoogleMarker)
  }

  /** The first row satisfying `p`: `rows[0]` of a filtering query. */
  function FirstWhere(users: seq<User>, p: User -> bool): (r: Option<nat>)
    ensures r.Some? ==> r.value < |users| && p(users[r.value]) && forall j :: 0 <= j < r.value ==> !p(users[j])
    ensures r.None? ==> forall j :: 0 <= j < |users| ==> !p(users[j])
  {
    if |users| == 0 then None
    else if p(users[0]) then Some(0)
    else match FirstWhere(users[1..], p)
      case None => None
      case Some(k) => Some(k + 1)
  }

  /** `WHERE email=$1 OR username=$2`. */
  predicate EmailOrUsername(u: User, email: string, username: string) {
    u.email == email || u.username == username
  }

  datatype SignUpOutcome = SignUpFieldsMissing | WeakPassword | EmailRegistered | UsernameTaken
                         | SignedUp(user: Object, token: Object)

  datatype SignInOutcome = SignInFieldsMissing | NoSuchUser | GoogleAccount | BadCredentials
                         | SignedIn(user: Object, token: Object)

  datatype GoogleOutcome = NoEmail | GoogleSignedIn(user: Object, token: Object)

  function SignUpStatus(o: SignUpOutcome): int {
    if o.SignedUp? then 201 else 400
  }

  function SignInStatus(o: SignInOutcome): int {
    if o.SignedIn? then 200 else 400
  }

  class UserTable {
    var users: seq<User>
    var nextUserId: int

    /** Ids are positive, increase along the table and stay below the next
        one; so they are unique. */
    ghost predicate Valid()
      reads this
    {
      && nextUserId >= 1
      && (forall i :: 0 <= i < |users| ==> 0 < users[i].userId < nextUserId)
      && (forall i, j :: 0 <= i < j < |users| ==> users[i].userId < users[j].userId)
    }

    constructor ()
      ensures Valid() && users == [] && nextUserId == 1
    {
      users := [];
      nextUserId := 1;
    }

    method Insert(username: string, email: string, hash: Value) returns (u: User)
      requires Valid()
      modifies this
      ensures Valid()
      ensures u == User(old(nextUserId), username, email, hash)
      ensures users == old(users) + [u] && nextUserId == old(nextUserId) + 1
    {
      u := User(nextUserId, username, email, hash);
      users := users + [u];
      nextUserId := nextUserId + 1;
    }

    /** `POST /sign-up`. */
    method SignUp(username: Value, email: Value, password: Value, hashed: string) returns (status: int, outcome: SignUpOutcome)
      requires Valid()
      modifies this
      ensures Valid()
      ensures status == SignUpStatus(outcome)
      ensures !outcome.SignedUp? ==> users == old(users) && nextUserId == old(nextUserId)
      ensures outcome == SignUpFieldsMissing <==> !Truthy(username) || !Truthy(email) || !Truthy(password)
      ensures Truthy(username) && Truthy(email) && Truthy(password) ==>
        (outcome == WeakPassword <==> !StrongPassword(TextOf(password)))
      ensures outcome == EmailRegistered || outcome == UsernameTaken ==>
        var found := FirstWhere(old(users), u => EmailOrUsername(u, TextOf(email), TextOf(username)));
        found.Some? && (outcome == EmailRegistered <==> Str(old(users)[found.value].email) == email)
      ensures outcome.SignedUp? ==>
        && StrongPassword(TextOf(password))
        && (forall u :: u in old(users) ==> u.email != TextOf(email) && u.username != TextOf(username))
        && var u := User(old(nextUserId), TextOf(username), TextOf(email), Str(hashed));
        && users == old(users) + [u] && nextUserId == old(nextUserId) + 1
        && outcome == SignedUp(PublicUser(u), TokenPayload(u))
    {
      if !Truthy(username) || !Truthy(email) || !Truthy(password) {
        return 400, SignUpFieldsMissing;
      }
      if !StrongPassword(TextOf(password)) {
        return 400, WeakPassword;
      }
      var found := FirstWhere(users, u => EmailOrUsername(u, TextOf(email), TextOf(username)));
      if found.Some? {
        if Str(users[found.value].email) == email {
          return 400, EmailRegistered;
        }
        return 400, UsernameTaken;
      }
      assert forall u :: u in users ==> !EmailOrUsername(u, TextOf(email), TextOf(username));
      var u := Insert(TextOf(username), TextOf(email), Str(hashed));
      return 201, SignedUp(PublicUser(u), TokenPayload(u));
    }

    /** `POST /sign-in`; `compare` stands for `bcrypt.compare`. */
    method SignIn(emailOrName: Value, password: Value, compare: (Value, Value) -> bool) returns (status: int, outcome: SignInOutcome)
      ensures status == SignInStatus(outcome)
      ensures outcome == SignInFieldsMissing <==> !Truthy(emailOrName) || !Truthy(password)
      ensures Truthy(emailOrName) && Truthy(password) ==>
        var found := FirstWhere(users, u => EmailOrUsername(u, TextOf(emailOrName), TextOf(emailOrName)));
        && (found.None? <==> outcome == NoSuchUser)
        && (found.Some? ==>
              var u := users[found.value];
              if !PasswordLogin(u) then outcome == GoogleAccount
              else if !compare(password, u.passwordHash) then outcome == BadCredentials
              else outcome == SignedIn(PublicUser(u), TokenPayload(u)))
    {
      if !Truthy(emailOrName) || !Truthy(password) {
        return 400, SignInFieldsMissing;
      }
      var found := FirstWhere(users, u => EmailOrUsername(u, TextOf(emailOrName), TextOf(emailOrName)));
      if found.None? {
        return 400, NoSuchUser;
      }
      var u := users[found.value];
      if !Truthy(u.passwordHash) || u.passwordHash == Str(GoogleMarker) {
        return 400, GoogleAccount;
      }
      if !compare(password, u.passwordHash) {
        return 400, BadCredentials;
      }
      return 200, SignedIn(PublicUser(u), TokenPayload(u));
    }

    /** The Google strategy's verify callback followed by the callback
        route's token: `profileEmail` is `profile.emails?.[0]?.value`. */
    method GoogleLogin(profileEmail: Value, displayName: Value) returns (outcome: GoogleOutcome)
      requires Valid()
      modifies this
      ensures Valid()
      ensures !Truthy(profileEmail) ==> outcome == NoEmail && users == old(users) && nextUserId == old(nextUserId)
      ensures Truthy(profileEmail) ==>
        var found := FirstWhere(old(users), (u: User) => u.email == TextOf(profileEmail));
        && (found.Some? ==>
              && users == old(users) && nextUserId == old(nextUserId)
              && outcome == GoogleSignedIn(PublicUser(old(users)[found.value]), TokenPayload(old(users)[found.value])))
        && (found.None? ==>
              var u := User(old(nextUserId), TextOf(Or(displayName, Str("GoogleUser"))), TextOf(profileEmail), Str(GoogleMarker));
              && users == old(users) + [u] && nextUserId == old(nextUserId) + 1
              && outcome == GoogleSignedIn(PublicUser(u), TokenPayload(u)))
    {
      if !Truthy(profileEmail) {
        return NoEmail;
      }
      var email := TextOf(profileEmail);
      var found := FirstWhere(users, (u: User) => u.email == email);
      var u: User;
      if found.None? {
        u := Insert(TextOf(Or(displayName, Str("GoogleUser"))), email, Str(GoogleMarker));
      } else {
        u := users[found.value];
      }
      return GoogleSignedIn(PublicUser(u), TokenPayload(u));
    }
  }

  // ---------------------------------------------------------------------
  // Properties

  /** What reaches the client carries every column but the password hash. */
  lemma PublicUserHidesHash(u: User)
    ensures "password_hash" !in PublicUser(u)
    ensures PublicUser(u).Keys == {"user_id", "username", "email"}
    ensures PublicUser(u)["user_id"] == Num(u.userId) && PublicUser(u)["email"] == Str(u.email)
  {
  }

  /** A token the server signs for a user, once verified, makes the
      middleware set `req.userId` (and `req.user.id`) to that user's id. */
  lemma TokenIdentifiesUser(u: User)
    ensures AuthMiddleware.NormalisedUser(TokenPayload(u))["user_id"] == Num(u.userId)
    ensures AuthMiddleware.NormalisedUser(TokenPayload(u))["id"] == Num(u.userId)
  {
    var d := TokenPayload(u);
    assert Field(d, "user_id") == Null;
    assert Field(d, "id") == Num(u.userId);
  }
}
