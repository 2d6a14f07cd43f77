/** `verifyToken`: pick the bearer token from the `Authorization` header, the
    `token` cookie or the `token` query parameter, in that order; reject a
    request without one (401) or whose token does not verify (403); and
    otherwise hand on a `req.user` whose `id` and `user_id` are normalised
    from the first id-like claim of the payload.  Signature checking is an
    oracle `verify` that yields the decoded payload or `None` when
    `jwt.verify` throws. */
module AuthMiddleware {
  import opened Wrappers
  import opened JsText
  import opened Store

  /** What the middleware reads: the `Authorization` header and the parsed
      cookie and query objects (`None` when the object is absent). */
  datatype Request = Request(authorization: Value, cookies: Option<Object>, query: Option<Object>)

  datatype Outcome = NoToken | InvalidToken | Authenticated(user: Object, userId: Value)

  function Status(o: Outcome): int {
    match o
    case NoToken => 401
    case InvalidToken => 403
    case Authenticated(_, _) => 200
  }

  /** `authHeader.split(" ")[1]` for a string header starting with
      `"Bearer "`; `Null` stands for `undefined`. */
  function BearerToken(header: Value): Value {
    if header.Str? && StartsWith(header.s, "Bearer ") then
      var parts := Split(header.s, ' ');
      if |parts| >= 2 then Str(parts[1]) else Null
    else Null
  }

  /** `obj.token` of an optional object. */
  function TokenIn(obj: Option<Object>): Value {
    if obj.Some? then Field(obj.value, "token") else Null
  }

  /** The precedence of token sources: the header when it yields a truthy
      token, else the cookie when that is truthy, else the query; no truthy
      token at all when none of the three yields one. */
  predicate ChosenByPrecedence(req: Request, token: Value) {
    var header := BearerToken(req.authorization);
    var cookie := TokenIn(req.cookies);
    var query := TokenIn(req.query);
    && (Truthy(header) ==> token == header)
    && (!Truthy(header) && Truthy(cookie) ==> token == cookie)
    && (!Truthy(header) && !Truthy(cookie) && Truthy(query) ==> token == query)
    && (Truthy(token) <==> Truthy(header) || Truthy(cookie) || Truthy(query))
  }

  /** The three fallback assignments to `token`. */
  method ExtractToken(req: Request) returns (token: Value)
    ensures ChosenByPrecedence(req, token)
  {
    token := Null;
    var header := req.authorization;
    if Truthy(header) && header.Str? && StartsWith(header.s, "Bearer ") {
      token := BearerToken(header);
    }
    if !Truthy(token) && req.cookies.Some? && Truthy(Field(req.cookies.value, "token")) {
      token := Field(req.cookies.value, "token");
    }
    if !Truthy(token) && req.query.Some? && Truthy(Field(req.query.value, "token")) {
      token := Field(req.query.value, "token");
    }
  }

  /** `a ?? b`. */
  function Coalesce(a: Value, b: Value): (r: Value)
    ensures r == Null <==> a == Null && b == Null
  {
    if a == Null then b else a
  }

  /** `decoded.user_id ?? decoded.id ?? decoded.userId ?? decoded.sub ?? null`:
      one of the four id-like claims, `user_id` when that is set, and null
      only when all four are. */
  function NormalisedUserId(decoded: Object): (userId: Value)
    ensures userId == Null <==>
      Field(decoded, "user_id") == Null && Field(decoded, "id") == Null &&
      Field(decoded, "userId") == Null && Field(decoded, "sub") == Null
    ensures userId != Null ==>
      userId in [Field(decoded, "user_id"), Field(decoded, "id"), Field(decoded, "userId"), Field(decoded, "sub")]
    ensures Field(decoded, "user_id") != Null ==> userId == Field(decoded, "user_id")
  {
    Coalesce(Field(decoded, "user_id"), Coalesce(Field(decoded, "id"),
      Coalesce(Field(decoded, "userId"), Coalesce(Field(decoded, "sub"), Null))))
  }

  /** `{ ...decoded, id: decoded.id ?? userId, user_id: decoded.user_id ?? userId }`:
      every decoded claim except `id` and `user_id` is kept; both of those
      are present, keep their value when it was set and otherwise take the
      normalised id; so they are null only when no id-like claim is set. */
  function NormalisedUser(decoded: Object): (user: Object)
    ensures user.Keys == decoded.Keys + {"id", "user_id"}
    ensures forall k :: k in decoded && k != "id" && k != "user_id" ==> user[k] == decoded[k]
    ensures Field(decoded, "id") != Null ==> user["id"] == decoded["id"]
    ensures Field(decoded, "user_id") != Null ==> user["user_id"] == decoded["user_id"]
    ensures Field(decoded, "id") == Null ==> user["id"] == NormalisedUserId(decoded)
    ensures Field(decoded, "user_id") == Null ==> user["user_id"] == NormalisedUserId(decoded)
    ensures user["user_id"] == Null <==> NormalisedUserId(decoded) == Null
    ensures user["id"] == Null <==> NormalisedUserId(decoded) == Null
  {
    var userId := NormalisedUserId(decoded);
    decoded["id" := Coalesce(Field(decoded, "id"), userId)]["user_id" := Coalesce(Field(decoded, "user_id"), userId)]
  }

  /** The middleware: `next()` is reached only with an `Authenticated`
      outcome, whose `userId` is `req.userId`. */
  method VerifyToken(req: Request, verify: Value -> Option<Object>) returns (token: Value, outcome: Outcome)
    ensures ChosenByPrecedence(req, token)
    ensures !Truthy(token) ==> outcome == NoToken
    ensures Truthy(token) && verify(token).None? ==> outcome == InvalidToken
    ensures Truthy(token) && verify(token).Some? ==>
      outcome == Authenticated(NormalisedUser(verify(token).value), Field(NormalisedUser(verify(token).value), "user_id"))
  {
    token := ExtractToken(req);
    if !Truthy(token) {
      return token, NoToken;
    }
    var decoded := verify(token);
    if decoded.None? {
      return token, InvalidToken;
    }
    var user := NormalisedUser(decoded.value);
    outcome := Authenticated(user, Field(user, "user_id"));
  }

  // ---------------------------------------------------------------------
  // Properties

  /** A payload carrying only `sub` gets that subject as both `id` and
      `user_id`. */
  lemma SubjectOnlyPayload(sub: Value)
    requires sub != Null
    ensures var user := NormalisedUser(map["sub" := sub]);
      user["id"] == sub && user["user_id"] == sub
  {
    var d := map["sub" := sub];
    assert Field(d, "user_id") == Null && Field(d, "id") == Null && Field(d, "userId") == Null;
  }

  /** Splitting text without a separator leaves it whole. */
  lemma {:induction false} SplitWithoutSeparator(t: string, sep: char)
    requires sep !in t
    ensures Split(t, sep) == [t]
  {
    if t != [] {
      SplitWithoutSeparator(t[1..], sep);
      assert [t[0]] + t[1..] == t;
    }
  }

  /** Prepending a non-separator extends the first field. */
  lemma SplitCons(c: char, rest: string, sep: char, w: string, t: string)
    requires c != sep && Split(rest, sep) == [w, t]
    ensures Split([c] + rest, sep) == [[c] + w, t]
  {
    assert ([c] + rest)[1..] == rest;
  }

  /** The header `"Bearer " + t` yields `t` for a token without spaces. */
  lemma BearerHeaderRoundTrip(t: string)
    requires ' ' !in t
    ensures BearerToken(Str("Bearer " + t)) == Str(t)
  {
    SplitWithoutSeparator(t, ' ');
    var s0 := [' '] + t;
    assert s0[1..] == t;
    var s1 := ['r'] + s0;
    SplitCons('r', s0, ' ', [], t);
    var s2 := ['e'] + s1;
    SplitCons('e', s1, ' ', ['r'] + [], t);
    var s3 := ['r'] + s2;
    SplitCons('r', s2, ' ', ['e'] + (['r'] + []), t);
    var s4 := ['a'] + s3;
    SplitCons('a', s3, ' ', ['r'] + (['e'] + (['r'] + [])), t);
    var s5 := ['e'] + s4;
    SplitCons('e', s4, ' ', ['a'] + (['r'] + (['e'] + (['r'] + []))), t);
    var s6 := ['B'] + s5;
    SplitCons('B', s5, ' ', ['e'] + (['a'] + (['r'] + (['e'] + (['r'] + [])))), t);
    assert "Bearer " + t == s6;
  }
}
