/** The admin session cookie and the rows behind it. Hashing, signing and JSON are whatever the service uses. */
module SessionCookie {
  import opened Common
  import opened Base64Url

  const AUDIENCE := "kor-travel-docker-manager-dashboard"
  const VERSION := 1
  const TTL := 8 * 60 * 60 * SECOND
  const SECOND := 1_000_000

  /** A claim is none when it is missing or not of its type. */
  datatype Claims = Claims(
    aud: Option<string>, exp: Option<int>, fp: Option<string>, iat: Option<int>, sid: Option<string>,
    sub: Option<string>, v: Option<int>)

  /**
   * What the service does not do itself. `lenient` is base64 decoding of text outside the alphabet.
   */
  datatype Functions = Functions(
    hmac: (string, string) -> seq<Byte>,
    hash: string -> string,
    dumps: Claims -> seq<Byte>,
    loads: seq<Byte> -> Option<Claims>,
    lenient: string -> Option<seq<Byte>>
  ) {
    ghost predicate JsonRoundTrips() {
      forall claims :: loads(dumps(claims)) == Some(claims)
    }

    function Sign(value: string, secret: string): string {
      Encode(hmac(value, secret))
    }

    function Fingerprint(userAgent: string, secret: string): string {
      Sign("fingerprint:" + if |userAgent| > 300 then userAgent[..300] else userAgent, secret)
    }

    function Mint(claims: Claims, secret: string): string {
      var payload := Encode(dumps(claims));
      payload + "." + Sign(payload, secret)
    }

    /** `_decode_session_cookie` */
    function DecodeCookie(value: string, secret: string): Option<Claims> {
      var parts := Split(value);
      if |parts| != 2 || Sign(parts[0], secret) != parts[1] then
        None
      else
        match if IsEncoded(parts[0]) then Decode(parts[0]) else lenient(parts[0])
        case None => None
        case Some(bytes) => loads(bytes)
    }

    /** A minted cookie decodes to its own claims. */
    lemma MintedCookieDecodes(claims: Claims, secret: string)
      requires JsonRoundTrips()
      ensures DecodeCookie(Mint(claims, secret), secret) == Some(claims)
    {
      var payload := Encode(dumps(claims));
      NoDots(payload);
      NoDots(Sign(payload, secret));
      SplitInTwo(payload, Sign(payload, secret));
      Base64Url.RoundTrip(dumps(claims));
    }

    /** Whatever the secrets, a cookie that decodes at all decodes to the same claims. */
    lemma ClaimsDoNotDependOnTheSecret(value: string, one: string, other: string)
      requires DecodeCookie(value, one).Some? && DecodeCookie(value, other).Some?
      ensures DecodeCookie(value, one) == DecodeCookie(value, other)
    {}
  }

  /** `value.split(".")` */
  function Split(value: string): (parts: seq<string>)
    ensures |parts| > 0
  {
    if value == "" then
      [""]
    else
      var rest := Split(value[1..]);
      if value[0] == '.' then [""] + rest else [[value[0]] + rest[0]] + rest[1..]
  }

  lemma {:induction false} SplitInOne(value: string)
    requires '.' !in value
    ensures Split(value) == [value]
  {
    if value != "" {
      SplitInOne(value[1..]);
      assert value == [value[0]] + value[1..];
    }
  }

  lemma {:induction false} SplitInTwo(one: string, other: string)
    requires '.' !in one && '.' !in other
    ensures Split(one + "." + other) == [one, other]
  {
    var value := one + "." + other;
    if one == "" {
      assert value[1..] == other;
      SplitInOne(other);
    } else {
      assert value[1..] == one[1..] + "." + other;
      SplitInTwo(one[1..], other);
      assert one == [one[0]] + one[1..];
    }
  }

  lemma {:induction false} SplitIsUndone(value: string)
    ensures |Split(value)| == 1 ==> value == Split(value)[0]
    ensures |Split(value)| == 2 ==> value == Split(value)[0] + "." + Split(value)[1]
  {
    if value != "" {
      var rest := Split(value[1..]);
      SplitIsUndone(value[1..]);
      assert value == [value[0]] + value[1..];
      if value[0] == '.' {
        assert Split(value) == [""] + rest;
      } else {
        assert Split(value) == [[value[0]] + rest[0]] + rest[1..];
      }
    }
  }

  datatype Row = Row(username: string, expiresAt: int, revokedAt: Option<int>)

  type Rows = map<string, Row>

  /** The circumstances of a request. */
  datatype Request = Request(userAgent: string, now: int, secret: Option<string>, admin: string)

  datatype Context = Context(username: string, sessionIdHash: string, expiresAt: int)

  /** `int(moment.timestamp())` for moments after the epoch */
  function Epoch(moment: int): int {
    moment / SECOND
  }

  /** What `validate_session_cookie` asks of the claims. */
  predicate AreAcceptable(claims: Claims, request: Request, functions: Functions)
    requires request.secret.Some?
  {
    && claims.aud == Some(AUDIENCE) && claims.v == Some(VERSION)
    && claims.sub == Some(request.admin)
    && claims.exp.Some? && claims.exp.value > Epoch(request.now)
    && claims.iat.Some? && claims.iat.value <= Epoch(request.now) + 60
    && claims.sid.Some? && claims.sid.value != ""
    && claims.fp == Some(functions.Fingerprint(request.userAgent, request.secret.value))
  }

  function Validate(rows: Rows, value: string, request: Request, functions: Functions): Option<Context> {
    if value == "" || request.secret.None? then
      None
    else
      match functions.DecodeCookie(value, request.secret.value)
      case None => None
      case Some(claims) =>
        if !AreAcceptable(claims, request, functions) then
          None
        else
          var hash := functions.hash(claims.sid.value);
          match Get(rows, hash)
          case None => None
          case Some(row) =>
            if row.revokedAt.Some? || row.expiresAt <= request.now then None
            else Some(Context(row.username, hash, row.expiresAt))
  }

  /** Which row a cookie stands for, if the service can tell. */
  function RowOf(value: string, secret: Option<string>, functions: Functions): Option<string> {
    if value == "" || secret.None? then
      None
    else
      match functions.DecodeCookie(value, secret.value)
      case None => None
      case Some(claims) => if claims.sid.Some? then Some(functions.hash(claims.sid.value)) else None
  }

  predicate IsRevoked(rows: Rows, hash: string) {
    hash in rows && rows[hash].revokedAt.Some?
  }

  /** What every operation keeps: revoked rows stay, as they were. */
  ghost predicate KeepsRevocations(before: Rows, after: Rows) {
    forall hash :: IsRevoked(before, hash) ==> hash in after && after[hash] == before[hash]
  }

  lemma KeepingIsTransitive(first: Rows, second: Rows, third: Rows)
    requires KeepsRevocations(first, second) && KeepsRevocations(second, third)
    ensures KeepsRevocations(first, third)
  {}

  /** What changes the table: a login, and a logout with whatever a client sends as its cookie. */
  datatype Operation =
    | Creation(username: string, random: seq<Byte>, request: Request)
    | Revocation(value: string, request: Request)
  {
    /** The operation revokes the row with this hash. */
    predicate Revokes(hash: string, functions: Functions) {
      Revocation? && RowOf(value, request.secret, functions) == Some(hash)
    }
  }

  function Revoked(rows: Rows, hash: Option<string>, now: int): Rows {
    if hash.Some? && hash.value in rows && rows[hash.value].revokedAt.None? then
      rows[hash.value := rows[hash.value].(revokedAt := Some(now))]
    else
      rows
  }

  function Created(rows: Rows, username: string, random: seq<Byte>, request: Request, functions: Functions): Rows {
    var hash := functions.hash(Encode(random));
    if request.secret.None? || hash in rows then rows else rows[hash := Row(username, request.now + TTL, None)]
  }

  function After(rows: Rows, operation: Operation, functions: Functions): Rows {
    match operation
    case Creation(username, random, request) => Created(rows, username, random, request, functions)
    case Revocation(value, request) => Revoked(rows, RowOf(value, request.secret, functions), request.now)
  }

  function Run(rows: Rows, operations: seq<Operation>, functions: Functions): Rows {
    if operations == [] then rows
    else After(Run(rows, operations[..|operations| - 1], functions), operations[|operations| - 1], functions)
  }

  lemma {:induction false} RunKeepsRevocations(rows: Rows, operations: seq<Operation>, functions: Functions)
    ensures KeepsRevocations(rows, Run(rows, operations, functions))
  {
    if operations != [] {
      var before := Run(rows, operations[..|operations| - 1], functions);
      RunKeepsRevocations(rows, operations[..|operations| - 1], functions);
      KeepingIsTransitive(rows, before, Run(rows, operations, functions));
    }
  }

  lemma RevokedRowIsRefused(rows: Rows, value: string, secret: string, request: Request, functions: Functions)
    requires RowOf(value, Some(secret), functions).Some?
    requires IsRevoked(rows, RowOf(value, Some(secret), functions).value)
    ensures Validate(rows, value, request, functions) == None
  {}

  /**
   * A cookie that is revoked fails validation after whatever logins and logouts follow, for every request: at any time,
   * from any browser, under any secret.
   */
  lemma RevokedCookieIsDead(rows: Rows, value: string, logout: Request, later: seq<Operation>, request: Request,
                            functions: Functions)
    requires RowOf(value, logout.secret, functions).Some? && RowOf(value, logout.secret, functions).value in rows
    ensures Validate(Run(After(rows, Revocation(value, logout), functions), later, functions), value, request,
                     functions) == None
  {
    var revoked := After(rows, Revocation(value, logout), functions);
    RunKeepsRevocations(revoked, later, functions);
    RevokedRowIsRefused(Run(revoked, later, functions), value, logout.secret.value, request, functions);
  }

  predicate SomeRevokes(operations: seq<Operation>, hash: string, functions: Functions) {
    exists operation :: operation in operations && operation.Revokes(hash, functions)
  }

  lemma OneMoreOperation(operations: seq<Operation>, hash: string, functions: Functions)
    requires operations != []
    ensures SomeRevokes(operations, hash, functions) <==>
              || SomeRevokes(operations[..|operations| - 1], hash, functions)
              || operations[|operations| - 1].Revokes(hash, functions)
  {
    var earlier, last := operations[..|operations| - 1], operations[|operations| - 1];
    assert operations == earlier + [last];
    if SomeRevokes(earlier, hash, functions) {
      var operation :| operation in earlier && operation.Revokes(hash, functions);
      assert operation in operations;
    }
  }

  lemma OneOperation(rows: Rows, operation: Operation, hash: string, functions: Functions)
    requires hash in rows
    ensures var row := Get(After(rows, operation, functions), hash);
            if rows[hash].revokedAt.None? && operation.Revokes(hash, functions)
            then row.Some? && row.value.revokedAt.Some?
            else row == Some(rows[hash])
  {}

  /** A live row is revoked by the operations that name it and by no other. */
  lemma {:induction false} LiveUntilRevoked(rows: Rows, operations: seq<Operation>, hash: string, functions: Functions)
    requires hash in rows && rows[hash].revokedAt.None?
    ensures var row := Get(Run(rows, operations, functions), hash);
            if SomeRevokes(operations, hash, functions) then row.Some? && row.value.revokedAt.Some?
            else row == Some(rows[hash])
  {
    if operations != [] {
      var earlier, last := operations[..|operations| - 1], operations[|operations| - 1];
      LiveUntilRevoked(rows, earlier, hash, functions);
      OneMoreOperation(operations, hash, functions);
      OneOperation(Run(rows, earlier, functions), last, hash, functions);
    }
  }

  /**
   * Only a cookie this service signed is ever accepted, and only while its own row is there, unrevoked and unexpired.
   */
  lemma AcceptedCookieIsGenuine(rows: Rows, value: string, request: Request, functions: Functions)
    requires Validate(rows, value, request, functions).Some?
    ensures request.secret.Some?
    ensures exists payload :: value == payload + "." + functions.Sign(payload, request.secret.value)
    ensures var context := Validate(rows, value, request, functions).value;
            && RowOf(value, request.secret, functions) == Some(context.sessionIdHash)
            && Get(rows, context.sessionIdHash) == Some(Row(context.username, context.expiresAt, None))
            && request.now < context.expiresAt
  {
    SplitIsUndone(value);
    var payload := Split(value)[0];
    assert value == payload + "." + functions.Sign(payload, request.secret.value);
  }

  /** The session table and the operations on it. */
  class Sessions {
    const functions: Functions
    var rows: Rows

    constructor (functions: Functions)
      ensures this.functions == functions && rows == map[]
    {
      this.functions, rows := functions, map[];
    }

    /** `create_admin_session`; a session id whose hash is taken is refused by the table's unique column. */
    method Create(username: string, random: seq<Byte>, request: Request) returns (cookie: Option<string>)
      requires request.secret.Some?
      modifies this
      ensures KeepsRevocations(old(rows), rows)
      ensures var hash := functions.hash(Encode(random));
              && (cookie.Some? <==> hash !in old(rows))
              && (cookie.Some? ==> rows == old(rows)[hash := Row(username, request.now + TTL, None)])
              && (cookie.None? ==> rows == old(rows))
      ensures rows == After(old(rows), Creation(username, random, request), functions)
      ensures cookie.Some? ==>
                cookie == Some(functions.Mint(ClaimsOf(username, random, request, functions), request.secret.value))
    {
      var sessionId := Encode(random);
      var hash := functions.hash(sessionId);
      var value := functions.Mint(ClaimsOf(username, random, request, functions), request.secret.value);
      if hash in rows {
        return None;
      }
      rows := rows[hash := Row(username, request.now + TTL, None)];
      cookie := Some(value);
    }

    /** `revoke_admin_session`: the hash of the session, if the cookie is one of ours. */
    method Revoke(value: string, request: Request) returns (hash: Option<string>)
      modifies this
      ensures KeepsRevocations(old(rows), rows)
      ensures hash == RowOf(value, request.secret, functions)
      ensures rows.Keys == old(rows).Keys
      ensures hash.Some? && hash.value in old(rows) ==> IsRevoked(rows, hash.value)
      ensures forall other :: other in rows && Some(other) != hash ==> rows[other] == old(rows)[other]
      ensures rows == After(old(rows), Revocation(value, request), functions)
      ensures forall later, again :: hash.Some? && hash.value in old(rows) ==>
                                       Validate(Run(rows, later, functions), value, again, functions) == None
    {
      hash := RowOf(value, request.secret, functions);
      if hash.Some? && hash.value in rows && rows[hash.value].revokedAt.None? {
        rows := rows[hash.value := rows[hash.value].(revokedAt := Some(request.now))];
      }
      if hash.Some? && hash.value in rows {
        forall later, again
          ensures Validate(Run(rows, later, functions), value, again, functions) == None
        {
          RevokedCookieIsDead(old(rows), value, request, later, again, functions);
        }
      }
    }
  }

  function ClaimsOf(username: string, random: seq<Byte>, request: Request, functions: Functions): Claims
    requires request.secret.Some?
  {
    Claims(Some(AUDIENCE), Some(Epoch(request.now + TTL)),
           Some(functions.Fingerprint(request.userAgent, request.secret.value)),
           Some(Epoch(request.now)), Some(Encode(random)), Some(username), Some(VERSION))
  }

  /** The cookie is used by the administrator it was made for, from the same browser and before its session expires. */
  predicate IsRightfulUse(username: string, made: Request, request: Request, functions: Functions)
    requires made.secret.Some?
  {
    && username == request.admin
    && functions.Fingerprint(made.userAgent, made.secret.value) ==
      functions.Fingerprint(request.userAgent, made.secret.value)
    && Epoch(request.now) < Epoch(made.now + TTL)
  }

  lemma LiveCookieIsAccepted(rows: Rows, username: string, random: seq<Byte>, made: Request, request: Request,
                             functions: Functions)
    requires functions.JsonRoundTrips() && random != [] && made.secret.Some? && request.secret == made.secret
    requires Get(rows, functions.hash(Encode(random))) == Some(Row(username, made.now + TTL, None))
    requires made.now <= request.now
    ensures Validate(rows, functions.Mint(ClaimsOf(username, random, made, functions), made.secret.value), request,
                     functions).Some?
       <==> IsRightfulUse(username, made, request, functions)
  {
    var claims := ClaimsOf(username, random, made, functions);
    functions.MintedCookieDecodes(claims, made.secret.value);
    NotEmpty(random);
    EpochIsMonotonic(made.now, request.now);
    EpochIsMonotonic(made.now + TTL, request.now);
  }

  /**
   * The whole life of a session: after a login and whatever logins and logouts follow, its cookie is accepted exactly
   * for rightful uses, and only if none of those logouts was made with a cookie of this session.
   */
  lemma NewCookieIsAccepted(rows: Rows, username: string, random: seq<Byte>, made: Request, later: seq<Operation>,
                            request: Request, functions: Functions)
    requires functions.JsonRoundTrips() && random != [] && made.secret.Some? && request.secret == made.secret
    requires functions.hash(Encode(random)) !in rows && made.now <= request.now
    ensures var cookie := functions.Mint(ClaimsOf(username, random, made, functions), made.secret.value);
            var table := Run(After(rows, Creation(username, random, made), functions), later, functions);
            Validate(table, cookie, request, functions).Some? <==>
              && IsRightfulUse(username, made, request, functions)
              && !SomeRevokes(later, functions.hash(Encode(random)), functions)
  {
    var hash, created := functions.hash(Encode(random)), After(rows, Creation(username, random, made), functions);
    var table := Run(created, later, functions);
    LiveUntilRevoked(created, later, hash, functions);
    if SomeRevokes(later, hash, functions) {
      RevokedSessionIsRefused(table, username, random, made, request, functions);
    } else {
      LiveCookieIsAccepted(table, username, random, made, request, functions);
    }
  }

  lemma RevokedSessionIsRefused(rows: Rows, username: string, random: seq<Byte>, made: Request, request: Request,
                                functions: Functions)
    requires functions.JsonRoundTrips() && made.secret.Some? && IsRevoked(rows, functions.hash(Encode(random)))
    ensures Validate(rows, functions.Mint(ClaimsOf(username, random, made, functions), made.secret.value), request,
                     functions) == None
  {
    var claims := ClaimsOf(username, random, made, functions);
    var cookie := functions.Mint(claims, made.secret.value);
    functions.MintedCookieDecodes(claims, made.secret.value);
    if request.secret.Some? && functions.DecodeCookie(cookie, request.secret.value).Some? {
      functions.ClaimsDoNotDependOnTheSecret(cookie, made.secret.value, request.secret.value);
    }
  }

  lemma EpochIsMonotonic(one: int, other: int)
    ensures one <= other ==> Epoch(one) <= Epoch(other)
  {}
}
