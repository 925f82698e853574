/**
 * The `api-tokens-management` edge function: a clinic admin lists, creates and revokes
 * the API tokens of their clinic. A token is 32 random bytes printed in lowercase hex; only
 * the hex of its SHA-256 digest is stored, and lists show the digest's last four digits.
 * The random bytes and the digest function come from the runtime and are parameters here.
 */
module ApiTokens {
  import opened Wrappers
  import opened Records
  import opened Seqs
  import opened Paths
  import opened Store
  import opened Edge
  import opened Clock
  import opened Hex

  /* ---------- token text ---------- */

  /** `generateSecureToken`: the 32 random bytes in lowercase hex. */
  function SecureToken(random: seq<byte>): (t: string)
    ensures |random| == 32 ==> |t| == 64
    ensures forall i :: 0 <= i < |t| ==> IsHexDigit(t[i])
    ensures Decode(t) == Some(random)
  {
    DecodeEncode(random);
    Encode(random)
  }

  /**
   * `hashToken`: the digest of the token's text in lowercase hex. `sha256` stands for
   * `crypto.subtle.digest('SHA-256', new TextEncoder().encode(token))`.
   */
  function HashToken(token: string, sha256: string -> seq<byte>): (h: string)
    ensures |sha256(token)| == 32 ==> |h| == 64
    ensures forall i :: 0 <= i < |h| ==> IsHexDigit(h[i])
    ensures Decode(h) == Some(sha256(token))
  {
    DecodeEncode(sha256(token));
    Encode(sha256(token))
  }

  /** Two different random draws give two different tokens. */
  lemma TokensOfDifferentBytesDiffer(a: seq<byte>, b: seq<byte>)
    requires a != b
    ensures SecureToken(a) != SecureToken(b)
  {
    if SecureToken(a) == SecureToken(b) {
      EncodeInjective(a, b);
    }
  }

  /** `s.slice(-4)`: the last four characters, or all of a shorter string. */
  function Last4(s: string): (r: string)
    ensures |r| == if |s| < 4 then |s| else 4
    ensures r == s[|s| - |r|..]
  {
    if |s| < 4 then s else s[|s| - 4..]
  }

  /** `token_preview`: four asterisks, then the last four digits of the stored hash. */
  function Preview(hash: string): (p: string)
    ensures |p| >= 4 && p[..4] == "****" && p[4..] == Last4(hash)
  {
    "****" + Last4(hash)
  }

  /** A preview of a 64-digit hash is 8 characters and reveals only its last four digits. */
  lemma PreviewOfHash(token: string, sha256: string -> seq<byte>)
    requires |sha256(token)| == 32
    ensures var h := HashToken(token, sha256);
      |Preview(h)| == 8 && Preview(h)[4..] == h[60..]
  {
  }

  /* ---------- name trimming ---------- */

  /** The characters `String.prototype.trim` removes: white space and line terminators. */
  predicate IsJsWhitespace(c: char)
  {
    || c == '\t' || c == '\n' || c == '\U{000B}' || c == '\U{000C}' || c == '\r' || c == ' '
    || c == '\U{00A0}' || c == '\U{1680}' || ('\U{2000}' <= c <= '\U{200A}')
    || c == '\U{2028}' || c == '\U{2029}' || c == '\U{202F}' || c == '\U{205F}'
    || c == '\U{3000}' || c == '\U{FEFF}'
  }

  /** Drop leading white space: the result is a suffix that starts with no white space. */
  function TrimStart(s: string): (r: string)
    ensures |r| <= |s| && r == s[|s| - |r|..]
    ensures forall i :: 0 <= i < |s| - |r| ==> IsJsWhitespace(s[i])
    ensures r == [] || !IsJsWhitespace(r[0])
  {
    if s == [] || !IsJsWhitespace(s[0]) then s else TrimStart(s[1..])
  }

  /** Drop trailing white space: the result is a prefix that ends with no white space. */
  function TrimEnd(s: string): (r: string)
    ensures |r| <= |s| && r == s[..|r|]
    ensures forall i :: |r| <= i < |s| ==> IsJsWhitespace(s[i])
    ensures r == [] || !IsJsWhitespace(r[|r| - 1])
  {
    if s == [] || !IsJsWhitespace(s[|s| - 1]) then s else TrimEnd(s[..|s| - 1])
  }

  /** `s.trim()`. */
  function Trim(s: string): string
  {
    TrimEnd(TrimStart(s))
  }

  /**
   * The trimmed name is the stretch of the original between white space at its start and
   * white space at its end, and has no white space at either of its own ends.
   */
  lemma TrimIsInnerStretch(s: string) returns (i: int, j: int)
    ensures 0 <= i <= j <= |s| && Trim(s) == s[i..j]
    ensures forall k :: 0 <= k < i ==> IsJsWhitespace(s[k])
    ensures forall k :: j <= k < |s| ==> IsJsWhitespace(s[k])
    ensures Trim(s) == [] || (!IsJsWhitespace(Trim(s)[0]) && !IsJsWhitespace(Trim(s)[|Trim(s)| - 1]))
  {
    var u := TrimStart(s);
    i := |s| - |u|;
    j := i + |TrimEnd(u)|;
    TrimIsSlice(s, u, i);
    TrailIsWhitespace(s, u, i);
    TrimEndsAreNotWhitespace(s);
  }

  /** Trimming the end of a suffix leaves a stretch of the original. */
  lemma TrimIsSlice(s: string, u: string, i: int)
    requires 0 <= i <= |s| && u == s[i..]
    ensures i + |TrimEnd(u)| <= |s| && TrimEnd(u) == s[i..i + |TrimEnd(u)|]
  {
    var t := TrimEnd(u);
    assert t == u[..|t|];
    assert u[..|t|] == s[i..i + |t|];
  }

  /** What trimming the end of a suffix drops is white space of the original. */
  lemma TrailIsWhitespace(s: string, u: string, i: int)
    requires 0 <= i <= |s| && u == s[i..]
    ensures forall k :: i + |TrimEnd(u)| <= k < |s| ==> IsJsWhitespace(s[k])
  {
    var t := TrimEnd(u);
    forall k | i + |t| <= k < |s|
      ensures IsJsWhitespace(s[k])
    {
      assert s[k] == u[k - i];
    }
  }

  /** The trimmed name neither starts nor ends with white space. */
  lemma TrimEndsAreNotWhitespace(s: string)
    ensures Trim(s) == [] || (!IsJsWhitespace(Trim(s)[0]) && !IsJsWhitespace(Trim(s)[|Trim(s)| - 1]))
  {
    var u := TrimStart(s);
    var t := TrimEnd(u);
    if t != [] {
      assert t == u[..|t|];
      assert t[0] == u[0];
    }
  }

  /** Trimming twice is trimming once. */
  lemma TrimIdempotent(s: string)
    ensures Trim(Trim(s)) == Trim(s)
  {
    var t := Trim(s);
    var _, _ := TrimIsInnerStretch(s);
    if t != [] {
      assert TrimStart(t) == t;
    }
  }

  /** A name trims to nothing exactly when it is all white space. */
  lemma TrimEmptyIffBlank(s: string)
    ensures Trim(s) == [] <==> forall i :: 0 <= i < |s| ==> IsJsWhitespace(s[i])
  {
    var u := TrimStart(s);
    if !(forall i :: 0 <= i < |s| ==> IsJsWhitespace(s[i])) {
      var k :| 0 <= k < |s| && !IsJsWhitespace(s[k]);
      assert k >= |s| - |u|;
      assert u[k - (|s| - |u|)] == s[k];
    }
  }

  /* ---------- the request ---------- */

  /** A JSON value of the request body, as far as the endpoint tells kinds apart. */
  datatype Json = Absent | Text(text: string) | Number(n: int) | OtherJson

  /** The name check: a string that does not trim to nothing. */
  predicate ValidName(name: Json)
  {
    name.Text? && Trim(name.text) != ""
  }

  /**
   * The expiry a creation asks for: none, an instant, or a date past the range of `Date`,
   * whose `toISOString()` throws.
   */
  datatype Expiry = NoExpiry | ExpiresOn(at: int) | OutOfRange

  /**
   * `expires_at`: set only for a positive number of days, that many days from now, as long
   * as that day is still a valid `Date`.
   */
  function ExpiresAt(now: int, expiresInDays: Json): (r: Expiry)
    ensures !r.NoExpiry? <==> expiresInDays.Number? && expiresInDays.n > 0
    ensures r.ExpiresOn? <==> (expiresInDays.Number? && expiresInDays.n > 0
                               && ValidTime(AddDays(now, expiresInDays.n)))
    ensures r.ExpiresOn? ==> ValidTime(r.at) && r.at > now && Day(r.at) == Day(now) + expiresInDays.n
  {
    if expiresInDays.Number? && expiresInDays.n > 0 then
      AddDaysShiftsDay(now, expiresInDays.n);
      var t := AddDays(now, expiresInDays.n);
      if ValidTime(t) then ExpiresOn(t) else OutOfRange
    else NoExpiry
  }

  /** The `expires_at` column of a creation that did not fail. */
  function StoredExpiry(e: Expiry): Option<int>
  {
    if e.ExpiresOn? then Some(e.at) else None
  }

  datatype Request = Request(verb: Method, cred: Credential, path: string, name: Json, expiresInDays: Json)

  /** What the runtime supplies besides the store: the random bytes and the digest function. */
  datatype TokenEnv = TokenEnv(store: Env, random: seq<byte>, sha256: string -> seq<byte>)

  /** A token as listed: no hash, only its preview. */
  datatype TokenView = TokenView(
    id: Id, name: string, createdAt: int, lastUsedAt: Option<int>, expiresAt: Option<int>,
    isActive: bool, preview: string)

  datatype Payload =
    | Views(tokens: seq<TokenView>)
    | Created(id: Id, name: string, createdAt: int, expiresAt: Option<int>, token: string, preview: string)
    | Deleted

  function Sanitize(t: ApiToken): TokenView
  {
    TokenView(t.id, t.name, t.createdAt, t.lastUsedAt, t.expiresAt, t.isActive, Preview(t.tokenHash))
  }

  function OwnedBy(userId: Id, clinicId: Id): ApiToken -> bool
  {
    (t: ApiToken) => t.userId == userId && t.clinicId == clinicId
  }

  function IdOwnedBy(id: Id, userId: Id, clinicId: Id): ApiToken -> bool
  {
    (t: ApiToken) => t.id == id && t.userId == userId && t.clinicId == clinicId
  }

  /** `order('created_at', { ascending: false })`. */
  function NewestToken(): (ApiToken, ApiToken) -> bool
  {
    (a: ApiToken, b: ApiToken) => a.createdAt >= b.createdAt
  }

  function ListRows(d: Db, userId: Id, clinicId: Id): seq<ApiToken>
  {
    SortBy(Filter(d.apiTokens, OwnedBy(userId, clinicId)), NewestToken())
  }

  function Fail(d: Db, status: int): (Db, Response<Payload>)
  {
    (d, Response(status, None))
  }

  function CreateSpec(d: Db, userId: Id, clinicId: Id, req: Request, env: TokenEnv): (Db, Response<Payload>)
  {
    if !ValidName(req.name) then Fail(d, 400)
    else
      var token := SecureToken(env.random);
      var hash := HashToken(token, env.sha256);
      var expiry := ExpiresAt(env.store.now, req.expiresInDays);
      var expires := StoredExpiry(expiry);
      var row := ApiToken(env.store.newId, userId, clinicId, Trim(req.name.text), hash,
                          env.store.now, None, expires, true);
      if expiry.OutOfRange? then Fail(d, 500)
      else if env.store.fault || IdTaken(d.apiTokens, ApiTokenId, env.store.newId) then Fail(d, 500)
      else (d.(apiTokens := d.apiTokens + [row]),
            Response(201, Some(Created(row.id, row.name, row.createdAt, expires, token, Preview(hash)))))
  }

  /** One request, from the store before it to the store after it and the response. */
  function Spec(d: Db, req: Request, env: TokenEnv): (out: (Db, Response<Payload>))
    ensures out.0 == d.(apiTokens := out.0.apiTokens)
    ensures out.1.status != 200 && out.1.status != 201 ==> out.0 == d
    ensures out.1.status in {200, 201, 400, 401, 403, 405, 500}
  {
    if req.verb == Options then (d, Response(200, None))
    else match ResolveAdminClinic(d.userRoles, req.cred)
      case Denied(s) => Fail(d, s)
      case Caller(userId, clinicId) =>
        var tokenId := LastPiece(req.path);
        if req.verb == Get then
          if env.store.fault then Fail(d, 500)
          else (d, Response(200, Some(Views(Map(ListRows(d, userId, clinicId), Sanitize)))))
        else if req.verb == Post then CreateSpec(d, userId, clinicId, req, env)
        else if req.verb == Delete && tokenId != "" then
          if env.store.fault then Fail(d, 500)
          else (d.(apiTokens := Filter(d.apiTokens, Not(IdOwnedBy(tokenId, userId, clinicId)))),
                Response(200, Some(Deleted)))
        else Fail(d, 405)
  }

  /** The handler as the edge function runs it. */
  method Handle(db: Database, req: Request, env: TokenEnv) returns (resp: Response<Payload>)
    modifies db
    ensures (db.Snapshot(), resp) == Spec(old(db.Snapshot()), req, env)
  {
    if req.verb == Options {
      return Response(200, None);
    }
    var caller := ResolveAdminClinic(db.userRoles, req.cred);
    if caller.Denied? {
      return Response(caller.status, None);
    }
    var userId, clinicId := caller.userId, caller.clinicId;
    var tokenId := LastPiece(req.path);
    if req.verb == Get {
      if env.store.fault {
        return Response(500, None);
      }
      var tokens := ListRows(db.Snapshot(), userId, clinicId);
      return Response(200, Some(Views(Map(tokens, Sanitize))));
    }
    if req.verb == Post {
      resp := Create(db, userId, clinicId, req, env);
      return;
    }
    if req.verb == Delete && tokenId != "" {
      if env.store.fault {
        return Response(500, None);
      }
      db.apiTokens := Filter(db.apiTokens, Not(IdOwnedBy(tokenId, userId, clinicId)));
      return Response(200, Some(Deleted));
    }
    resp := Response(405, None);
  }

  /** Token creation: validate the name, draw and hash the token, work out the expiry, insert. */
  method Create(db: Database, userId: Id, clinicId: Id, req: Request, env: TokenEnv) returns (resp: Response<Payload>)
    modifies db
    ensures (db.Snapshot(), resp) == CreateSpec(old(db.Snapshot()), userId, clinicId, req, env)
  {
    if !ValidName(req.name) {
      return Response(400, None);
    }
    var token := SecureToken(env.random);
    var hash := HashToken(token, env.sha256);
    var expiresAt: Option<int> := None;
    if req.expiresInDays.Number? && req.expiresInDays.n > 0 {
      var t := AddDays(env.store.now, req.expiresInDays.n);
      if !ValidTime(t) {
        // `toISOString()` of the invalid date throws, and the outer catch answers 500
        return Response(500, None);
      }
      expiresAt := Some(t);
    }
    if env.store.fault || IdTaken(db.apiTokens, ApiTokenId, env.store.newId) {
      return Response(500, None);
    }
    var row := ApiToken(env.store.newId, userId, clinicId, Trim(req.name.text), hash,
                        env.store.now, None, expiresAt, true);
    db.apiTokens := db.apiTokens + [row];
    resp := Response(201, Some(Created(row.id, row.name, row.createdAt, expiresAt, token, Preview(hash))));
  }

  /* ---------- what the endpoint promises ---------- */

  /** Anyone who is not the admin of exactly one clinic is refused with 403, whatever the method. */
  lemma OnlyAdminsManageTokens(d: Db, req: Request, env: TokenEnv)
    requires req.verb != Options && req.cred.Verified?
    requires forall i :: 0 <= i < |d.userRoles| && d.userRoles[i].userId == req.cred.userId
                         ==> d.userRoles[i].role != ClinicAdminRole
    ensures Spec(d, req, env) == (d, Response(403, None))
  {
    NonAdminRefused(d.userRoles, req.cred.userId);
  }

  /**
   * A list holds exactly the caller's own tokens in the caller's clinic, each as often as
   * stored, newest first. Each is shown as `Sanitize` shows it: no hash, only its preview.
   */
  lemma ListShowsOwnTokens(d: Db, userId: Id, clinicId: Id)
    ensures var rows := ListRows(d, userId, clinicId);
      && (forall t :: t in rows <==> t in d.apiTokens && t.userId == userId && t.clinicId == clinicId)
      && multiset(rows) == multiset(Filter(d.apiTokens, OwnedBy(userId, clinicId)))
      && (forall i, j :: 0 <= i < j < |rows| ==> rows[i].createdAt >= rows[j].createdAt)
  {
    var kept := Filter(d.apiTokens, OwnedBy(userId, clinicId));
    var rows := ListRows(d, userId, clinicId);
    SortByIsOrdering(kept, NewestToken());
    forall t | t in d.apiTokens && t.userId == userId && t.clinicId == clinicId
      ensures t in kept
    {
      var k :| 0 <= k < |d.apiTokens| && d.apiTokens[k] == t;
    }
    forall i, j | 0 <= i < j < |rows|
      ensures rows[i].createdAt >= rows[j].createdAt
    {
      assert NewestToken()(rows[i], rows[j]);
    }
  }

  /** A listed token carries its preview instead of its hash; the other columns are the row's. */
  lemma SanitizeHidesHash(t: ApiToken)
    ensures var v := Sanitize(t);
      && v.preview == "****" + Last4(t.tokenHash)
      && (|t.tokenHash| == 64 ==> |v.preview| == 8)
      && v.id == t.id && v.name == t.name && v.createdAt == t.createdAt
      && v.lastUsedAt == t.lastUsedAt && v.expiresAt == t.expiresAt && v.isActive == t.isActive
  {
  }

  /** POST with a missing, non-text or blank name is refused with 400 and stores nothing. */
  lemma CreateNeedsName(d: Db, userId: Id, clinicId: Id, req: Request, env: TokenEnv)
    requires !req.name.Text? || forall i :: 0 <= i < |req.name.text| ==> IsJsWhitespace(req.name.text[i])
    ensures CreateSpec(d, userId, clinicId, req, env) == (d, Response(400, None))
  {
    if req.name.Text? {
      TrimEmptyIffBlank(req.name.text);
    }
  }

  /**
   * A successful POST stores one active, never-used row for the caller with the trimmed
   * name and the hash of the token; the plaintext token appears in the response only, with
   * the preview of its hash, and the expiry is set only for a positive number of days.
   */
  lemma CreateStoresHashReturnsTokenOnce(d: Db, userId: Id, clinicId: Id, req: Request, env: TokenEnv)
    requires CreateSpec(d, userId, clinicId, req, env).1.status == 201
    requires |env.random| == 32 && |env.sha256(Encode(env.random))| == 32
    ensures var (d', resp) := CreateSpec(d, userId, clinicId, req, env);
      var c := resp.data.value;
      && |d'.apiTokens| == |d.apiTokens| + 1 && d'.apiTokens[..|d.apiTokens|] == d.apiTokens
      && var row := d'.apiTokens[|d.apiTokens|];
      && row.userId == userId && row.clinicId == clinicId && row.isActive && row.lastUsedAt.None?
      && row.name == Trim(req.name.text) && row.name != ""
      && |c.token| == 64 && Decode(c.token) == Some(env.random)
      && row.tokenHash == HashToken(c.token, env.sha256) && |row.tokenHash| == 64
      && c.preview == "****" + row.tokenHash[60..]
      && (row.expiresAt.Some? <==> req.expiresInDays.Number? && req.expiresInDays.n > 0)
      && c.id == row.id && c.expiresAt == row.expiresAt
  {
    assert d.apiTokens + [CreateSpec(d, userId, clinicId, req, env).0.apiTokens[|d.apiTokens|]]
        == CreateSpec(d, userId, clinicId, req, env).0.apiTokens;
  }

  /**
   * An expiry past the range of `Date` makes `toISOString()` throw before the insert: the
   * answer is 500 and nothing is stored. More than two hundred million days is out of range
   * from any valid `now`.
   */
  lemma ExpiryPastDateRangeFails(d: Db, userId: Id, clinicId: Id, req: Request, env: TokenEnv)
    requires ValidName(req.name) && ValidTime(env.store.now)
    requires req.expiresInDays.Number? && req.expiresInDays.n > 200_000_000
    ensures CreateSpec(d, userId, clinicId, req, env) == (d, Response(500, None))
  {
    var n := req.expiresInDays.n;
    assert DAY == 86_400_000;
    assert n * DAY > 200_000_000 * DAY;
    assert !ValidTime(AddDays(env.store.now, n));
  }

  /** DELETE removes only the caller's own token of that id in the caller's clinic. */
  lemma DeleteIsScoped(d: Db, req: Request, env: TokenEnv, userId: Id, clinicId: Id)
    requires req.verb == Delete && !env.store.fault
    requires ResolveAdminClinic(d.userRoles, req.cred) == Caller(userId, clinicId)
    requires LastPiece(req.path) != ""
    ensures var t := Spec(d, req, env).0.apiTokens;
      && (forall x :: x in t <==>
            (x in d.apiTokens && !(x.id == LastPiece(req.path) && x.userId == userId && x.clinicId == clinicId)))
      && Subsequence(t, d.apiTokens)
  {
    var p := Not(IdOwnedBy(LastPiece(req.path), userId, clinicId));
    FilterIsSubsequence(d.apiTokens, p);
    var t := Filter(d.apiTokens, p);
    forall x | x in d.apiTokens && p(x)
      ensures x in t
    {
      var k :| 0 <= k < |d.apiTokens| && d.apiTokens[k] == x;
    }
  }

  /** A DELETE whose path ends in a slash has no token id and is refused with 405. */
  lemma DeleteWithTrailingSlashRefused(d: Db, req: Request, env: TokenEnv, p: string)
    requires req.verb == Delete && req.path == p + "/"
    requires ResolveAdminClinic(d.userRoles, req.cred).Caller?
    ensures Spec(d, req, env) == (d, Response(405, None))
  {
    LastPieceOfPath(p, "");
  }

  /** PUT and every other method are refused with 405. */
  lemma OtherMethodsRefused(d: Db, req: Request, env: TokenEnv)
    requires req.verb == Put || req.verb.OtherMethod?
    requires ResolveAdminClinic(d.userRoles, req.cred).Caller?
    ensures Spec(d, req, env) == (d, Response(405, None))
  {
  }
}
