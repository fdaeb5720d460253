/**
 * Account logic: the signup validators, password-hash comparison, login,
 * and the bearer token that carries a session
 * (crates/server/src/logic/user.rs).
 *
 * Hashing, token signing and verification are foreign code and enter as
 * the function values of `Primitives`; the wall clock is the `now` argument.
 */
module Accounts {
  import opened Wrappers
  import opened Text
  import opened Errors
  import opened DbTypes
  import opened Db

  // ---------------------------------------------------------------------------
  // Time
  // ---------------------------------------------------------------------------

  const DAY: int := 86400

  /** How long an issued token claims to be valid. */
  const TOKEN_LIFETIME: int := 30 * DAY

  /** 9999-12-31T23:59:59Z, the last second a date-time value can hold. */
  const MAX_TIME: int := 253402300799

  /** -9999-01-01T00:00:00Z, the first second a date-time value can hold. */
  const MIN_TIME: int := -377705116800

  /** A UTC date-time value, as whole Unix seconds. */
  type Instant = t: int | MIN_TIME <= t <= MAX_TIME witness 0

  /** Date-time addition that sticks at the ends of the representable range. */
  function SaturatingAdd(t: Instant, d: int): (r: Instant)
    ensures MIN_TIME <= t + d <= MAX_TIME ==> r == t + d
    ensures t + d > MAX_TIME ==> r == MAX_TIME
    ensures t + d < MIN_TIME ==> r == MIN_TIME
  {
    if t + d > MAX_TIME then MAX_TIME else if t + d < MIN_TIME then MIN_TIME else t + d
  }

  /** `i64 as u64`: the two's-complement bit pattern read as unsigned. */
  function AsU64(x: int): (r: U64)
    ensures 0 <= x < U64_LIMIT ==> r == x
    ensures x < 0 && 0 <= x + U64_LIMIT ==> r == x + U64_LIMIT
  {
    x % U64_LIMIT
  }

  // ---------------------------------------------------------------------------
  // Foreign primitives
  // ---------------------------------------------------------------------------

  /** The registered JWT claims a token carries (section 4.1 of RFC 7519). */
  datatype Claims = Claims(iat: U64, exp: Option<U64>, sub: string)

  /**
   * Code outside the model: the password hash (BLAKE3, printed as hex),
   * Unicode's alphanumeric test, HMAC-SHA256 JWT signing and verification
   * under a raw key, and RFC 3339 formatting and parsing of date-times.
   */
  datatype Primitives = Primitives(
    hash: string -> string,
    isAlphanumeric: char -> bool,
    sign: (string, Claims) -> string,
    verify: (string, string) -> Option<Claims>,
    formatTime: Time -> string,
    parseTime: string -> Option<Time>
  )

  /** No alphanumeric character is white space, as in Unicode. */
  ghost predicate AlphanumericNotSpace(p: Primitives) {
    forall c :: p.isAlphanumeric(c) ==> !IsWhitespace(c)
  }

  /** A token signed under a key verifies under that key, giving back its claims. */
  ghost predicate TokensVerify(p: Primitives) {
    forall key, c :: p.verify(key, p.sign(key, c)) == Some(c)
  }

  // ---------------------------------------------------------------------------
  // Validators
  // ---------------------------------------------------------------------------

  const INVALID_EMAIL := "invalid email"
  const INVALID_USERNAME := "Invalid characters in username: only numbers and alphabetic characters allowed"
  const SHORT_PASSWORD := "password must be at least 8 characters long"

  /**
   * What the email check accepts: an `@` whose left side has no `@` and is
   * not blank, followed by a non-blank remainder (which may hold more `@`s).
   */
  predicate WellFormedEmail(val: string) {
    exists i {:trigger EmailSplitsAt(val, i)} :: 0 <= i < |val| && EmailSplitsAt(val, i)
  }

  /** Position `i` holds the first `@`, with non-blank text on both sides. */
  predicate EmailSplitsAt(val: string, i: int) {
    0 <= i < |val| && val[i] == '@' && '@' !in val[..i]
    && !AllWhitespace(val[..i]) && !AllWhitespace(val[i + 1..])
  }

  /** `validate_email_address`. */
  function ValidateEmail(val: string): (r: Result<(), Error>)
    ensures r.Ok? <==> WellFormedEmail(val)
    ensures r.Err? ==> r.error == Message(INVALID_EMAIL)
  {
    EmailAccepts(val);
    match SplitOnce(val, '@')
    case None => Err(Message(INVALID_EMAIL))
    case Some((a, b)) =>
      if |Trim(a)| == 0 || |Trim(b)| == 0 then Err(Message(INVALID_EMAIL)) else Ok(())
  }

  /** The split at the first `@` decides `WellFormedEmail`. */
  lemma EmailAccepts(val: string)
    ensures WellFormedEmail(val) <==>
      SplitOnce(val, '@').Some? && |Trim(SplitOnce(val, '@').value.0)| > 0 && |Trim(SplitOnce(val, '@').value.1)| > 0
  {
    var split := SplitOnce(val, '@');
    if split.Some? {
      var a, b := split.value.0, split.value.1;
      assert val[|a|] == '@' && val[..|a|] == a && val[|a| + 1..] == b;
      if |Trim(a)| > 0 && |Trim(b)| > 0 {
        assert EmailSplitsAt(val, |a|);
      }
      forall i | 0 <= i < |val| && EmailSplitsAt(val, i) ensures i == |a| {
        FirstOccurrence(val, '@', i, |a|);
      }
    }
  }

  /** Two positions that each hold the first `c` are the same position. */
  lemma FirstOccurrence(val: string, c: char, i: nat, j: nat)
    requires i < |val| && j < |val|
    requires val[i] == c && c !in val[..i]
    requires val[j] == c && c !in val[..j]
    ensures i == j
  {
  }

  /** Only the first `@` splits: a second one may sit in the domain part. */
  lemma EmailWithTwoAts()
    ensures ValidateEmail("a@b@c").Ok?
  {
    var val := "a@b@c";
    assert val[1] == '@' && val[..1] == "a" && val[2..] == "b@c";
    assert !IsWhitespace(val[..1][0]) && !IsWhitespace(val[2..][0]);
    assert EmailSplitsAt(val, 1);
  }

  /** Rust's `str::chars().all(keep)`. */
  function AllChars(s: string, keep: char -> bool): (r: bool)
    ensures r <==> forall i :: 0 <= i < |s| ==> keep(s[i])
  {
    if |s| == 0 then true
    else
      assert forall i :: 1 <= i < |s| ==> s[i] == s[1..][i - 1];
      keep(s[0]) && AllChars(s[1..], keep)
  }

  predicate ValidUsername(p: Primitives, name: string) {
    forall i :: 0 <= i < |name| ==> p.isAlphanumeric(name[i])
  }

  /** `validate_username`: every character alphanumeric; the empty name passes. */
  function ValidateUsername(p: Primitives, val: string): (r: Result<(), Error>)
    ensures r.Ok? <==> ValidUsername(p, val)
    ensures r.Err? ==> r.error == Message(INVALID_USERNAME)
    ensures val == "" ==> r.Ok?
  {
    if !AllChars(val, p.isAlphanumeric) then Err(Message(INVALID_USERNAME)) else Ok(())
  }

  /** A name that passes the username check is unchanged by trimming. */
  lemma ValidUsernameTrimmed(p: Primitives, name: string)
    requires AlphanumericNotSpace(p) && ValidUsername(p, name)
    ensures Trim(name) == name
  {
    assert NoWhitespace(name) by {
      forall i | 0 <= i < |name| ensures !IsWhitespace(name[i]) {
        assert p.isAlphanumeric(name[i]);
      }
    }
  }

  /** `validate_password`: at least eight UTF-8 bytes. */
  function ValidatePassword(val: string): (r: Result<(), Error>)
    ensures r.Err? ==> r.error == Message(SHORT_PASSWORD)
    ensures |val| >= 8 ==> r.Ok?
    ensures 4 * |val| < 8 ==> r.Err?
  {
    if Utf8Len(val) < 8 then Err(Message(SHORT_PASSWORD)) else Ok(())
  }

  /**
   * The password bound counts bytes, not characters: for ASCII text the two
   * agree, but four two-byte characters already pass.
   */
  lemma PasswordCountsBytes(val: string)
    ensures (forall i :: 0 <= i < |val| ==> val[i] as int < 0x80) ==> (ValidatePassword(val).Ok? <==> |val| >= 8)
    ensures ValidatePassword("\U{E9}\U{E9}\U{E9}\U{E9}").Ok?
  {
    var wide := "\U{E9}\U{E9}\U{E9}\U{E9}";
    assert Utf8Len(wide[3..]) == 2;
    assert Utf8Len(wide[2..]) == 2 + Utf8Len(wide[2..][1..]);
    assert wide[2..][1..] == wide[3..];
    assert Utf8Len(wide[1..]) == 2 + Utf8Len(wide[1..][1..]);
    assert wide[1..][1..] == wide[2..];
    assert wide[1..] == wide[..][1..];
  }

  // ---------------------------------------------------------------------------
  // Passwords and tokens
  // ---------------------------------------------------------------------------

  /** `validate_password_hash`: the stored hash is the hash of the offered password. */
  function ValidatePasswordHash(p: Primitives, hash: string, password: string): (ok: bool)
    ensures ok <==> p.hash(password) == hash
  {
    var offered := p.hash(password);
    hash == offered
  }

  /** A stored hash always validates the password it was made from. */
  lemma StoredHashValidates(p: Primitives, password: string)
    ensures ValidatePasswordHash(p, p.hash(password), password)
  {
  }

  /** The claims of a freshly issued token: issued now, expiring in thirty days, naming the user. */
  function TokenClaims(user: User, now: Instant): (c: Claims)
    ensures c.sub == Decimal(user.id)
    ensures c.exp.Some?
    ensures 0 <= now ==> c.iat == now
    ensures now < 0 ==> c.iat == now + U64_LIMIT
    ensures 0 <= now && now + TOKEN_LIFETIME <= MAX_TIME ==> c.exp.value == c.iat + TOKEN_LIFETIME
    ensures now + TOKEN_LIFETIME > MAX_TIME ==> c.exp.value == MAX_TIME
    ensures now < 0 && 0 <= now + TOKEN_LIFETIME ==> c.exp.value == now + TOKEN_LIFETIME
    ensures now + TOKEN_LIFETIME < 0 ==> c.exp.value == now + TOKEN_LIFETIME + U64_LIMIT
  {
    var expires := SaturatingAdd(now, TOKEN_LIFETIME);
    Claims(AsU64(now), Some(AsU64(expires)), Decimal(user.id))
  }

  /** The subject of a token reads back as the id of the user it was issued to. */
  lemma SubjectReadsBack(user: User, now: Instant)
    ensures ParseU64(TokenClaims(user, now).sub) == Some(user.id)
  {
    ParseDecimal(user.id);
  }

  /** `build_user_token`. */
  function BuildUserToken(p: Primitives, key: string, user: User, now: Instant): (token: string)
    ensures TokensVerify(p) ==> p.verify(key, token) == Some(TokenClaims(user, now))
  {
    p.sign(key, TokenClaims(user, now))
  }

  // ---------------------------------------------------------------------------
  // Login
  // ---------------------------------------------------------------------------

  const LOOKUP_FAILED := "Could not query user from db"
  const USER_NOT_FOUND := "User not found"
  const WRONG_PASSWORD := "Wrong password"
  const INVALID_SUBJECT := "Invalid 'sub' field in token: expected a u64 user id"

  /** A logged-in user and the token that proves it. */
  datatype Session = Session(user: User, token: string)

  predicate HasUserNamed(s: Store, name: string) {
    exists u :: u in s.users.Values && u.username == name
  }

  /** `u` is the user the backend returns first for `name`: the one with the least id. */
  predicate FirstNamed(s: Store, name: string, u: User) {
    && u in s.users.Values && u.username == name
    && forall v :: v in s.users.Values && v.username == name ==> u.id <= v.id
  }

  /** Ids are keys, so there is only one first user under a name. */
  lemma FirstNamedUnique(s: Store, name: string, u: User)
    requires Valid(s) && FirstNamed(s, name, u)
    ensures forall v :: FirstNamed(s, name, v) ==> v == u
  {
  }

  /** `user_login`: look the trimmed name up, compare hashes, issue a token. */
  function UserLogin(s: Store, p: Primitives, key: string, username: string, password: string, now: Instant)
    : (r: Result<Session, Error>)
    requires Valid(s)
    ensures !s.online ==> r == Err(Message(LOOKUP_FAILED))
    ensures s.online && !HasUserNamed(s, Trim(username)) ==> r == Err(Message(USER_NOT_FOUND))
    ensures r == Err(Message(WRONG_PASSWORD)) ==>
      s.online && exists u :: u in s.users.Values && u.username == Trim(username) && u.passwordHash != p.hash(password)
    ensures r.Ok? ==>
      && r.value.user in s.users.Values
      && r.value.user.username == Trim(username)
      && r.value.user.passwordHash == p.hash(password)
      && r.value.token == BuildUserToken(p, key, r.value.user, now)
    ensures s.online && HasUserNamed(s, Trim(username))
      && (forall u :: u in s.users.Values && u.username == Trim(username) ==> u.passwordHash == p.hash(password))
      ==> r.Ok?
    ensures r.Err? ==> r.error in {Message(LOOKUP_FAILED), Message(USER_NOT_FOUND), Message(WRONG_PASSWORD)}
    ensures s.online ==> r != Err(Message(LOOKUP_FAILED))
    ensures forall u :: s.online && FirstNamed(s, Trim(username), u) ==>
      && (r.Ok? <==> u.passwordHash == p.hash(password))
      && (r.Ok? ==> r.value.user == u)
      && (r.Err? ==> r == Err(Message(WRONG_PASSWORD)))
  {
    match UserLookup(s, ByName(Trim(username)))
    case Err(_) => Err(Message(LOOKUP_FAILED))
    case Ok(None) => Err(Message(USER_NOT_FOUND))
    case Ok(Some(u)) =>
      FirstNamedUnique(s, Trim(username), u);
      if !ValidatePasswordHash(p, u.passwordHash, password) then Err(Message(WRONG_PASSWORD))
      else Ok(Session(u, BuildUserToken(p, key, u, now)))
  }

  /** `load_user_for_token`: verify the signature, read the subject as an id, look it up. */
  function LoadUserForToken(s: Store, p: Primitives, key: string, token: string): (r: Result<User, Error>)
    requires Valid(s)
    ensures p.verify(key, token).None? ==> r == Err(TokenRejected)
    ensures p.verify(key, token).Some? && ParseU64(p.verify(key, token).value.sub).None? ==>
      r == Err(Message(INVALID_SUBJECT))
    ensures p.verify(key, token).Some? && ParseU64(p.verify(key, token).value.sub).Some? ==>
      var id := ParseU64(p.verify(key, token).value.sub).value;
      && (!s.online ==> r == Err(Offline))
      && (s.online && id !in s.users ==> r == Err(Message(USER_NOT_FOUND)))
      && (s.online && id in s.users ==> r == Ok(s.users[id]))
    ensures r.Ok? ==> r.value in s.users.Values
  {
    match p.verify(key, token)
    case None => Err(TokenRejected)
    case Some(claims) =>
      match ParseU64(claims.sub)
      case None => Err(Message(INVALID_SUBJECT))
      case Some(id) =>
        match UserLookup(s, ById(id))
        case Err(e) => Err(e)
        case Ok(None) =>
          assert id in s.users ==> UserSatisfies(s.users[id], ById(id));
          Err(Message(USER_NOT_FOUND))
        case Ok(Some(u)) =>
          assert u == s.users[u.id];
          Ok(u)
  }

  /** Only the subject of a verified token matters: its issue and expiry times are never consulted. */
  lemma OnlySubjectMatters(s: Store, p: Primitives, key: string, t1: string, t2: string)
    requires Valid(s)
    requires p.verify(key, t1).Some? && p.verify(key, t2).Some?
    requires p.verify(key, t1).value.sub == p.verify(key, t2).value.sub
    ensures LoadUserForToken(s, p, key, t1) == LoadUserForToken(s, p, key, t2)
  {
  }

  /** A token issued to a stored user loads that user back, whenever it was issued. */
  lemma TokenLoadsIssuer(s: Store, p: Primitives, key: string, user: User, now: Instant)
    requires Valid(s) && s.online && user in s.users.Values
    requires TokensVerify(p)
    ensures LoadUserForToken(s, p, key, BuildUserToken(p, key, user, now)) == Ok(user)
  {
    var c := TokenClaims(user, now);
    assert p.verify(key, p.sign(key, c)) == Some(c);
    SubjectReadsBack(user, now);
    var k :| k in s.users && s.users[k] == user;
  }

  // ---------------------------------------------------------------------------
  // Signup
  // ---------------------------------------------------------------------------

  /** The signup form's fields. */
  datatype Signup = Signup(username: string, email: string, password: string)

  /** The three checks of `user_signup`, in order: email, then username, then password. */
  function ValidateSignup(p: Primitives, form: Signup): (r: Result<(), Error>)
    ensures !WellFormedEmail(form.email) ==> r == Err(Message(INVALID_EMAIL))
    ensures WellFormedEmail(form.email) && !ValidUsername(p, form.username) ==>
      r == Err(Message(INVALID_USERNAME))
    ensures WellFormedEmail(form.email) && ValidUsername(p, form.username) && Utf8Len(form.password) < 8 ==>
      r == Err(Message(SHORT_PASSWORD))
    ensures r.Ok? <==> WellFormedEmail(form.email) && ValidUsername(p, form.username) && Utf8Len(form.password) >= 8
  {
    var _ :- ValidateEmail(form.email);
    var _ :- ValidateUsername(p, form.username);
    ValidatePassword(form.password)
  }

  /** `user_signup`: validate, then hash the password, then create the user. */
  function UserSignup(s: Store, p: Primitives, form: Signup, now: Time): (r: Step<User>)
    requires Valid(s)
    ensures Valid(r.store)
    ensures r.result.Err? ==> r.store == s
    ensures ValidateSignup(p, form).Err? ==> r.result == Err(ValidateSignup(p, form).error)
    ensures r.result.Ok? <==> ValidateSignup(p, form).Ok? && s.online && s.nextUserId < U64_LIMIT
    ensures r.result.Ok? ==>
      var u := r.result.value;
      && u.username == form.username && u.email == form.email
      && u.passwordHash == p.hash(form.password)
      && AddsUser(s, r.store, u)
  {
    match ValidateSignup(p, form)
    case Err(e) => Step(s, Err(e))
    case Ok(_) =>
      var passwordHash := p.hash(form.password);
      InsertUser(s, UserCreate(form.username, form.email, passwordHash), now)
  }

  /** `user_signup_and_login`: a successful signup also issues the new user's token. */
  function UserSignupAndLogin(s: Store, p: Primitives, key: string, form: Signup, now: Instant)
    : (r: Step<Session>)
    requires Valid(s)
    ensures Valid(r.store)
    ensures r.store == UserSignup(s, p, form, now).store
    ensures r.result.Ok? <==> UserSignup(s, p, form, now).result.Ok?
    ensures r.result.Err? ==> r.result.error == UserSignup(s, p, form, now).result.error
    ensures r.result.Ok? ==>
      r.result.value.user == UserSignup(s, p, form, now).result.value
      && r.result.value.token == BuildUserToken(p, key, r.result.value.user, now)
  {
    var step := UserSignup(s, p, form, now);
    match step.result
    case Err(e) => Step(step.store, Err(e))
    case Ok(u) => Step(step.store, Ok(Session(u, BuildUserToken(p, key, u, now))))
  }

  /** A user who just signed up under a fresh name can log in with the same name and password. */
  lemma SignupThenLogin(s: Store, p: Primitives, key: string, form: Signup, now: Instant, later: Instant)
    requires Valid(s) && AlphanumericNotSpace(p)
    requires !HasUserNamed(s, form.username)
    requires UserSignup(s, p, form, now).result.Ok?
    ensures var step := UserSignup(s, p, form, now);
      var u := step.result.value;
      UserLogin(step.store, p, key, form.username, form.password, later) == Ok(Session(u, BuildUserToken(p, key, u, later)))
  {
    var step := UserSignup(s, p, form, now);
    var u := step.result.value;
    ValidUsernameTrimmed(p, form.username);
    OnlyNewUserNamed(s, step.store, u);
    LoginFindsOnly(step.store, p, key, form.username, form.password, later, u);
  }

  /** After inserting `u` under a name nobody had, `u` is the only user with that name. */
  lemma OnlyNewUserNamed(s: Store, after: Store, u: User)
    requires !HasUserNamed(s, u.username)
    requires after.users == s.users[u.id := u]
    ensures u in after.users.Values
    ensures forall v :: v in after.users.Values && v.username == u.username ==> v == u
  {
    assert after.users[u.id] == u;
    forall v | v in after.users.Values && v.username == u.username ensures v == u {
      var k :| k in after.users && after.users[k] == v;
      assert k != u.id ==> v in s.users.Values;
    }
  }

  /** Login under a name that exactly one stored user has, with that user's password, succeeds. */
  lemma LoginFindsOnly(s: Store, p: Primitives, key: string, name: string, password: string, now: Instant, u: User)
    requires Valid(s) && s.online
    requires Trim(name) == name && u.username == name && u.passwordHash == p.hash(password)
    requires u in s.users.Values
    requires forall v :: v in s.users.Values && v.username == name ==> v == u
    ensures UserLogin(s, p, key, name, password, now) == Ok(Session(u, BuildUserToken(p, key, u, now)))
  {
  }

  /** The only user under a name, with a different hash, is refused with "Wrong password". */
  lemma LoginWrongPassword(s: Store, p: Primitives, key: string, name: string, password: string, now: Instant, u: User)
    requires Valid(s) && s.online
    requires Trim(name) == name && u.username == name && u.passwordHash != p.hash(password)
    requires u in s.users.Values
    requires forall v :: v in s.users.Values && v.username == name ==> v == u
    ensures UserLogin(s, p, key, name, password, now) == Err(Message(WRONG_PASSWORD))
  {
  }

  /** The token a signup issues loads the new user back. */
  lemma SignupTokenLoadsUser(s: Store, p: Primitives, key: string, form: Signup, now: Instant)
    requires Valid(s) && TokensVerify(p)
    requires UserSignupAndLogin(s, p, key, form, now).result.Ok?
    ensures var step := UserSignupAndLogin(s, p, key, form, now);
      LoadUserForToken(step.store, p, key, step.result.value.token) == Ok(step.result.value.user)
  {
    var step := UserSignupAndLogin(s, p, key, form, now);
    var u := step.result.value.user;
    assert step.store.users[u.id] == u;
    TokenLoadsIssuer(step.store, p, key, u, now);
  }
}
