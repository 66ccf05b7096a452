/** Sanctum bearer tokens: issued as "id|secret", resolved from an Authorization header, deleted on logout. */
module Tokens {
  import opened Prelude
  import opened GoText

  type Time = int

  const TOKEN_ALPHABET := "ABCDEFGHIJKLMNOPQRSTUVWXYZabcdefghijklmnopqrstuvwxyz0123456789"
  const TOKENABLE_USER := "App\\Models\\User"
  const SECRET_LENGTH: nat := 40

  /** Random bytes as the random source hands them over. */
  type Noise = n: seq<nat> | |n| == SECRET_LENGTH witness seq(SECRET_LENGTH, _ => 0)

  function SecretOf(noise: Noise): string {
    seq(SECRET_LENGTH, i requires 0 <= i < SECRET_LENGTH => TOKEN_ALPHABET[noise[i] % |TOKEN_ALPHABET|])
  }

  /** Each random byte of the buffer is replaced in place by a letter or digit. */
  method RandomToken(noise: Noise) returns (secret: string)
    ensures secret == SecretOf(noise)
  {
    SecretIsAlphanumeric(noise);
    var b := new nat[SECRET_LENGTH](i requires 0 <= i < SECRET_LENGTH => noise[i]);
    for i := 0 to b.Length
      invariant forall j :: i <= j < b.Length ==> b[j] == noise[j]
      invariant forall j :: 0 <= j < i ==> b[j] < 128 && b[j] as char == SecretOf(noise)[j]
    {
      assert Alphanumeric(SecretOf(noise)[i]);
      b[i] := TOKEN_ALPHABET[b[i] % |TOKEN_ALPHABET|] as int;
    }
    secret := seq(b.Length, i requires 0 <= i < b.Length && b[i] < 128 reads b => b[i] as char);
  }

  predicate Alphanumeric(c: char) { 'A' <= c <= 'Z' || 'a' <= c <= 'z' || '0' <= c <= '9' }

  /** A secret has neither the separator nor white space. */
  lemma SecretIsAlphanumeric(noise: Noise)
    ensures |SecretOf(noise)| == SECRET_LENGTH && All(SecretOf(noise), Alphanumeric)
    ensures '|' !in SecretOf(noise)
  {
    forall i | 0 <= i < |TOKEN_ALPHABET| ensures Alphanumeric(TOKEN_ALPHABET[i]) {
      if i < 26 { assert TOKEN_ALPHABET[i] in "ABCDEFGHIJKLMNOPQRSTUVWXYZ"; }
    }
  }

  /** Each of the 40 characters is the one its random byte, modulo 62, selects. */
  lemma SecretSpelled(noise: Noise, i: nat)
    requires i < 40
    ensures |SecretOf(noise)| == 40
    ensures SecretOf(noise)[i]
         == "ABCDEFGHIJKLMNOPQRSTUVWXYZabcdefghijklmnopqrstuvwxyz0123456789"[noise[i] % 62]
  {
  }

  // The token table

  datatype TokenRow = TokenRow(
    tokenableType: string, tokenableId: Id, name: string, hash: string,
    lastUsedAt: Option<Time>, expiresAt: Option<Time>)

  /** Tokens with their auto-increment counter, and the ids of the users that exist. */
  datatype Db = Db(tokens: map<Id, TokenRow>, nextId: Id, users: set<Id>)

  predicate Sound(db: Db) { forall id :: id in db.tokens ==> id < db.nextId }

  function PlainText(id: Id, secret: string): string { FormatUint(id) + "|" + secret }

  function Bearer(header: string): string {
    if |header| > 7 && EqualFold(header[..7], "Bearer ") then TrimSpace(header[7..]) else ""
  }

  /** The token row and user an Authorization header stands for at a given moment. */
  function Resolve(db: Db, hash: string -> string, header: string, now: Time): Option<(Id, Id)> {
    var plain := Bearer(header);
    var bar := IndexOf(plain, '|');
    if plain == "" || bar == |plain| then None
    else
      var id := ParseUint(plain[..bar]);
      if id.None? || id.value !in db.tokens then None
      else
        var row := db.tokens[id.value];
        if row.tokenableType != TOKENABLE_USER then None
        else if hash(plain[bar + 1..]) != row.hash then None
        else if row.expiresAt.Some? && row.expiresAt.value < now then None
        else if row.tokenableId !in db.users then None
        else Some((id.value, row.tokenableId))
  }

  function NewRow(userId: Id, name: string, hashed: string): TokenRow {
    TokenRow(TOKENABLE_USER, userId, name, hashed, None, None)
  }

  /** What can happen to the tables: logins, authenticated requests, logouts, users coming and going. */
  datatype Step =
    | Issue(userId: Id, name: string, noise: Noise)
    | Use(header: string, now: Time)
    | Logout(header: string, now: Time)
    | AddUser(userId: Id)
    | RemoveUser(userId: Id)

  function Apply(db: Db, hash: string -> string, s: Step): Db {
    match s
    case Issue(userId, name, noise) =>
      db.(tokens := db.tokens[db.nextId := NewRow(userId, name, hash(SecretOf(noise)))], nextId := db.nextId + 1)
    case Use(header, now) =>
      var r := Resolve(db, hash, header, now);
      if r.None? then db else db.(tokens := db.tokens[r.value.0 := db.tokens[r.value.0].(lastUsedAt := Some(now))])
    case Logout(header, now) =>
      var r := Resolve(db, hash, header, now);
      if r.None? then db else db.(tokens := db.tokens - {r.value.0})
    case AddUser(userId) => db.(users := db.users + {userId})
    case RemoveUser(userId) => db.(users := db.users - {userId})
  }

  class Sanctum {
    const hash: string -> string
    var tokens: map<Id, TokenRow>
    var nextId: Id
    var users: set<Id>

    ghost function State(): Db
      reads this
    {
      Db(tokens, nextId, users)
    }

    method CreateToken(userId: Id, name: string, noise: Noise) returns (plain: string)
      modifies this`tokens, this`nextId
      ensures State() == Apply(old(State()), hash, Issue(userId, name, noise))
      ensures plain == PlainText(old(nextId), SecretOf(noise))
      ensures tokens.Keys == old(tokens).Keys + {old(nextId)} && users == old(users) && nextId == old(nextId) + 1
      ensures forall id :: id in old(tokens) && id != old(nextId) ==> tokens[id] == old(tokens)[id]
      ensures var row := tokens[old(nextId)];
              row.tokenableType == "App\\Models\\User" && row.tokenableId == userId && row.name == name
              && row.hash == hash(SecretOf(noise)) && row.lastUsedAt.None? && row.expiresAt.None?
    {
      var secret := RandomToken(noise);
      var id := nextId;
      tokens := tokens[id := TokenRow(TOKENABLE_USER, userId, name, hash(secret), None, None)];
      nextId := nextId + 1;
      plain := FormatUint(id) + "|" + secret;
    }

    /** Checks in sequence; success also touches `last_used_at`. */
    method Authenticate(header: string, now: Time) returns (r: Option<(Id, Id)>)
      modifies this`tokens
      ensures r == Resolve(old(State()), hash, header, now)
      ensures State() == Apply(old(State()), hash, Use(header, now))
      ensures r.None? ==> tokens == old(tokens)
      ensures r.Some? ==> r.value.0 in old(tokens) && Proves(old(State()), hash, header, now, r.value.0, r.value.1)
      ensures r.Some? ==>
                var id := r.value.0; tokens == old(tokens)[id := old(tokens)[id].(lastUsedAt := Some(now))]
    {
      ResolveProves(State(), hash, header, now);
      var plain := Bearer(header);
      if plain == "" { return None; }
      var bar := IndexOf(plain, '|');
      if bar == |plain| { return None; }
      var id := ParseUint(plain[..bar]);
      if id.None? { return None; }
      if id.value !in tokens { return None; }
      var token := tokens[id.value];
      if token.tokenableType != TOKENABLE_USER { return None; }
      if hash(plain[bar + 1..]) != token.hash { return None; }
      if token.expiresAt.Some? && token.expiresAt.value < now { return None; }
      if token.tokenableId !in users { return None; }
      tokens := tokens[id.value := token.(lastUsedAt := Some(now))];
      return Some((id.value, token.tokenableId));
    }

    /** The logout request: authenticated like any other, then its own token row goes. */
    method LogOut(header: string, now: Time) returns (done: bool)
      modifies this`tokens
      ensures State() == Apply(old(State()), hash, Logout(header, now))
      ensures done <==> Resolve(old(State()), hash, header, now).Some?
      ensures !done ==> tokens == old(tokens)
      ensures done ==> exists id, user ::
                         Proves(old(State()), hash, header, now, id, user) && tokens == old(tokens) - {id}
    {
      var p := Authenticate(header, now);
      if p.None? { return false; }
      tokens := tokens - {p.value.0};
      return true;
    }
  }

  // Who is let in

  /** "Bearer " in any letter case. */
  predicate IsScheme(s: string) {
    && |s| == 7 && s[6] == ' '
    && s[0] in "Bb" && s[1] in "Ee" && s[2] in "Aa" && s[3] in "Rr" && s[4] in "Ee" && s[5] in "Rr"
  }

  lemma SchemeIsFolded(s: string)
    ensures IsScheme(s) <==> EqualFold(s, "Bearer ")
  {
    if |s| == 7 {
      var p := "Bearer ";
      assert ToLower(p[0]) == 'b' && ToLower(p[1]) == 'e' && ToLower(p[2]) == 'a' && ToLower(p[3]) == 'r';
      assert ToLower(p[4]) == 'e' && ToLower(p[5]) == 'r' && ToLower(p[6]) == ' ';
    }
  }

  /** The header's parts: scheme, white space, digits of an id, the bar, the secret, white space. */
  datatype Parts = Parts(scheme: string, lead: string, digits: string, secret: string, trail: string)

  function HeaderOf(h: Parts): string { h.scheme + (h.lead + (h.digits + "|" + h.secret) + h.trail) }

  predicate ValidParts(h: Parts, id: Id) {
    && IsScheme(h.scheme) && All(h.lead, IsSpace) && All(h.trail, IsSpace)
    && id < UINT64_LIMIT && StandsFor(h.digits, id)
    && (h.secret == "" || !IsSpace(h.secret[|h.secret| - 1]))
  }

  /** The row of this id is a user token of this existing user that has not expired, and its hash is the secret's. */
  predicate Admits(db: Db, hash: string -> string, secret: string, now: Time, id: Id, user: Id) {
    && id in db.tokens && user in db.users
    && var row := db.tokens[id];
    && row.tokenableType == "App\\Models\\User" && row.tokenableId == user && row.hash == hash(secret)
    && (row.expiresAt.Some? ==> now <= row.expiresAt.value)
  }

  /** The header names token `id` and carries a secret that its row, at this moment, admits for this user. */
  ghost predicate Proves(db: Db, hash: string -> string, header: string, now: Time, id: Id, user: Id) {
    exists h :: ValidParts(h, id) && header == HeaderOf(h) && Admits(db, hash, h.secret, now, id, user)
  }

  lemma DigitsAreBare(digits: string, id: Id)
    requires StandsFor(digits, id)
    ensures digits != "" && '|' !in digits && !IsSpace(digits[0])
  {
    StandsForValue(digits, id);
    DigitsAvoid(digits, '|');
    assert IsDigit(digits[0]);
  }

  /** A header made of such parts is read as the digits, the bar and the secret. */
  lemma PartsAreRead(h: Parts, id: Id)
    requires ValidParts(h, id)
    ensures var plain := Bearer(HeaderOf(h));
            && plain == h.digits + "|" + h.secret && IndexOf(plain, '|') == |h.digits|
            && plain[..|h.digits|] == h.digits && plain[|h.digits| + 1..] == h.secret
  {
    var plain := h.digits + "|" + h.secret;
    SchemeIsFolded(h.scheme);
    DigitsAreBare(h.digits, id);
    assert HeaderOf(h)[..7] == h.scheme && HeaderOf(h)[7..] == h.lead + plain + h.trail;
    assert plain[0] == h.digits[0];
    assert plain[|plain| - 1] == if h.secret == "" then '|' else h.secret[|h.secret| - 1];
    TrimCore(h.lead, plain, h.trail, IsSpace);
    SplitFirst(h.digits, '|', h.secret);
    assert plain == h.digits + ['|'] + h.secret;
  }

  lemma Reassembles(header: string, h: Parts, plain: string)
    requires |header| >= 7 && header[..7] == h.scheme && header[7..] == h.lead + plain + h.trail
    requires plain == h.digits + "|" + h.secret
    ensures HeaderOf(h) == header
  {
    assert header == header[..7] + header[7..];
  }

  lemma CutAt(s: string, i: nat)
    requires i < |s|
    ensures s == s[..i] + [s[i]] + s[i + 1..]
  {
  }

  /** A header with a token in it has such parts. */
  lemma HeaderHasParts(header: string, id: Id) returns (h: Parts)
    requires var plain := Bearer(header);
             IndexOf(plain, '|') < |plain| && ParseUint(plain[..IndexOf(plain, '|')]) == Some(id)
    ensures ValidParts(h, id) && HeaderOf(h) == header
  {
    var plain := Bearer(header);
    var bar := IndexOf(plain, '|');
    SchemeIsFolded(header[..7]);
    ParseUintExactly(plain[..bar], id);
    var lead, trail := TrimParts(header[7..], IsSpace);
    h := Parts(header[..7], lead, plain[..bar], plain[bar + 1..], trail);
    assert plain == h.digits + "|" + h.secret by { CutAt(plain, bar); }
    Reassembles(header, h, plain);
    assert h.secret != "" ==> h.secret[|h.secret| - 1] == plain[|plain| - 1];
  }

  /** A request is let in as user u with token id exactly when its header proves it. */
  lemma ResolveExactly(db: Db, hash: string -> string, header: string, now: Time, id: Id, user: Id)
    ensures Resolve(db, hash, header, now) == Some((id, user)) <==> Proves(db, hash, header, now, id, user)
  {
    if Resolve(db, hash, header, now) == Some((id, user)) { LetInProves(db, hash, header, now, id, user); }
    if h :| ValidParts(h, id) && header == HeaderOf(h) && Admits(db, hash, h.secret, now, id, user) {
      PartsAreRead(h, id);
      ParseUintExactly(h.digits, id);
    }
  }

  lemma LetInProves(db: Db, hash: string -> string, header: string, now: Time, id: Id, user: Id)
    requires Resolve(db, hash, header, now) == Some((id, user))
    ensures Proves(db, hash, header, now, id, user)
  {
    var h := HeaderHasParts(header, id);
    PartsAreRead(h, id);
    assert Admits(db, hash, h.secret, now, id, user);
  }

  lemma ResolveProves(db: Db, hash: string -> string, header: string, now: Time)
    ensures var r := Resolve(db, hash, header, now);
            r.Some? ==> Proves(db, hash, header, now, r.value.0, r.value.1)
  {
    var r := Resolve(db, hash, header, now);
    if r.Some? { ResolveExactly(db, hash, header, now, r.value.0, r.value.1); }
  }

  // Parsing back what was issued

  /** The header of a token: the scheme in any letter case, white space around the token allowed. */
  ghost predicate Carries(header: string, id: Id, secret: string) {
    exists scheme, lead, trail ::
      header == scheme + (lead + PlainText(id, secret) + trail)
      && EqualFold(scheme, "Bearer ") && All(lead, IsSpace) && All(trail, IsSpace)
  }

  lemma BearerFindsToken(header: string, id: Id, secret: string)
    requires Carries(header, id, secret) && secret != "" && All(secret, Alphanumeric)
    ensures Bearer(header) == PlainText(id, secret)
  {
    var plain := PlainText(id, secret);
    FormatUintDigits(id);
    var scheme, lead, trail :|
      header == scheme + (lead + plain + trail)
      && EqualFold(scheme, "Bearer ") && All(lead, IsSpace) && All(trail, IsSpace);
    assert header[..7] == scheme && header[7..] == lead + plain + trail;
    assert !IsSpace(plain[0]) by { assert plain[0] == FormatUint(id)[0]; }
    assert !IsSpace(plain[|plain| - 1]) by { assert plain[|plain| - 1] == secret[|secret| - 1]; }
    TrimCore(lead, plain, trail, IsSpace);
  }

  /** While row and user exist, the header of an issued token resolves to exactly that row and that user. */
  lemma IssuedResolves(db: Db, hash: string -> string, id: Id, userId: Id, noise: Noise, header: string, now: Time)
    requires id < UINT64_LIMIT && Carries(header, id, SecretOf(noise))
    requires id in db.tokens ==> OwnRow(db.tokens[id], userId, hash(SecretOf(noise)))
    ensures Resolve(db, hash, header, now) == if id in db.tokens && userId in db.users then Some((id, userId)) else None
  {
    var secret := SecretOf(noise);
    SecretIsAlphanumeric(noise);
    BearerFindsToken(header, id, secret);
    FormatUintDigits(id);
    DigitsAvoid(FormatUint(id), '|');
    SplitFirst(FormatUint(id), '|', secret);
    var plain := PlainText(id, secret);
    assert plain == FormatUint(id) + ['|'] + secret;
    assert plain[..|FormatUint(id)|] == FormatUint(id) && plain[|FormatUint(id)| + 1..] == secret;
    ParseFormatUint(id);
  }

  lemma UnknownIsRefused(db: Db, hash: string -> string, id: Id, noise: Noise, header: string, now: Time)
    requires id < UINT64_LIMIT && Carries(header, id, SecretOf(noise)) && id !in db.tokens
    ensures Resolve(db, hash, header, now) == None
  {
    IssuedResolves(db, hash, id, 0, noise, header, now);
  }

  predicate OwnRow(row: TokenRow, userId: Id, hashed: string) {
    row.tokenableType == TOKENABLE_USER && row.tokenableId == userId && row.hash == hashed && row.expiresAt.None?
  }

  // Runs

  function StateAt(db: Db, hash: string -> string, run: seq<Step>, n: nat): Db
    requires n <= |run|
  {
    if n == 0 then db else Apply(StateAt(db, hash, run, n - 1), hash, run[n - 1])
  }

  /** From its issue on, a token row keeps its owner and hash until it goes, and never comes back. */
  lemma {:induction false} RowPersists(db: Db, hash: string -> string, run: seq<Step>, i: nat, n: nat)
    requires Sound(db) && i < n <= |run| && run[i].Issue?
    ensures var id := StateAt(db, hash, run, i).nextId;
            var now := StateAt(db, hash, run, n);
            && Sound(now) && id < now.nextId
            && (id in now.tokens ==> OwnRow(now.tokens[id], run[i].userId, hash(SecretOf(run[i].noise))))
            && (n > i + 1 && id !in StateAt(db, hash, run, n - 1).tokens ==> id !in now.tokens)
  {
    if n > i + 1 {
      RowPersists(db, hash, run, i, n - 1);
    } else {
      StaysSound(db, hash, run, i);
    }
  }

  lemma {:induction false} StaysSound(db: Db, hash: string -> string, run: seq<Step>, n: nat)
    requires Sound(db) && n <= |run|
    ensures Sound(StateAt(db, hash, run, n))
  {
    if n > 0 { StaysSound(db, hash, run, n - 1); }
  }

  /** Over any run, at any later moment: the issued token is its owner's while its row and its user exist. */
  lemma IssuedTokenIsOwners(db: Db, hash: string -> string, run: seq<Step>, i: nat, n: nat, header: string, now: Time)
    requires Sound(db) && i < n <= |run| && run[i].Issue?
    requires StateAt(db, hash, run, i).nextId < UINT64_LIMIT
    requires Carries(header, StateAt(db, hash, run, i).nextId, SecretOf(run[i].noise))
    ensures var id, at := StateAt(db, hash, run, i).nextId, StateAt(db, hash, run, n);
            Resolve(at, hash, header, now)
              == if id in at.tokens && run[i].userId in at.users then Some((id, run[i].userId)) else None
  {
    RowPersists(db, hash, run, i, n);
    IssuedResolves(StateAt(db, hash, run, n), hash, StateAt(db, hash, run, i).nextId, run[i].userId, run[i].noise,
                   header, now);
  }

  /** When a user goes, exactly their tokens are refused; when the user is back, they are good again. */
  lemma TokensFollowUsers(db: Db, hash: string -> string, header: string, now: Time, user: Id)
    ensures var r := Resolve(db, hash, header, now);
            var gone := Resolve(Apply(db, hash, RemoveUser(user)), hash, header, now);
            gone == if r.Some? && r.value.1 == user then None else r
    ensures var back := Apply(db, hash, AddUser(user));
            back.users == db.users + {user} && back.tokens == db.tokens && back.nextId == db.nextId
  {
  }

  ghost predicate Injective(hash: string -> string) { forall x, y :: hash(x) == hash(y) ==> x == y }

  /**
   * Over any run, with a hash that separates secrets: whoever is let in with an issued token's id carries that very
   * secret and is let in as the user it was issued to.
   */
  lemma OnlyItsSecretOpens(db: Db, hash: string -> string, run: seq<Step>, i: nat, n: nat, header: string, now: Time,
                           user: Id)
    requires Sound(db) && i < n <= |run| && run[i].Issue? && Injective(hash)
    requires Resolve(StateAt(db, hash, run, n), hash, header, now) == Some((StateAt(db, hash, run, i).nextId, user))
    ensures user == run[i].userId
    ensures exists h :: ValidParts(h, StateAt(db, hash, run, i).nextId) && header == HeaderOf(h)
                        && h.secret == SecretOf(run[i].noise)
  {
    var id, at := StateAt(db, hash, run, i).nextId, StateAt(db, hash, run, n);
    RowPersists(db, hash, run, i, n);
    ResolveExactly(at, hash, header, now, id, user);
    var h :| ValidParts(h, id) && header == HeaderOf(h) && Admits(at, hash, h.secret, now, id, user);
    assert h.secret == SecretOf(run[i].noise);
  }

  lemma LogoutRemoves(db: Db, hash: string -> string, s: Step, id: Id, userId: Id)
    requires s.Logout?
    requires Resolve(db, hash, s.header, s.now)
         == if id in db.tokens && userId in db.users then Some((id, userId)) else None
    requires userId in db.users
    ensures id !in Apply(db, hash, s).tokens
  {
  }

  lemma GoneAfterLogout(db: Db, hash: string -> string, run: seq<Step>, i: nat, j: nat, id: Id)
    requires Sound(db) && i < j < |run| && run[i].Issue? && run[j].Logout?
    requires id == StateAt(db, hash, run, i).nextId < UINT64_LIMIT
    requires Carries(run[j].header, id, SecretOf(run[i].noise)) && run[i].userId in StateAt(db, hash, run, j).users
    ensures id !in StateAt(db, hash, run, j + 1).tokens
  {
    IssuedTokenIsOwners(db, hash, run, i, j, run[j].header, run[j].now);
    LogoutRemoves(StateAt(db, hash, run, j), hash, run[j], id, run[i].userId);
  }

  lemma {:induction false} LogoutIsForGood(db: Db, hash: string -> string, run: seq<Step>, i: nat, j: nat, n: nat,
                                          id: Id)
    requires Sound(db) && i < j < n <= |run| && run[i].Issue? && run[j].Logout?
    requires id == StateAt(db, hash, run, i).nextId < UINT64_LIMIT
    requires Carries(run[j].header, id, SecretOf(run[i].noise)) && run[i].userId in StateAt(db, hash, run, j).users
    ensures id !in StateAt(db, hash, run, n).tokens
  {
    if n > j + 1 {
      LogoutIsForGood(db, hash, run, i, j, n - 1, id);
      RowPersists(db, hash, run, i, n);
    } else {
      GoneAfterLogout(db, hash, run, i, j, id);
    }
  }

  /** After a logout with its own header by its existing user, the token is refused for ever. */
  lemma RefusedAfterLogout(db: Db, hash: string -> string, run: seq<Step>, i: nat, j: nat, n: nat, id: Id,
                           header: string, now: Time)
    requires Sound(db) && i < j < n <= |run| && run[i].Issue? && run[j].Logout?
    requires id == StateAt(db, hash, run, i).nextId < UINT64_LIMIT
    requires Carries(run[j].header, id, SecretOf(run[i].noise)) && run[i].userId in StateAt(db, hash, run, j).users
    requires Carries(header, id, SecretOf(run[i].noise))
    ensures Resolve(StateAt(db, hash, run, n), hash, header, now) == None
  {
    LogoutIsForGood(db, hash, run, i, j, n, id);
    UnknownIsRefused(StateAt(db, hash, run, n), hash, id, run[i].noise, header, now);
  }
}
