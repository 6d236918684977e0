/** Passwords, user lookup, login and the token check of `auth_required`.
    The hash and the token signer/verifier are the functions of the Config. */
module Auth {
  import opened Records
  import opened Header

  /** `User.check_password`: the stored hash equals the hash of the candidate. */
  predicate CheckPassword(cfg: Config, u: User, password: string)
  {
    u.passwordHash == cfg.hash(password)
  }

  /** `User.set_password`: stores the hash of `password`; afterwards exactly
      the candidates with the same hash check, `password` among them. */
  function SetPassword(cfg: Config, u: User, password: string): (r: User)
    ensures r.id == u.id && r.username == u.username
    ensures CheckPassword(cfg, r, password)
    ensures forall q :: CheckPassword(cfg, r, q) <==> cfg.hash(q) == cfg.hash(password)
  {
    u.(passwordHash := cfg.hash(password))
  }

  predicate NameTaken(users: seq<User>, name: string)
  {
    exists i :: 0 <= i < |users| && users[i].username == name
  }

  /** `User.query.filter_by(username=name).first()`: the first user so named. */
  function FindUser(users: seq<User>, name: string): (r: Option<User>)
    ensures r.None? <==> !NameTaken(users, name)
    ensures r.Some? ==> exists i :: 0 <= i < |users| && users[i] == r.value && r.value.username == name
                          && forall j :: 0 <= j < i ==> users[j].username != name
  {
    if users == [] then None
    else if users[0].username == name then Some(users[0])
    else
      var r := FindUser(users[1..], name);
      assert NameTaken(users[1..], name) ==> NameTaken(users, name);
      assert NameTaken(users, name) ==> NameTaken(users[1..], name) by {
        if NameTaken(users, name) {
          var i :| 0 <= i < |users| && users[i].username == name;
          assert users[1..][i - 1].username == name;
        }
      }
      if r.Some? then
        var i :| 0 <= i < |users[1..]| && users[1..][i] == r.value && r.value.username == name
                 && forall j :: 0 <= j < i ==> users[1..][j].username != name;
        assert users[i + 1] == r.value;
        assert forall j :: 0 <= j < i + 1 ==> users[j].username != name by {
          forall j | 0 <= j < i + 1 ensures users[j].username != name {
            if j > 0 { assert users[j] == users[1..][j - 1]; }
          }
        }
        r
      else r
  }

  /** With unique usernames, the lookup finds the one user of that name. */
  lemma FindUserUnique(users: seq<User>, i: nat)
    requires UniqueUsernames(users) && i < |users|
    ensures FindUser(users, users[i].username) == Some(users[i])
  {
    assert NameTaken(users, users[i].username);
  }

  /** `User.query.get(id)`: the user with that primary key. */
  function FindById(users: seq<User>, id: nat): (r: Option<User>)
    ensures r.Some? ==> r.value in users && r.value.id == id
    ensures r.None? ==> forall i :: 0 <= i < |users| ==> users[i].id != id
  {
    if users == [] then None
    else if users[0].id == id then Some(users[0])
    else
      var r := FindById(users[1..], id);
      assert forall i :: 1 <= i < |users| ==> users[i] == users[1..][i - 1];
      r
  }

  /** With keys handed out 1, 2, 3, ..., id `k` is the k-th user. */
  lemma FindByIdSequential(users: seq<User>, id: nat)
    requires SequentialIds(users)
    ensures FindById(users, id) == if 1 <= id <= |users| then Some(users[id - 1]) else None
  {
    var r := FindById(users, id);
    if r.Some? {
      var i :| 0 <= i < |users| && users[i] == r.value;
      assert i == id - 1;
    }
  }

  /** The route `login`: a token signed for the user and the issue time `now`,
      or BadCredentials. */
  function Login(cfg: Config, users: seq<User>, username: string, password: string, now: int): (r: Result<string>)
    ensures r.Err? ==> r.error == BadCredentials
    ensures r.Ok? ==> exists i :: 0 <= i < |users| && users[i].username == username
                        && CheckPassword(cfg, users[i], password) && r.value == cfg.encode(users[i].id, now)
    ensures UniqueUsernames(users) ==>
              (r.Ok? <==> exists i :: 0 <= i < |users| && users[i].username == username
                                      && CheckPassword(cfg, users[i], password))
  {
    var found := FindUser(users, username);
    if found.Some? && CheckPassword(cfg, found.value, password) then
      Ok(cfg.encode(found.value.id, now))
    else
      Err(BadCredentials)
  }

  /** What the token library is taken to guarantee: a token it issues is a
      single whitespace-free word, and verifying it gives back the user id. */
  ghost predicate TokensRoundTrip(cfg: Config)
  {
    forall id: nat, now: int :: cfg.decode(cfg.encode(id, now)) == Some(id) && IsWord(cfg.encode(id, now))
  }

  /** `auth_required`: the user the request acts for, or why it is refused. */
  function Authenticate(cfg: Config, users: seq<User>, header: Option<string>): (r: Result<User>)
    ensures r.Ok? ==> r.value in users && CheckHeader(header).Ok?
                      && cfg.decode(CheckHeader(header).value) == Some(r.value.id)
    ensures r == Err(MissingAuthHeader) <==> CheckHeader(header).Err?
    ensures r == Err(InvalidToken) <==> CheckHeader(header).Ok? && cfg.decode(CheckHeader(header).value).None?
    ensures r.Err? ==> r.error in {MissingAuthHeader, InvalidToken, UserNotFound}
    ensures r == Err(UserNotFound) <==>
              && CheckHeader(header).Ok? && cfg.decode(CheckHeader(header).value).Some?
              && forall i :: 0 <= i < |users| ==> users[i].id != cfg.decode(CheckHeader(header).value).value
  {
    match CheckHeader(header)
    case Err(e) => Err(e)
    case Ok(token) =>
      match cfg.decode(token)
      case None => Err(InvalidToken)
      case Some(id) =>
        match FindById(users, id)
        case None => Err(UserNotFound)
        case Some(u) => Ok(u)
  }

  /** A token issued for a stored user, presented as `Bearer <token>`,
      authenticates as that user and no other. */
  lemma IssuedTokenAuthenticates(cfg: Config, users: seq<User>, i: nat, now: int)
    requires SequentialIds(users) && TokensRoundTrip(cfg) && i < |users|
    ensures Authenticate(cfg, users, Some("Bearer " + cfg.encode(users[i].id, now))) == Ok(users[i])
  {
    var token := cfg.encode(users[i].id, now);
    assert IsWord(token);
    assert AllSpace(" ") && AllSpace("");
    HeaderAccepted("", " ", token, "");
    assert "" + BearerScheme + " " + token + "" == "Bearer " + token;
    FindByIdSequential(users, users[i].id);
  }

  /** What login hands out authenticates as the user who logged in, and the
      token carries that user's id. */
  lemma LoginThenAuthenticate(cfg: Config, users: seq<User>, username: string, password: string, now: int)
    requires SequentialIds(users) && TokensRoundTrip(cfg)
    requires Login(cfg, users, username, password, now).Ok?
    ensures var token := Login(cfg, users, username, password, now).value;
            var who := Authenticate(cfg, users, Some("Bearer " + token));
            && who.Ok? && who.value.username == username && CheckPassword(cfg, who.value, password)
            && cfg.decode(token) == Some(who.value.id)
  {
    var i :| 0 <= i < |users| && users[i].username == username
             && CheckPassword(cfg, users[i], password)
             && Login(cfg, users, username, password, now).value == cfg.encode(users[i].id, now);
    IssuedTokenAuthenticates(cfg, users, i, now);
  }
}
