/** The rows of the journal's three tables (User, Transaction, DailyTrade),
    the configuration read once at start-up, the error answers of the routes,
    and the table invariants the database declares. Amounts are exact
    integer cents: the columns are fixed-point with two decimals. */
module Records {

  datatype Option<T> = None | Some(value: T)

  /** The failures a route can answer with. */
  datatype Error =
    | UsernameExists     // register: a user with that name is already stored
    | BadCredentials     // login: no such user, or the password does not check
    | MissingAuthHeader  // protected route: header absent or not `Bearer <token>`
    | InvalidToken       // protected route: the token decoder rejected the token
    | UserNotFound       // protected route: the token names a user id that is not stored
    | DataRejected       // a value the table column cannot hold; nothing is stored

  datatype Result<T> = Ok(value: T) | Err(error: Error)

  /** HTTP status of each failure. The last two are server errors: a missing
      user is an exception no route catches, and a value the database refuses
      is answered with 500 by `register` and is uncaught (so also a 500) in
      the other routes. */
  function Status(e: Error): (code: nat)
    ensures e in {MissingAuthHeader, InvalidToken, BadCredentials} <==> code == 401
  {
    match e
    case UsernameExists => 400
    case BadCredentials => 401
    case MissingAuthHeader => 401
    case InvalidToken => 401
    case UserNotFound => 500
    case DataRejected => 500
  }

  /** The fixed `error` text of the JSON body the code answers with. None for
      the two server errors, which carry no fixed text: a missing user is an
      uncaught exception, and the database's refusal is either uncaught or,
      in `register`, answered with the exception's own message. */
  function Message(e: Error): (m: Option<string>)
    ensures m.Some? <==> Status(e) < 500
    ensures m.Some? ==> m.value != []
  {
    match e
    case UsernameExists => Some("Username already exists")
    case BadCredentials => Some("Bad credentials")
    case MissingAuthHeader => Some("Missing/invalid Authorization header")
    case InvalidToken => Some("Invalid token")
    case UserNotFound => None
    case DataRejected => None
  }

  /** Largest magnitude, in cents, a `Numeric(12,2)` column holds: 9999999999.99. */
  const MaxCents: int := 999_999_999_999

  predicate FitsNumeric(cents: int)
  {
    -MaxCents <= cents <= MaxCents
  }

  /** `username` is a `String(80)` column. */
  const MaxUsernameLength: nat := 80

  /** A name the column refuses: some character past the column width is not
      a space. */
  predicate Overlong(name: string)
  {
    exists k :: MaxUsernameLength <= k < |name| && name[k] != ' '
  }

  /** What the column stores for a name it accepts: spaces past the column
      width are cut off (with only a warning, whatever the SQL mode), and a
      name that fits is stored as it is. */
  function StoredName(name: string): (s: string)
    requires !Overlong(name)
    ensures |s| <= MaxUsernameLength && s <= name
    ensures forall k :: |s| <= k < |name| ==> name[k] == ' '
    ensures |name| <= MaxUsernameLength ==> s == name
  {
    if |name| <= MaxUsernameLength then name else name[..MaxUsernameLength]
  }

  /** Eighty letters and a trailing space fit, and are stored as the letters;
      eighty letters and one more letter do not. */
  lemma StoredNameExample()
    ensures var letters := seq(80, _ => 'a');
            && !Overlong(letters + " ") && StoredName(letters + " ") == letters
            && Overlong(letters + "a")
  {
    var letters := seq(80, _ => 'a');
    assert (letters + "a")[80] == 'a';
    assert (letters + " ")[..80] == letters;
  }

  datatype User = User(id: nat, username: string, passwordHash: string)

  /** The `Enum('deposit','withdraw')` column. */
  datatype TxType = Deposit | Withdraw

  /** A Transaction row; its server-assigned timestamp is not modelled. */
  datatype Transaction = Transaction(userId: nat, kind: TxType, amount: int)

  /** A calendar date, used only as a key. */
  datatype Date = Date(year: int, month: int, day: int)

  datatype DailyTrade = DailyTrade(
    userId: nat,
    tradeDate: Date,
    profit: int,
    loss: int,
    reasonProfit: string,
    reasonLoss: string)

  /** Which half of a DailyTrade row: the profit amount and reason, or the loss ones. */
  datatype Side = Gains | Losses

  function AmountOf(t: DailyTrade, side: Side): int
  {
    match side
    case Gains => t.profit
    case Losses => t.loss
  }

  function ReasonOf(t: DailyTrade, side: Side): string
  {
    match side
    case Gains => t.reasonProfit
    case Losses => t.reasonLoss
  }

  /** What the process reads at start-up, with the foreign code it calls:
      `hash` is the one-way password hash (SHA-256 hex digest in the source);
      `encode` signs a token for a user id and an issue time, `decode`
      verifies one and yields the id it carries (None when the signature or
      claims are rejected); `geminiKey` is the AI key ("" when unset);
      `gemini` is what the AI endpoint answers for a prompt, error text included. */
  datatype Config = Config(
    hash: string -> string,
    encode: (nat, int) -> string,
    decode: string -> Option<nat>,
    geminiKey: string,
    gemini: string -> string)

  /** Primary keys are handed out 1, 2, 3, ... and no user is ever deleted. */
  predicate SequentialIds(users: seq<User>)
  {
    forall i :: 0 <= i < |users| ==> users[i].id == i + 1
  }

  /** `unique=True` on User.username. */
  predicate UniqueUsernames(users: seq<User>)
  {
    forall i, j :: 0 <= i < j < |users| ==> users[i].username != users[j].username
  }

  predicate IsKey(t: DailyTrade, userId: nat, d: Date)
  {
    t.userId == userId && t.tradeDate == d
  }

  /** The `uix_user_date` constraint: at most one row per (user_id, trade_date). */
  predicate UniqueDays(trades: seq<DailyTrade>)
  {
    forall i, j :: 0 <= i < j < |trades| ==> !IsKey(trades[j], trades[i].userId, trades[i].tradeDate)
  }
}
