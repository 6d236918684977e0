# Trading journal: a Dafny model of its store and routes

The trading journal is a small Flask application. Users register and log in,
and the protected routes accept a `Bearer` token. Users record cash deposits
and withdrawals. They also keep one journal row per trading day: profit, loss,
and the reason for each. The dashboard shows the running balance, the total
profit and loss, and two texts from an AI endpoint built from the reasons.

The model keeps the logic of `app.py` and drops the web framework and the
database engine:

- `records.dfy` (module `Records`): the rows of the three tables (`User`,
  `Transaction`, `DailyTrade`), the route errors with their HTTP status, the
  column limits, and the table constraints as predicates. Money is exact
  integer cents, because the columns are `Numeric(12,2)`.
- `header.dfy` (module `Header`): Python's `str.split()` with no argument, over
  Python's whitespace characters, and the `Authorization` check of
  `auth_required`.
- `auth.dfy` (module `Auth`): `set_password` and `check_password`, looking a
  user up by name and by id, `login`, and the `auth_required` decision.
- `days.dfy` (module `Days`): looking up a DailyTrade row by
  (user_id, trade_date), and the upsert done by POST `daily`.
- `ledger.dfy` (module `Ledger`): the dashboard sums, the balance and the total
  P/L.
- `commentary.dfy` (module `Commentary`): collecting the reasons, joining them
  into the two prompts, and `call_gemini`'s key check.
- `journal.dfy` (module `Journal`): the database as a class `Store`.
  - Its fields are the three tables, as sequences.
  - The routes that write (`register`, `deposit`, `withdraw`, POST `daily`)
    are its methods.
  - Each method keeps the invariant `Valid()`: sequential ids, unique
    usernames, column limits, foreign keys and the `uix_user_date` constraint.
  - The routes that only read (GET `daily`, `dashboard`) are functions of the
    tables, and so is `login` (in `Auth`).

Foreign code is a parameter. The `Config` value carries the password hash
(SHA-256 in the source), the token signer and verifier (JWT with a server
secret), the AI key and the AI endpoint, all as uninterpreted functions. The
time a token is issued is an argument of `Login`. Where a property needs the
token library to be sound, it assumes `TokensRoundTrip(cfg)`: verifying an
issued token gives back the user id, and a token is one whitespace-free word.

Three behaviours of the code need a note:

- A valid token whose user is gone: the code sets `request.user` to `None`,
  and the handler then fails on `request.user.id` (app.py:87). The model
  calls this `UserNotFound` and gives it status 500, not a structured answer.
- The reasons query (app.py:246, 251) has no `ORDER BY`. The model takes the
  rows in the order of its table sequence; see "## Left out".
- A username longer than the 80-character column is refused by the database
  unless everything past the 80th character is spaces. Those spaces are cut
  off with only a warning, and the shortened name is stored. If the
  shortened name is already taken, the unique index refuses the insert, and
  `register` answers 500 (app.py:161-164).

## Model

| member | source | states |
|---|---|---|
| Records.Status | app.py:89-91 | The header failure, the token failure and bad credentials are exactly the failures answered with 401. |
| Records.Message | app.py:153 | Exactly the failures the code answers itself (status below 500) have a fixed, non-empty `error` text: "Username already exists" (app.py:153), "Invalid token" (app.py:89), "Missing/invalid Authorization header" (app.py:91), "Bad credentials" (app.py:181). The two server errors have none. |
| Header.IsSpace | app.py:83 | The separators of `str.split()`: exactly the characters Python's `str.isspace` accepts. A definition with no contract; `SkipSpaces`, `SplitFromStep` and `HeaderAccepted` characterise the split built on it. |
| Header.SkipSpaces | app.py:83 | Stops at the first non-whitespace position at or after `i` (or the end), and everything skipped is Python whitespace. |
| Header.SkipWord | app.py:83 | Stops at the first whitespace position at or after `i` (or the end), and nothing skipped is whitespace. |
| Header.SkipSpacesAt | app.py:83 | The stop position of `SkipSpaces` is unique: any whitespace run ending at a non-space is the one it finds. |
| Header.SkipWordAt | app.py:83 | The stop position of `SkipWord` is unique in the same way. |
| Header.SplitFrom | app.py:83 | Every part the split yields is non-empty and holds no whitespace. |
| Header.Split | app.py:83 | `split()` of the whole header yields only non-empty, whitespace-free parts. |
| Header.SplitFromStep | app.py:83 | A whitespace run, then a word, then whitespace or the end: the split yields that word first, then the split of the rest. |
| Header.SplitFromEmpty | app.py:83 | The split of a suffix is empty if and only if the suffix is all whitespace. |
| Header.CheckHeader | app.py:83-84 | An accepted header yields a whitespace-free token; every refusal is `MissingAuthHeader` (401 "Missing/invalid Authorization header"). |
| Header.HeaderAccepted | app.py:83-84 | Every header of the form whitespace, `Bearer`, at least one whitespace, a token, whitespace is accepted with exactly that token; an absent header is refused. |
| Header.HeaderAcceptedShape | app.py:83-84 | The converse: a header that is accepted with a token has exactly that form, so the check accepts exactly two whitespace-separated parts starting with `Bearer`. |
| Auth.CheckPassword | app.py:53-54 | A stored user's password checks when its hash equals the stored hash. A definition with no contract; `SetPassword` characterises it after a password is set. |
| Auth.SetPassword | app.py:50-54 | Keeps id and username; afterwards the password checks, and a candidate checks if and only if its hash equals the hash of the password set. |
| Auth.FindUser | app.py:150 | None exactly when no user has the name; otherwise the first user of that name. |
| Auth.FindUserUnique | app.py:47 | With unique usernames, looking up any stored user's name finds that user. |
| Auth.FindById | app.py:87 | A result is a stored user with that id; None means no user has the id. |
| Auth.FindByIdSequential | app.py:46 | With ids handed out 1, 2, 3, ..., id `k` finds the k-th user, and any other id finds nobody. |
| Auth.Login | app.py:175-181 | Every failure is `BadCredentials`. A token is the token signed for a user of that name whose password checks. With unique usernames, a token is issued if and only if such a user exists. |
| Auth.Authenticate | app.py:80-92 | A success is a stored user whose id the token decodes to. `MissingAuthHeader` exactly when the header check fails. `InvalidToken` exactly when the header passes and the token does not decode. The only other failure is `UserNotFound`, exactly when the token decodes to an id no stored user has; so a header that passes and decodes to a stored user's id succeeds. |
| Auth.IssuedTokenAuthenticates | app.py:76-87 | A token issued for a stored user, sent as `Bearer <token>`, authenticates as that user and no other. |
| Auth.LoginThenAuthenticate | app.py:175-179 | The token login hands out authenticates as a user of that name whose password checks, and decodes to that user's id. |
| Days.FindTrade | app.py:209 | The row found is stored and has the key; None exactly when no row has the key. |
| Days.TradeIndex | app.py:209 | The position of the first row with the key, or the table length when there is none. |
| Days.CountKeyNone | app.py:71-73 | With no row carrying a key, the key's count is 0. |
| Days.UniqueCountsOne | app.py:71-73 | Under `uix_user_date`, a key is carried by at most one row. |
| Days.Upsert | app.py:209-218 | The submitted row is in the result; every row of the result is an old row or the submitted one; the table grows by at most one row. |
| Days.UpsertAt | app.py:209-218 | The upsert overwrites the first row with the key in place, or appends the row when the key is missing, as the route does. |
| Days.UpsertFinds | app.py:209-218 | After the upsert, looking the key up gives exactly the submitted values. |
| Days.UpsertSingle | app.py:209-218 | When at most one row had the key, exactly one row has it afterwards. |
| Days.UpsertKeepsOthers | app.py:209-218 | The rows of every other (user, date) pair are unchanged, in the same order. |
| Days.UpsertKeepsUnique | app.py:71-73 | The upsert keeps `uix_user_date`. |
| Days.UpsertIdempotent | app.py:209-218 | Posting the same values again leaves the table as it is. |
| Records.Overlong | app.py:47 | A name the `String(80)` column refuses: some character past the 80th is not a space. A definition with no contract; `StoredNameExample` shows both sides. |
| Records.StoredName | app.py:47 | For a name the column accepts: the stored name is a prefix of at most 80 characters, everything cut off is spaces, and a name that fits is stored unchanged. |
| Records.StoredNameExample | app.py:47 | Eighty letters and a trailing space are accepted and stored as the eighty letters; eighty-one letters are refused. |
| Ledger.TxTotal | app.py:228-231 | The sum of the amounts of the user's Transaction rows of one type, 0 for no rows. A definition with no contract; `TxTotalAppend` and `TxTotalOtherRows` characterise it. |
| Ledger.TradeTotal | app.py:234-237 | The sum of the profits (or losses) of the user's DailyTrade rows, 0 for no rows. A definition with no contract; `TradeTotalOtherRows` and `UpsertMovesTotal` characterise it. |
| Ledger.OrZero | app.py:240 | Python's `x or 0` on a sum that may be NULL. A definition with no contract; used in `ActiveBalance`. |
| Ledger.TotalPl | app.py:241 | Profit sum minus loss sum. A definition with no contract; `BalanceSplits` relates it to the balance. |
| Ledger.ActiveBalance | app.py:240 | `(dep or 0) - (wd or 0) + prof - loss`. A definition with no contract; `BalanceSplits` and `TransactionMovesBalance` characterise it. |
| Ledger.ShownTotal | app.py:228-231 | The deposit or withdrawal sum is None exactly when the user has no Transaction row, and otherwise the sum of that type over the user's rows. |
| Ledger.BalanceSplits | app.py:239-241 | The balance is deposits minus withdrawals plus the total P/L, with missing sums as 0; a user with no rows has balance 0. |
| Ledger.TxTotalOtherRows | app.py:228-231 | The rows of other users add nothing: with none of the user's rows, the sum is 0. |
| Ledger.TradeTotalOtherRows | app.py:234-237 | The same for the profit and loss sums. |
| Ledger.TxTotalAppend | app.py:228-231 | A new Transaction adds its amount to its owner's sum of its type, and to no other sum. |
| Ledger.TransactionMovesBalance | app.py:240 | A deposit of `a` raises its owner's balance by `a`; a withdrawal lowers it by `a`; no other user's balance moves. |
| Ledger.UpsertMovesTotal | app.py:234-237 | An upsert changes its owner's profit (or loss) sum by the new amount minus the amount it overwrites, and no other user's sum. |
| Ledger.WorkedExample | app.py:240-241 | Deposits of 1000.00, withdrawals of 200.00, and a day with profit 50.00 and loss 10.00 give a balance of 840.00 and a total P/L of 40.00. |
| Commentary.Reasons | app.py:244-253 | The reasons are exactly the non-empty profit (or loss) reasons of the user's rows; no entry is empty; there are no more reasons than rows. |
| Commentary.ReasonsAppend | app.py:244-253 | A row added at the end adds its reason, if it has one, at the end, so the list follows table order. |
| Commentary.JoinLines | app.py:256-257 | Python's `"\n".join(lines)`. A definition with no contract; `SplitJoinLines` proves that splitting undoes it for newline-free lines. |
| Commentary.LineEnd | app.py:256-257 | The first newline position, or the end of the text, with no newline before it. |
| Commentary.SplitLines | app.py:256-257 | Splitting on newlines always yields at least one line. |
| Commentary.LineEndOf | app.py:256-257 | A newline-free prefix followed by a newline (or the end) ends the first line. |
| Commentary.SplitJoinLines | app.py:256-257 | Splitting the newline-join of newline-free lines gives the lines back. |
| Commentary.Prompt | app.py:256-257 | A prompt starts with its instruction and a newline; with no reasons it is exactly that. |
| Commentary.PromptLines | app.py:256-257 | When neither the instruction nor any reason holds a newline, a prompt read line by line is its instruction, then one line per reason (one empty line when there are none). A reason holding a newline reads back as several lines. |
| Commentary.CallGemini | app.py:99-109 | `call_gemini`: the fixed text without a key, the endpoint's answer with one. `KeyMissingNoCall` and `KeyedCallAsksEndpoint` state what that means. |
| Commentary.KeyMissingNoCall | app.py:100-101 | With no key configured, the endpoint is not consulted: whatever it would answer and whatever the prompt, the reply is "Gemini API key not configured". |
| Commentary.KeyedCallAsksEndpoint | app.py:102-109 | With a key, the reply depends only on the endpoint's answer to this prompt, and is that answer (error text included). |
| Journal.Store.constructor | app.py:45-73 | The three tables the models declare, empty, with the invariant holding: the in-memory stand-in for an empty database. |
| Journal.Store.Register | app.py:150-164 | A taken name gives `UsernameExists` and changes nothing. A name the column refuses (a non-space past the 80th character) gives `DataRejected` and changes nothing. So does a name whose stored, space-trimmed form is already taken, which the unique index refuses. Otherwise exactly one user is added, with the next id, the stored name and the hash of the password. The invariant holds, so usernames stay unique. The other tables are unchanged. |
| Journal.Store.Deposit | app.py:190-194 | An authentication failure is answered as such, and an amount the column cannot hold gives `DataRejected`; in both cases nothing changes. Otherwise exactly one deposit row for the caller, with that amount, is appended. Users and days are unchanged. The caller's balance rises by the amount, and no other balance moves. |
| Journal.Store.Withdraw | app.py:199-203 | The same, for one withdrawal row; the caller's balance falls by the amount. |
| Journal.Store.AddTransaction | app.py:190-203 | The shared body of the two cash routes, with the kind of row as a parameter. |
| Journal.Store.PostDaily | app.py:209-218 | The authentication and column failures are as for deposits. Otherwise the table becomes the upsert of the submitted row. Exactly one row then has (caller, day), and it holds the submitted values. The rows of every other pair are unchanged. The invariant, `uix_user_date` included, holds. |
| Journal.RegisterThenLogin | app.py:155-181 | A user just registered can log in under the stored name with the same password, and gets a token for the new id. |
| Journal.DailyPage | app.py:209-220 | Fails exactly when authentication fails, with the same error. Otherwise it gives the caller's row for the day, or None exactly when there is none. |
| Journal.DashboardWithoutKey | app.py:100-101 | With no AI key, an authenticated dashboard shows "Gemini API key not configured" as both tips and lessons, whatever the caller's rows. |
| Journal.Dashboard | app.py:224-267 | Fails exactly when authentication fails, with the same error. The total P/L is the caller's profit sum minus loss sum. The balance is `(dep or 0) - (wd or 0) + total P/L`, which equals the net cash movement plus the total P/L. The deposit and withdrawal figures are None exactly when the caller has no Transaction row. The two texts are the replies to the prompts built from the caller's reasons. |

## Left out

- Flask plumbing: routing, templates, redirects, JSON shaping, the `/health` and `/` routes, and logging (framework I/O).
- Configuration from the environment, the MySQL URI, and session commit or rollback. The store is in memory, and a method that fails changes nothing, which is the rollback.
- SHA-256 (app.py:51, 54) is the uninterpreted `cfg.hash`. No property of the hash is assumed.
- JWT signing and verification (app.py:78, 86): the secret, the algorithm and expiry are inside `cfg.encode` and `cfg.decode`. A token that decodes but has no `user_id` field raises `KeyError` in the source. In the model, the decoder answers with an id or with None.
- The AI call (app.py:102-109) is the opaque `cfg.gemini`, and its error text is part of that function's answer. The `GEMINI_URL` constant and the request payload are not modelled.
- Float parsing of `amount` (app.py:190, 199), and the text values assigned to `profit` and `loss` (app.py:213-214). Amounts arrive as integer cents. A missing form field, and a value that does not parse, are not modelled.
- Date parsing (app.py:208): a date arrives as a `Date` value, so a malformed date, which fails in the source, is not modelled.
- Transaction timestamps (app.py:61) come from the server clock; the model leaves them out.
- Concurrent writers: uniqueness under concurrency is left to the database.
- String comparison is exact, case-sensitive equality. The database's collation may compare differently in `filter_by(username=...)`. MySQL 8's default `utf8mb4_0900_ai_ci` ignores case and accents (trailing spaces do count, as it is NO PAD). Older `PAD SPACE` collations also ignore trailing spaces. None of this is modelled.
- `DataRejected` for a username with a non-space past the 80th character, or for an out-of-range amount, assumes the database runs in strict SQL mode. Without it, MySQL truncates or clips the value with only a warning and stores it; that behaviour is not modelled. Trailing spaces past the 80th character are cut off in every mode, and the model does that (Records.StoredName).
- User ids are modelled as gap-free: the n-th user has id n (Records.SequentialIds), and a new user gets id |users| + 1. A real auto-increment counter can skip values, for example when an insert fails on the unique index and still uses up a value, or when the table did not start empty. The model does not capture those gaps. The properties that lean on gap-free ids (Auth.FindByIdSequential, the id in Journal.Store.Register, and through them Auth.IssuedTokenAuthenticates and the foreign keys kept by Journal.Store.AddTransaction and Journal.Store.PostDaily) need only unique ids in the source.
- The order of the rows a query returns: the reason lists (app.py:244-253) follow the order of the model's table sequence, that is, insertion order. The source's query has no `ORDER BY`, so the real order is whatever the database returns; an index scan over `uix_user_date` would give trade-date order. Commentary.Reasons and Commentary.ReasonsAppend fix that one order. The same applies to which row `.first()` picks (app.py:150, 175, 209), which the uniqueness constraints make irrelevant.
- `db.create_all()` (app.py:41-42) runs before the model classes are declared, so it creates no table; the source relies on tables created elsewhere, which need not be empty. The model starts from an empty store (Journal.Store.constructor) built from the declarations at app.py:45-73.
- The TEXT length limit of the reason columns, and the `String(128)` limit of `password_hash` (a SHA-256 hex digest always fits).
- Journal.Store.Register: the exception path of app.py:161-164 is modelled as `DataRejected` for the two refusals by the database. The message text `str(e)` is not modelled.
- The GET forms of `register` and `login` only render templates.
