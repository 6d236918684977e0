/** The journal's database as one object holding the three tables, with the
    routes that write to it (`register`, `deposit`, `withdraw`, POST `daily`)
    as its methods, and the routes that only read it (`login`, GET `daily`,
    `dashboard`) as functions of its tables. Each method is one committed
    request: it either applies all of its change or, on an error, none. */
module Journal {
  import opened Records
  import opened Header
  import opened Auth
  import opened Days
  import opened Ledger
  import opened Commentary

  /** The constraints the schema declares, and the foreign keys the routes keep. */
  predicate Consistent(users: seq<User>, txs: seq<Transaction>, trades: seq<DailyTrade>)
  {
    && SequentialIds(users)
    && UniqueUsernames(users)
    && (forall u :: u in users ==> |u.username| <= MaxUsernameLength)
    && (forall t :: t in txs ==> 1 <= t.userId <= |users| && FitsNumeric(t.amount))
    && UniqueDays(trades)
    && (forall t :: t in trades ==> 1 <= t.userId <= |users| && FitsNumeric(t.profit) && FitsNumeric(t.loss))
  }

  class Store {
    const cfg: Config
    var users: seq<User>
    var txs: seq<Transaction>
    var trades: seq<DailyTrade>

    ghost predicate Valid()
      reads this
    {
      Consistent(users, txs, trades)
    }

    constructor (cfg: Config)
      ensures Valid() && this.cfg == cfg
      ensures users == [] && txs == [] && trades == []
    {
      this.cfg := cfg;
      users, txs, trades := [], [], [];
    }

    /** POST `register`: refuses a taken name (case-sensitive); then the
        database refuses a name the column cannot hold, and a name whose
        stored (space-trimmed) form is already taken; otherwise adds the user
        with the next id, the stored name and the hash of the password. */
    method Register(username: string, password: string) returns (r: Result<()>)
      requires Valid()
      modifies this
      ensures Valid()
      ensures txs == old(txs) && trades == old(trades)
      ensures NameTaken(old(users), username) ==> r == Err(UsernameExists) && users == old(users)
      ensures !NameTaken(old(users), username) && Overlong(username) ==>
                r == Err(DataRejected) && users == old(users)
      ensures !NameTaken(old(users), username) && !Overlong(username) ==>
                if NameTaken(old(users), StoredName(username)) then
                  r == Err(DataRejected) && users == old(users)
                else
                  r == Ok(())
                  && users == old(users) + [User(|old(users)| + 1, StoredName(username), cfg.hash(password))]
    {
      if FindUser(users, username).Some? {
        return Err(UsernameExists);
      }
      if Overlong(username) {
        return Err(DataRejected);
      }
      var name := StoredName(username);
      if FindUser(users, name).Some? {
        return Err(DataRejected);
      }
      var user := SetPassword(cfg, User(|users| + 1, name, ""), password);
      users := users + [user];
      r := Ok(());
    }

    /** POST `deposit`: for an authenticated caller, adds one deposit row of
        `amount` cents; nothing else changes. */
    method Deposit(header: Option<string>, amount: int) returns (r: Result<()>)
      requires Valid()
      modifies this
      ensures Valid()
      ensures users == old(users) && trades == old(trades)
      ensures var who := Authenticate(cfg, users, header);
              && (who.Err? ==> r == Err(who.error) && txs == old(txs))
              && (who.Ok? && !FitsNumeric(amount) ==> r == Err(DataRejected) && txs == old(txs))
              && (who.Ok? && FitsNumeric(amount) ==>
                    r == Ok(()) && txs == old(txs) + [Transaction(who.value.id, TxType.Deposit, amount)])
      ensures r.Ok? ==> forall v :: ActiveBalance(txs, trades, v)
                          == ActiveBalance(old(txs), trades, v)
                             + (if v == Authenticate(cfg, users, header).value.id then amount else 0)
    {
      r := AddTransaction(header, TxType.Deposit, amount);
    }

    /** POST `withdraw`: for an authenticated caller, adds one withdrawal row
        of `amount` cents; nothing else changes. */
    method Withdraw(header: Option<string>, amount: int) returns (r: Result<()>)
      requires Valid()
      modifies this
      ensures Valid()
      ensures users == old(users) && trades == old(trades)
      ensures var who := Authenticate(cfg, users, header);
              && (who.Err? ==> r == Err(who.error) && txs == old(txs))
              && (who.Ok? && !FitsNumeric(amount) ==> r == Err(DataRejected) && txs == old(txs))
              && (who.Ok? && FitsNumeric(amount) ==>
                    r == Ok(()) && txs == old(txs) + [Transaction(who.value.id, TxType.Withdraw, amount)])
      ensures r.Ok? ==> forall v :: ActiveBalance(txs, trades, v)
                          == ActiveBalance(old(txs), trades, v)
                             - (if v == Authenticate(cfg, users, header).value.id then amount else 0)
    {
      r := AddTransaction(header, TxType.Withdraw, amount);
    }

    /** The body the two cash routes share. */
    method AddTransaction(header: Option<string>, kind: TxType, amount: int) returns (r: Result<()>)
      requires Valid()
      modifies this
      ensures Valid()
      ensures users == old(users) && trades == old(trades)
      ensures var who := Authenticate(cfg, users, header);
              && (who.Err? ==> r == Err(who.error) && txs == old(txs))
              && (who.Ok? && !FitsNumeric(amount) ==> r == Err(DataRejected) && txs == old(txs))
              && (who.Ok? && FitsNumeric(amount) ==>
                    r == Ok(()) && txs == old(txs) + [Transaction(who.value.id, kind, amount)])
      ensures r.Ok? ==> forall v :: ActiveBalance(txs, trades, v)
                          == ActiveBalance(old(txs), trades, v)
                             + (if v != Authenticate(cfg, users, header).value.id then 0
                                else if kind == TxType.Deposit then amount else -amount)
    {
      var who := Authenticate(cfg, users, header);
      if who.Err? {
        return Err(who.error);
      }
      if !FitsNumeric(amount) {
        return Err(DataRejected);
      }
      var tx := Transaction(who.value.id, kind, amount);
      FindByIdSequential(users, tx.userId);
      forall v ensures ActiveBalance(txs + [tx], trades, v)
                       == ActiveBalance(txs, trades, v)
                          + (if v != tx.userId then 0 else if kind == TxType.Deposit then amount else -amount)
      {
        TransactionMovesBalance(txs, trades, tx, v);
      }
      txs := txs + [tx];
      r := Ok(());
    }

    /** POST `daily`: for an authenticated caller, the row for (caller, `d`)
        is created when missing, then its four fields are overwritten. */
    method PostDaily(header: Option<string>, d: Date, profit: int, loss: int,
                     reasonProfit: string, reasonLoss: string) returns (r: Result<()>)
      requires Valid()
      modifies this
      ensures Valid()
      ensures users == old(users) && txs == old(txs)
      ensures var who := Authenticate(cfg, users, header);
              && (who.Err? ==> r == Err(who.error) && trades == old(trades))
              && (who.Ok? && !(FitsNumeric(profit) && FitsNumeric(loss)) ==>
                    r == Err(DataRejected) && trades == old(trades))
              && (who.Ok? && FitsNumeric(profit) && FitsNumeric(loss) ==>
                    r == Ok(())
                    && trades == Upsert(old(trades), DailyTrade(who.value.id, d, profit, loss, reasonProfit, reasonLoss)))
      ensures r.Ok? ==>
                var uid := Authenticate(cfg, users, header).value.id;
                && FindTrade(trades, uid, d) == Some(DailyTrade(uid, d, profit, loss, reasonProfit, reasonLoss))
                && CountKey(trades, uid, d) == 1
                && Others(trades, uid, d) == Others(old(trades), uid, d)
    {
      var who := Authenticate(cfg, users, header);
      if who.Err? {
        return Err(who.error);
      }
      if !(FitsNumeric(profit) && FitsNumeric(loss)) {
        return Err(DataRejected);
      }
      var rec := DailyTrade(who.value.id, d, profit, loss, reasonProfit, reasonLoss);
      FindByIdSequential(users, rec.userId);
      UpsertAt(trades, rec);
      UpsertFinds(trades, rec);
      UniqueCountsOne(trades, rec.userId, d);
      UpsertSingle(trades, rec);
      UpsertKeepsOthers(trades, rec);
      UpsertKeepsUnique(trades, rec);
      var i := TradeIndex(trades, rec.userId, d);
      if i < |trades| {
        trades := trades[i := rec];
      } else {
        trades := trades + [rec];
      }
      r := Ok(());
    }
  }

  /** A user just registered can log in, under the name as stored and with
      the same password, and gets a token for the new id. */
  lemma RegisterThenLogin(cfg: Config, users: seq<User>, username: string, password: string, now: int)
    requires UniqueUsernames(users) && !Overlong(username) && !NameTaken(users, StoredName(username))
    ensures var added := users + [User(|users| + 1, StoredName(username), cfg.hash(password))];
            Login(cfg, added, StoredName(username), password, now) == Ok(cfg.encode(|users| + 1, now))
  {
    var added := users + [User(|users| + 1, StoredName(username), cfg.hash(password))];
    assert UniqueUsernames(added) by {
      forall i, j | 0 <= i < j < |added| ensures added[i].username != added[j].username {
        if j == |users| {
          assert added[i] == users[i];
        }
      }
    }
    FindUserUnique(added, |users|);
  }

  /** GET `daily`: the caller's row for `d`, if there is one. */
  function DailyPage(cfg: Config, users: seq<User>, trades: seq<DailyTrade>, header: Option<string>, d: Date)
    : (r: Result<Option<DailyTrade>>)
    ensures r.Err? <==> Authenticate(cfg, users, header).Err?
    ensures r.Err? ==> r.error == Authenticate(cfg, users, header).error
    ensures r.Ok? ==> var uid := Authenticate(cfg, users, header).value.id;
                      && (r.value.Some? ==> r.value.value in trades && IsKey(r.value.value, uid, d))
                      && (r.value.None? <==> forall i :: 0 <= i < |trades| ==> !IsKey(trades[i], uid, d))
  {
    match Authenticate(cfg, users, header)
    case Err(e) => Err(e)
    case Ok(u) => Ok(FindTrade(trades, u.id, d))
  }

  /** What the dashboard shows. */
  datatype DashboardPage = DashboardPage(
    activeBalance: int,
    depositAmt: Option<int>,
    withdrawAmt: Option<int>,
    totalPl: int,
    tips: string,
    lessons: string)

  /** GET `dashboard`: the caller's figures, computed from the caller's rows
      only, and the two AI replies. */
  function Dashboard(cfg: Config, users: seq<User>, txs: seq<Transaction>, trades: seq<DailyTrade>,
                     header: Option<string>): (r: Result<DashboardPage>)
    ensures r.Err? <==> Authenticate(cfg, users, header).Err?
    ensures r.Err? ==> r.error == Authenticate(cfg, users, header).error
    ensures r.Ok? ==>
              var uid := Authenticate(cfg, users, header).value.id;
              var page := r.value;
              && page.totalPl == TradeTotal(trades, uid, Gains) - TradeTotal(trades, uid, Losses)
              && page.activeBalance == OrZero(page.depositAmt) - OrZero(page.withdrawAmt) + page.totalPl
              && page.activeBalance
                 == TxTotal(txs, uid, Deposit) - TxTotal(txs, uid, Withdraw) + page.totalPl
              && (page.depositAmt.None? <==> !HasTransactions(txs, uid))
              && (page.withdrawAmt.None? <==> !HasTransactions(txs, uid))
              && (page.depositAmt.Some? ==> page.depositAmt.value == TxTotal(txs, uid, Deposit))
              && (page.withdrawAmt.Some? ==> page.withdrawAmt.value == TxTotal(txs, uid, Withdraw))
              && page.tips == CallGemini(cfg, Prompt(TipsInstruction, Reasons(trades, uid, Gains)))
              && page.lessons == CallGemini(cfg, Prompt(LessonsInstruction, Reasons(trades, uid, Losses)))
  {
    match Authenticate(cfg, users, header)
    case Err(e) => Err(e)
    case Ok(u) =>
      BalanceSplits(txs, trades, u.id);
      Ok(DashboardPage(
        ActiveBalance(txs, trades, u.id),
        ShownTotal(txs, u.id, Deposit),
        ShownTotal(txs, u.id, Withdraw),
        TotalPl(trades, u.id),
        CallGemini(cfg, Prompt(TipsInstruction, Reasons(trades, u.id, Gains))),
        CallGemini(cfg, Prompt(LessonsInstruction, Reasons(trades, u.id, Losses)))))
  }

  /** With no AI key configured, the dashboard shows the fixed text in both
      places, whatever the caller's rows and whatever the endpoint would say. */
  lemma DashboardWithoutKey(cfg: Config, users: seq<User>, txs: seq<Transaction>, trades: seq<DailyTrade>,
                            header: Option<string>)
    requires cfg.geminiKey == ""
    requires Authenticate(cfg, users, header).Ok?
    ensures var page := Dashboard(cfg, users, txs, trades, header);
            page.Ok? && page.value.tips == KeyMissingReply && page.value.lessons == KeyMissingReply
  {
  }
}
