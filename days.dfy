/** The DailyTrade table as the `daily` route uses it: look a row up by
    (user_id, trade_date), and upsert one, which overwrites the row found
    or appends a new row when there is none. */
module Days {
  import opened Records

  /** `DailyTrade.query.filter_by(user_id=u, trade_date=d).first()`. */
  function FindTrade(trades: seq<DailyTrade>, userId: nat, d: Date): (r: Option<DailyTrade>)
    ensures r.Some? ==> r.value in trades && IsKey(r.value, userId, d)
    ensures r.None? <==> forall i :: 0 <= i < |trades| ==> !IsKey(trades[i], userId, d)
  {
    if trades == [] then None
    else if IsKey(trades[0], userId, d) then Some(trades[0])
    else
      var r := FindTrade(trades[1..], userId, d);
      assert forall i :: 1 <= i < |trades| ==> trades[i] == trades[1..][i - 1];
      r
  }

  /** Position of the first row with that key, or |trades| when there is none. */
  function TradeIndex(trades: seq<DailyTrade>, userId: nat, d: Date): (i: nat)
    ensures i <= |trades|
    ensures i < |trades| ==> IsKey(trades[i], userId, d)
    ensures forall j :: 0 <= j < i ==> !IsKey(trades[j], userId, d)
  {
    if trades == [] then 0
    else if IsKey(trades[0], userId, d) then 0
    else
      var i := TradeIndex(trades[1..], userId, d);
      assert forall j :: 1 <= j < i + 1 ==> trades[j] == trades[1..][j - 1];
      1 + i
  }

  /** How many rows carry the key. */
  function CountKey(trades: seq<DailyTrade>, userId: nat, d: Date): nat
  {
    if trades == [] then 0
    else (if IsKey(trades[0], userId, d) then 1 else 0) + CountKey(trades[1..], userId, d)
  }

  lemma {:induction false} CountKeyNone(trades: seq<DailyTrade>, userId: nat, d: Date)
    requires forall i :: 0 <= i < |trades| ==> !IsKey(trades[i], userId, d)
    ensures CountKey(trades, userId, d) == 0
  {
    if trades != [] {
      assert forall i :: 1 <= i < |trades| ==> trades[1..][i - 1] == trades[i];
      CountKeyNone(trades[1..], userId, d);
    }
  }

  /** Under the `uix_user_date` constraint a key is carried by at most one row. */
  lemma {:induction false} UniqueCountsOne(trades: seq<DailyTrade>, userId: nat, d: Date)
    requires UniqueDays(trades)
    ensures CountKey(trades, userId, d) <= 1
  {
    if trades != [] {
      var rest := trades[1..];
      assert forall i :: 0 <= i < |rest| ==> rest[i] == trades[i + 1];
      if IsKey(trades[0], userId, d) {
        CountKeyNone(rest, userId, d);
      } else {
        UniqueCountsOne(rest, userId, d);
      }
    }
  }

  /** The rows with any other key, in table order. */
  function Others(trades: seq<DailyTrade>, userId: nat, d: Date): seq<DailyTrade>
  {
    if trades == [] then []
    else (if IsKey(trades[0], userId, d) then [] else [trades[0]]) + Others(trades[1..], userId, d)
  }

  /** The effect of POST `daily`: the first row with `rec`'s key becomes `rec`;
      with no such row `rec` is added at the end. */
  function Upsert(trades: seq<DailyTrade>, rec: DailyTrade): (r: seq<DailyTrade>)
    ensures rec in r
    ensures forall x :: x in r ==> x in trades || x == rec
    ensures |trades| <= |r| <= |trades| + 1
  {
    if trades == [] then [rec]
    else if IsKey(trades[0], rec.userId, rec.tradeDate) then [rec] + trades[1..]
    else [trades[0]] + Upsert(trades[1..], rec)
  }

  /** Upsert done the way the route does it: find the row, then overwrite it in
      place, or add a new one. */
  lemma {:induction false} UpsertAt(trades: seq<DailyTrade>, rec: DailyTrade)
    ensures var i := TradeIndex(trades, rec.userId, rec.tradeDate);
            Upsert(trades, rec) == if i < |trades| then trades[i := rec] else trades + [rec]
  {
    if trades != [] && !IsKey(trades[0], rec.userId, rec.tradeDate) {
      UpsertAt(trades[1..], rec);
      var i := TradeIndex(trades[1..], rec.userId, rec.tradeDate);
      if i < |trades[1..]| {
        assert [trades[0]] + trades[1..][i := rec] == trades[i + 1 := rec];
      } else {
        assert [trades[0]] + (trades[1..] + [rec]) == trades + [rec];
      }
    }
  }

  /** After the upsert, looking the key up finds exactly the submitted row... */
  lemma {:induction false} UpsertFinds(trades: seq<DailyTrade>, rec: DailyTrade)
    ensures FindTrade(Upsert(trades, rec), rec.userId, rec.tradeDate) == Some(rec)
  {
    if trades != [] && !IsKey(trades[0], rec.userId, rec.tradeDate) {
      UpsertFinds(trades[1..], rec);
    }
  }

  /** ... and, when at most one row had the key before, exactly one row has it after. */
  lemma {:induction false} UpsertSingle(trades: seq<DailyTrade>, rec: DailyTrade)
    requires CountKey(trades, rec.userId, rec.tradeDate) <= 1
    ensures CountKey(Upsert(trades, rec), rec.userId, rec.tradeDate) == 1
  {
    if trades != [] {
      if IsKey(trades[0], rec.userId, rec.tradeDate) {
        assert Upsert(trades, rec)[1..] == trades[1..];
      } else {
        UpsertSingle(trades[1..], rec);
        assert Upsert(trades, rec)[1..] == Upsert(trades[1..], rec);
      }
    }
  }

  /** Every row with another key is kept, in the same order. */
  lemma {:induction false} UpsertKeepsOthers(trades: seq<DailyTrade>, rec: DailyTrade)
    ensures Others(Upsert(trades, rec), rec.userId, rec.tradeDate) == Others(trades, rec.userId, rec.tradeDate)
  {
    var k, d := rec.userId, rec.tradeDate;
    if trades == [] {
      assert Others([rec], k, d) == [] + Others([], k, d);
    } else if IsKey(trades[0], k, d) {
      assert ([rec] + trades[1..])[1..] == trades[1..];
    } else {
      UpsertKeepsOthers(trades[1..], rec);
      assert Upsert(trades, rec)[1..] == Upsert(trades[1..], rec);
    }
  }

  /** The `uix_user_date` constraint survives every upsert. */
  lemma {:induction false} UpsertKeepsUnique(trades: seq<DailyTrade>, rec: DailyTrade)
    requires UniqueDays(trades)
    ensures UniqueDays(Upsert(trades, rec))
  {
    if trades != [] {
      var rest := trades[1..];
      assert UniqueDays(rest) by {
        forall i, j | 0 <= i < j < |rest|
          ensures !IsKey(rest[j], rest[i].userId, rest[i].tradeDate)
        {
          assert rest[i] == trades[i + 1] && rest[j] == trades[j + 1];
        }
      }
      var r := Upsert(trades, rec);
      if IsKey(trades[0], rec.userId, rec.tradeDate) {
        forall i, j | 0 <= i < j < |r| ensures !IsKey(r[j], r[i].userId, r[i].tradeDate) {
          assert r[j] == trades[j];
          if i > 0 { assert r[i] == trades[i]; }
        }
      } else {
        UpsertKeepsUnique(rest, rec);
        var tail := Upsert(rest, rec);
        assert r == [trades[0]] + tail;
        forall i, j | 0 <= i < j < |r| ensures !IsKey(r[j], r[i].userId, r[i].tradeDate) {
          assert r[j] == tail[j - 1];
          if i > 0 {
            assert r[i] == tail[i - 1];
          } else {
            assert r[j] in tail;
            if r[j] != rec {
              var m :| 0 <= m < |rest| && rest[m] == r[j];
              assert trades[m + 1] == r[j];
            }
          }
        }
      }
    }
  }

  /** Posting the same values again leaves the table as it is. */
  lemma {:induction false} UpsertIdempotent(trades: seq<DailyTrade>, rec: DailyTrade)
    ensures Upsert(Upsert(trades, rec), rec) == Upsert(trades, rec)
  {
    if trades != [] && !IsKey(trades[0], rec.userId, rec.tradeDate) {
      UpsertIdempotent(trades[1..], rec);
      assert Upsert(trades, rec)[1..] == Upsert(trades[1..], rec);
    }
  }
}
