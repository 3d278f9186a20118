/**
 * The point calculation engine: base points, six bonus rules, the consecutive-day streak
 * and the duplicate-receipt gate. The engine only reads the tables.
 */
module PointEngine {
  import opened Common
  import opened Text
  import opened Models

  /** The receipt dictionary handed to the engine; every key is present, any value may be `None`. */
  datatype ReceiptData = ReceiptData(
    supplierName: Option<string>, totalAmount: Option<int>, storeId: Option<int>, receiptDate: Option<int>)

  /** A truthy upload context (a non-empty dictionary); a falsy one is `None` where it is passed. */
  datatype UploadContext = UploadContext(uploadTime: Option<int>, weatherCode: Option<int>)

  datatype PointResult = PointResult(basePoints: int, bonusPoints: int, totalPoints: int, bonusDetails: seq<BonusDetail>)

  // ---------------------------------------------------------------- base and amount

  /** `_calculate_base_points`: 10 for a receipt with a supplier and a non-zero total, 5 otherwise. */
  function BasePoints(r: ReceiptData): int {
    if !TruthyStr(r.supplierName) || !TruthyInt(r.totalAmount) then 5 else 10
  }

  /** `_calculate_amount_bonus` for a present total: one exclusive tier. */
  function AmountBonusFor(amount: int): (b: Option<BonusDetail>)
    ensures b.Some? ==> b.value.AmountBonus? && b.value.amount == amount && DetailPoints(b.value) > 0
  {
    if amount >= 3000 then Some(AmountBonus("高額購入ボーナス", 50, "3000円以上", amount))
    else if amount >= 1000 then Some(AmountBonus("まとめ買いボーナス", 20, "1000円以上", amount))
    else if amount >= 500 then Some(AmountBonus("お買い物ボーナス", 10, "500円以上", amount))
    else if amount >= 100 then Some(AmountBonus("ちょこっと買いボーナス", 5, "100円以上", amount))
    else None
  }

  function BonusPoints(b: Option<BonusDetail>): int {
    if b.Some? then DetailPoints(b.value) else 0
  }

  /** The tiers are exclusive thresholds at 100, 500, 1000 and 3000 yen, and a larger total never earns less. */
  lemma AmountTiers(amount: int, larger: int)
    requires amount <= larger
    ensures BonusPoints(AmountBonusFor(amount)) ==
              (if amount >= 3000 then 50 else if amount >= 1000 then 20 else if amount >= 500 then 10
               else if amount >= 100 then 5 else 0)
    ensures AmountBonusFor(amount).None? <==> amount < 100
    ensures BonusPoints(AmountBonusFor(amount)) <= BonusPoints(AmountBonusFor(larger))
  {
  }

  // ---------------------------------------------------------------- the streak

  /** The receipts of a user created in the trailing 30 days. */
  function RecentReceipts(receipts: seq<Receipt>, userId: int, now: int): seq<Receipt> {
    if receipts == [] then []
    else
      var rest := RecentReceipts(receipts[1..], userId, now);
      if receipts[0].userId == userId && receipts[0].createdAt >= now - Days(30) then [receipts[0]] + rest else rest
  }

  /** Exactly the user's receipts created at or after `now - 30 days` are kept. */
  lemma {:induction false} RecentReceiptsMembers(receipts: seq<Receipt>, userId: int, now: int)
    ensures forall x :: x in RecentReceipts(receipts, userId, now) <==>
      x in receipts && x.userId == userId && x.createdAt >= now - Days(30)
  {
    if receipts != [] {
      RecentReceiptsMembers(receipts[1..], userId, now);
      assert forall x :: x in receipts <==> x == receipts[0] || x in receipts[1..];
    }
  }

  /** The distinct calendar dates on which the receipts were created. */
  function UploadDays(receipts: seq<Receipt>): set<int> {
    set i | 0 <= i < |receipts| :: DayOf(receipts[i].createdAt)
  }

  /** The number of consecutive dates in `dates` ending at `d` and counting backward. */
  function Run(dates: set<int>, d: int): nat
    decreases |dates|
  {
    if d in dates then 1 + Run(dates - {d}, d - 1) else 0
  }

  lemma {:induction false} NonEmptyHasElement(s: set<int>)
    requires s != {}
    ensures exists y :: y in s
  {
    if forall x :: x !in s {
      assert false;
    }
  }

  /** The largest element, found by removing elements one at a time. */
  ghost function Largest(s: set<int>): (m: int)
    requires s != {}
    ensures m in s && forall x :: x in s ==> x <= m
    decreases |s|
  {
    NonEmptyHasElement(s);
    var y :| y in s;
    var rest := s - {y};
    assert forall x :: x in s ==> x == y || x in rest;
    if rest == {} then y
    else
      var m := Largest(rest);
      if y > m then y else m
  }

  /** `max(dates)`. */
  function MaxOf(s: set<int>): (m: int)
    requires s != {}
    ensures m in s && forall x :: x in s ==> x <= m
  {
    assert Largest(s) in s;
    var m :| m in s && forall x :: x in s ==> x <= m;
    m
  }

  /** The streak of a set of upload dates, counted backward from the most recent one. */
  function Streak(dates: set<int>): nat {
    if dates == {} then 0 else Run(dates, MaxOf(dates))
  }

  /** `dates` lists the set `s` newest first, each date once. */
  predicate ListsDescending(dates: seq<int>, s: set<int>) {
    && (forall i :: 0 <= i < |dates| ==> dates[i] in s)
    && (forall x :: x in s ==> x in dates)
    && (forall i, j :: 0 <= i < j < |dates| ==> dates[i] > dates[j])
  }

  /** `sorted(dates, reverse=True)` for distinct dates. */
  function SortDesc(s: set<int>): (r: seq<int>)
    ensures |r| == |s| && ListsDescending(r, s)
    decreases |s|
  {
    if s == {} then []
    else
      var m := MaxOf(s);
      var rest := SortDesc(s - {m});
      ConsDescending(m, rest, s);
      [m] + rest
  }

  lemma ConsDescending(m: int, rest: seq<int>, s: set<int>)
    requires m in s && (forall x :: x in s ==> x <= m) && ListsDescending(rest, s - {m})
    ensures ListsDescending([m] + rest, s)
  {
    var r := [m] + rest;
    forall i | 1 <= i < |r| ensures r[i] == rest[i - 1] && r[i] in s && r[i] < m {
      assert rest[i - 1] in s - {m};
    }
    forall x | x in s ensures x in r {
      if x != m {
        assert x in s - {m};
      }
    }
  }

  /** A run of exactly `n` dates ending at `d`. */
  lemma {:induction false} RunExactly(dates: set<int>, d: int, n: nat)
    requires forall x :: d - n < x <= d ==> x in dates
    requires d - n !in dates
    ensures Run(dates, d) == n
    decreases n
  {
    if n > 0 {
      var rest := dates - {d};
      assert d in dates;
      forall x | (d - 1) - (n - 1) < x <= d - 1 ensures x in rest {
        assert x in dates;
      }
      RunExactly(rest, d - 1, n - 1);
    }
  }

  /** The run that `Run` counts: its dates are all present and the date just before it is absent. */
  lemma {:induction false} RunShape(dates: set<int>, d: int)
    ensures forall x :: d - Run(dates, d) < x <= d ==> x in dates
    ensures d - Run(dates, d) !in dates
    ensures Run(dates, d) <= |dates|
    decreases |dates|
  {
    if d in dates {
      var rest := dates - {d};
      RunShape(rest, d - 1);
      var n := Run(rest, d - 1);
      forall x | d - (n + 1) < x <= d ensures x in dates {
        if x < d {
          assert x in rest;
        }
      }
    }
  }

  /**
   * The streak is 0 for no dates; otherwise it is between 1 and the number of distinct dates,
   * every date of the run back from the most recent one is present, and the first gap ends it.
   */
  lemma StreakProperties(dates: set<int>)
    ensures Streak(dates) == 0 <==> dates == {}
    ensures dates != {} ==> 1 <= Streak(dates) <= |dates|
    ensures dates != {} ==> var m := MaxOf(dates);
      (forall x :: m - Streak(dates) < x <= m ==> x in dates) && m - Streak(dates) !in dates
  {
    if dates != {} {
      RunShape(dates, MaxOf(dates));
    }
  }

  /** The first element of the descending order is the largest date. */
  lemma SortDescHead(s: set<int>, dates: seq<int>)
    requires s != {} && ListsDescending(dates, s)
    ensures |dates| > 0 && dates[0] == MaxOf(s)
  {
    assert MaxOf(s) in dates;
    assert forall i :: 0 < i < |dates| ==> dates[0] > dates[i];
  }

  /** Once the walk stops after `n` consecutive dates, the date just below the run is absent. */
  lemma GapAfterWalk(s: set<int>, dates: seq<int>, n: nat)
    requires ListsDescending(dates, s) && 1 <= n <= |dates|
    requires forall k :: 0 <= k < n ==> dates[k] == dates[0] - k
    requires n < |dates| ==> dates[n] != dates[0] - n
    ensures dates[0] - n !in s
  {
    forall j | 0 <= j < |dates| ensures dates[j] != dates[0] - n {
      if j > n {
        assert dates[n] < dates[n - 1];
        assert dates[j] < dates[n];
      }
    }
  }

  /** Walking the descending dates until the first gap counts exactly the streak. */
  lemma SortedWalkIsStreak(s: set<int>, dates: seq<int>, n: nat)
    requires ListsDescending(dates, s) && 1 <= n <= |dates|
    requires forall k :: 0 <= k < n ==> dates[k] == dates[0] - k
    requires n < |dates| ==> dates[n] != dates[0] - n
    ensures Streak(s) == n
  {
    var m := dates[0];
    assert s != {} by {
      assert dates[0] in s;
    }
    SortDescHead(s, dates);
    forall x | m - n < x <= m ensures x in s {
      assert dates[m - x] == x;
    }
    GapAfterWalk(s, dates, n);
    RunExactly(s, m, n);
  }

  /** `_count_consecutive_days`: distinct dates, sorted newest first, counted until the first gap. */
  method CountConsecutiveDays(receipts: seq<Receipt>) returns (n: nat)
    ensures n == Streak(UploadDays(receipts))
  {
    if receipts == [] {
      return 0;
    }
    assert DayOf(receipts[0].createdAt) in UploadDays(receipts);
    var dates := SortDesc(UploadDays(receipts));
    n := 1;
    var current := dates[0];
    var i := 1;
    while i < |dates|
      invariant 1 <= i <= |dates| && n == i
      invariant forall k :: 0 <= k < i ==> dates[k] == current - k
    {
      if dates[i] == current - i {
        n := n + 1;
      } else {
        break;
      }
      i := i + 1;
    }
    SortedWalkIsStreak(UploadDays(receipts), dates, n);
  }

  /** The streak tiers of `_calculate_consecutive_bonus`. */
  function ConsecutiveBonusFor(days: int): (b: Option<BonusDetail>)
    ensures b.Some? ==> b.value.ConsecutiveBonus? && b.value.consecutiveDays == days && DetailPoints(b.value) > 0
  {
    if days >= 30 then Some(ConsecutiveBonus("継続は力なり（30日連続）", 100, days))
    else if days >= 7 then Some(ConsecutiveBonus("一週間チャレンジャー", 50, days))
    else if days >= 3 then Some(ConsecutiveBonus("3日坊主卒業", 20, days))
    else None
  }

  /** `_calculate_consecutive_bonus`: the streak over the user's recent receipts; a failed query gives nothing. */
  function ConsecutiveBonusSpec(t: Tables, userId: int, now: int, faults: set<Fault>): Option<BonusDetail> {
    if StreakQuery in faults then None
    else
      var recent := RecentReceipts(t.receipts, userId, now);
      if recent == [] then None else ConsecutiveBonusFor(Streak(UploadDays(recent)))
  }

  method CalculateConsecutiveBonus(db: Database, userId: int, now: int, faults: set<Fault>) returns (b: Option<BonusDetail>)
    ensures b == ConsecutiveBonusSpec(db.Snapshot(), userId, now, faults)
  {
    if StreakQuery in faults {
      return None;
    }
    var recent := RecentReceipts(db.receipts, userId, now);
    if recent == [] {
      return None;
    }
    var days := CountConsecutiveDays(recent);
    b := ConsecutiveBonusFor(days);
  }

  // ---------------------------------------------------------------- first upload

  function ReceiptCount(receipts: seq<Receipt>, userId: int): nat {
    if receipts == [] then 0
    else ReceiptCount(receipts[..|receipts| - 1], userId) + (if receipts[|receipts| - 1].userId == userId then 1 else 0)
  }

  /** `_calculate_first_time_bonus`: 50 when the user has exactly one stored receipt. */
  function FirstTimeBonusSpec(t: Tables, userId: int, faults: set<Fault>): (b: Option<BonusDetail>)
    ensures b.Some? ==> b.value.FirstTimeBonus? && DetailPoints(b.value) == 50
    ensures b.Some? <==> ReceiptCountQuery !in faults && ReceiptCount(t.receipts, userId) == 1
  {
    if ReceiptCountQuery !in faults && ReceiptCount(t.receipts, userId) == 1 then
      Some(FirstTimeBonus("初回アップロードボーナス", 50, "初めてのレシートアップロードありがとうございます！"))
    else None
  }

  // ---------------------------------------------------------------- weather and time

  /** The WMO snow codes of the weather bonus. */
  predicate IsSnowCode(c: int) {
    c in {71, 73, 75, 77, 85, 86}
  }

  /** The WMO rain codes of the weather bonus: 51 to 67 and 80 to 82. */
  predicate IsRainCode(c: int) {
    51 <= c < 68 || c in {80, 81, 82}
  }

  /** `_calculate_weather_bonus`. */
  function WeatherBonusFor(code: Option<int>): (b: Option<BonusDetail>)
    ensures b.Some? ==> b.value.WeatherBonus? && DetailPoints(b.value) > 0
  {
    if !TruthyInt(code) then None
    else if IsSnowCode(code.value) then Some(WeatherBonus("雪の日お疲れさまボーナス", 25, code.value))
    else if IsRainCode(code.value) then Some(WeatherBonus("雨の日お疲れさまボーナス", 15, code.value))
    else None
  }

  /** A missing or zero code earns nothing, snow earns 25, rain 15, anything else nothing. */
  lemma WeatherBonusRules(code: Option<int>)
    ensures BonusPoints(WeatherBonusFor(code)) ==
              (if !TruthyInt(code) then 0 else if IsSnowCode(code.value) then 25 else if IsRainCode(code.value) then 15 else 0)
    ensures !(TruthyInt(code) && IsSnowCode(code.value) && IsRainCode(code.value))
  {
  }

  /** `_calculate_time_bonus`: early morning, then evening, then the weekend; at most one of them. */
  function TimeBonusFor(uploadTime: Option<int>): (b: Option<BonusDetail>)
    ensures b.Some? ==> (b.value.TimeBonus? || b.value.WeekendBonus?) && DetailPoints(b.value) > 0
  {
    if uploadTime.None? then None
    else
      var hour := HourOf(uploadTime.value);
      if 6 <= hour < 9 then Some(TimeBonus("早起きボーナス", 10, hour))
      else if 18 <= hour < 21 then Some(TimeBonus("お疲れさまボーナス", 5, hour))
      else if WeekdayOf(uploadTime.value) >= 5 then Some(WeekendBonus("週末ボーナス", 5, WeekdayOf(uploadTime.value)))
      else None
  }

  /** Hours 6-8 earn 10, hours 18-20 earn 5, otherwise Saturday and Sunday earn 5; a weekend morning earns only the morning bonus. */
  lemma TimeBonusRules(t: int)
    ensures var h := HourOf(t);
      BonusPoints(TimeBonusFor(Some(t))) ==
        (if 6 <= h < 9 then 10 else if 18 <= h < 21 then 5 else if WeekdayOf(t) >= 5 then 5 else 0)
    ensures TimeBonusFor(Some(t)).Some? && TimeBonusFor(Some(t)).value.WeekendBonus? ==>
              WeekdayOf(t) >= 5 && !(6 <= HourOf(t) < 9) && !(18 <= HourOf(t) < 21)
    ensures TimeBonusFor(None).None?
  {
  }

  // ---------------------------------------------------------------- store

  /** The supplier-name keywords of the small-shop bonus (the last two keep their literal wave dash). */
  const ShopKeywords: seq<string> := ["商店", "個人", "家族", "〜屋", "〜店"]

  predicate HasShopKeyword(name: string) {
    exists k :: 0 <= k < |ShopKeywords| && Contains(name, ShopKeywords[k])
  }

  /** Why the engine's outer `try` gives up: a `None` total or supplier reaching a comparison. */
  datatype EngineError = TypeError

  /**
   * `_calculate_store_bonus`: a registered store earns 10 (a failed lookup falls through);
   * otherwise a shop keyword in the supplier name earns 15. A `None` supplier name reaching
   * the keyword test raises.
   */
  function StoreBonusFor(stores: map<int, string>, r: ReceiptData, faults: set<Fault>): (b: Result<Option<BonusDetail>, EngineError>)
    ensures b.Ok? && b.value.Some? ==> b.value.value.StoreBonus? && DetailPoints(b.value.value) > 0
  {
    if TruthyInt(r.storeId) && StoreQuery !in faults && r.storeId.value in stores then
      Ok(Some(StoreBonus("商店街加盟店ボーナス", 10, stores[r.storeId.value])))
    else if r.supplierName.None? then Err(TypeError)
    else if HasShopKeyword(r.supplierName.value) then
      Ok(Some(StoreBonus("個人商店応援ボーナス", 15, r.supplierName.value)))
    else Ok(None)
  }

  // ---------------------------------------------------------------- the whole calculation

  /** The result returned when any rule raises. */
  function Fallback(): PointResult {
    PointResult(10, 0, 10, [ErrorDetail("ボーナス計算エラー")])
  }

  function Listed(b: Option<BonusDetail>): seq<BonusDetail> {
    if b.Some? then [b.value] else []
  }

  /** The weather bonus, computed only with an upload context. */
  function ContextWeather(ctx: Option<UploadContext>): Option<BonusDetail> {
    if ctx.Some? then WeatherBonusFor(ctx.value.weatherCode) else None
  }

  /** The time bonus, computed only with an upload context. */
  function ContextTime(ctx: Option<UploadContext>): Option<BonusDetail> {
    if ctx.Some? then TimeBonusFor(ctx.value.uploadTime) else None
  }

  /** The breakdown: the bonuses that apply, in the engine's fixed order. */
  function Breakdown(amount: Option<BonusDetail>, consecutive: Option<BonusDetail>, first: Option<BonusDetail>,
                     weather: Option<BonusDetail>, time: Option<BonusDetail>, store: Option<BonusDetail>): seq<BonusDetail> {
    Listed(amount) + Listed(consecutive) + Listed(first) + Listed(weather) + Listed(time) + Listed(store)
  }

  /**
   * `calculate_points`: base points plus, in a fixed order, the amount, consecutive, first-time,
   * weather and time (only with an upload context) and store bonuses that apply. A `None` total
   * or a `None` supplier reaching the keyword test yields the fallback.
   */
  function PointsFor(t: Tables, r: ReceiptData, userId: int, ctx: Option<UploadContext>, now: int, faults: set<Fault>): PointResult {
    if r.totalAmount.None? then Fallback()
    else
      var store := StoreBonusFor(t.stores, r, faults);
      if store.Err? then Fallback()
      else
        var details := Breakdown(
          AmountBonusFor(r.totalAmount.value), ConsecutiveBonusSpec(t, userId, now, faults),
          FirstTimeBonusSpec(t, userId, faults), ContextWeather(ctx), ContextTime(ctx), store.value);
        var bonus := SumDetailPoints(details);
        PointResult(BasePoints(r), bonus, BasePoints(r) + bonus, details)
  }

  lemma SumAppend(ds: seq<BonusDetail>, d: BonusDetail)
    ensures SumDetailPoints(ds + [d]) == SumDetailPoints(ds) + DetailPoints(d)
  {
    assert (ds + [d])[..|ds|] == ds;
  }

  /** `if bonus > 0: bonus_points += bonus; bonus_details.append(detail)`. */
  method AddIfEarned(details: seq<BonusDetail>, total: int, b: Option<BonusDetail>)
    returns (details': seq<BonusDetail>, total': int)
    requires total == SumDetailPoints(details)
    requires b.Some? ==> DetailPoints(b.value) > 0
    ensures details' == details + Listed(b)
    ensures total' == SumDetailPoints(details')
  {
    details', total' := details, total;
    if b.Some? && DetailPoints(b.value) > 0 {
      SumAppend(details, b.value);
      details', total' := details + [b.value], total + DetailPoints(b.value);
    }
  }

  /** The first five rules of `calculate_points`, each appended when it earns points. */
  method EarnedBonuses(db: Database, amount: int, userId: int, ctx: Option<UploadContext>, now: int, faults: set<Fault>)
    returns (details: seq<BonusDetail>, total: int)
    ensures details == Listed(AmountBonusFor(amount)) + Listed(ConsecutiveBonusSpec(db.Snapshot(), userId, now, faults))
      + Listed(FirstTimeBonusSpec(db.Snapshot(), userId, faults)) + Listed(ContextWeather(ctx)) + Listed(ContextTime(ctx))
    ensures total == SumDetailPoints(details)
  {
    details, total := AddIfEarned([], 0, AmountBonusFor(amount));
    assert details == Listed(AmountBonusFor(amount));
    var consecutive := CalculateConsecutiveBonus(db, userId, now, faults);
    details, total := AddIfEarned(details, total, consecutive);
    var first := FirstTimeBonusSpec(db.Snapshot(), userId, faults);
    details, total := AddIfEarned(details, total, first);
    if ctx.Some? {
      var weather := WeatherBonusFor(ctx.value.weatherCode);
      details, total := AddIfEarned(details, total, weather);
      var time := TimeBonusFor(ctx.value.uploadTime);
      details, total := AddIfEarned(details, total, time);
    } else {
      assert details == details + Listed(None) + Listed(None);
    }
  }

  method CalculatePoints(db: Database, r: ReceiptData, userId: int, ctx: Option<UploadContext>, now: int, faults: set<Fault>)
    returns (result: PointResult)
    ensures result == PointsFor(db.Snapshot(), r, userId, ctx, now, faults)
  {
    var base := BasePoints(r);
    if r.totalAmount.None? {
      return Fallback();
    }
    var details, total := EarnedBonuses(db, r.totalAmount.value, userId, ctx, now, faults);
    var store := StoreBonusFor(db.stores, r, faults);
    if store.Err? {
      return Fallback();
    }
    details, total := AddIfEarned(details, total, store.value);
    result := PointResult(base, total, base + total, details);
  }

  /** The position of each bonus kind in the breakdown. */
  function Rank(d: BonusDetail): int {
    match d
    case AmountBonus(_, _, _, _) => 0
    case ConsecutiveBonus(_, _, _) => 1
    case FirstTimeBonus(_, _, _) => 2
    case WeatherBonus(_, _, _) => 3
    case TimeBonus(_, _, _) => 4
    case WeekendBonus(_, _, _) => 4
    case StoreBonus(_, _, _) => 5
    case ErrorDetail(_) => 6
  }

  /** Every entry earned points, and the kinds appear in strictly increasing rank below `bound`. */
  predicate Ordered(ds: seq<BonusDetail>, bound: int) {
    && (forall i :: 0 <= i < |ds| ==> DetailPoints(ds[i]) > 0 && !ds[i].ErrorDetail? && Rank(ds[i]) < bound)
    && (forall i, j :: 0 <= i < j < |ds| ==> Rank(ds[i]) < Rank(ds[j]))
  }

  lemma Extend(ds: seq<BonusDetail>, b: Option<BonusDetail>, k: int)
    requires Ordered(ds, k)
    requires b.Some? ==> Rank(b.value) == k && DetailPoints(b.value) > 0 && !b.value.ErrorDetail?
    ensures Ordered(ds + Listed(b), k + 1)
  {
  }

  lemma {:induction false} SumOfPositive(ds: seq<BonusDetail>)
    requires forall i :: 0 <= i < |ds| ==> DetailPoints(ds[i]) > 0
    ensures SumDetailPoints(ds) >= 0
  {
    if ds != [] {
      SumOfPositive(ds[..|ds| - 1]);
    }
  }

  /**
   * The shape of every result: total = base + bonus with bonus the sum of the listed entries;
   * either the fallback, or base points as the receipt earns them and entries that each earned
   * points, in the fixed order amount, consecutive, first-time, weather, time, store, each kind
   * at most once. The total is never below 5.
   */
  lemma PointsShape(t: Tables, r: ReceiptData, userId: int, ctx: Option<UploadContext>, now: int, faults: set<Fault>)
    ensures var res := PointsFor(t, r, userId, ctx, now, faults);
      && res.totalPoints == res.basePoints + res.bonusPoints
      && res.bonusPoints == SumDetailPoints(res.bonusDetails)
      && (res == Fallback() || (res.basePoints == BasePoints(r) && Ordered(res.bonusDetails, 6)))
      && res.totalPoints >= 5
  {
    if r.totalAmount.Some? && StoreBonusFor(t.stores, r, faults).Ok? {
      BreakdownOrdered(
        AmountBonusFor(r.totalAmount.value), ConsecutiveBonusSpec(t, userId, now, faults),
        FirstTimeBonusSpec(t, userId, faults), ContextWeather(ctx), ContextTime(ctx),
        StoreBonusFor(t.stores, r, faults).value);
    }
  }

  predicate RankedAt(b: Option<BonusDetail>, k: int) {
    b.Some? ==> Rank(b.value) == k && DetailPoints(b.value) > 0 && !b.value.ErrorDetail?
  }

  lemma BreakdownOrdered(amount: Option<BonusDetail>, consecutive: Option<BonusDetail>, first: Option<BonusDetail>,
                         weather: Option<BonusDetail>, time: Option<BonusDetail>, store: Option<BonusDetail>)
    requires RankedAt(amount, 0) && RankedAt(consecutive, 1) && RankedAt(first, 2)
    requires RankedAt(weather, 3) && RankedAt(time, 4) && RankedAt(store, 5)
    ensures Ordered(Breakdown(amount, consecutive, first, weather, time, store), 6)
    ensures SumDetailPoints(Breakdown(amount, consecutive, first, weather, time, store)) >= 0
  {
    var d0 := Listed(amount);
    Extend([], amount, 0);
    var d1 := d0 + Listed(consecutive);
    Extend(d0, consecutive, 1);
    var d2 := d1 + Listed(first);
    Extend(d1, first, 2);
    var d3 := d2 + Listed(weather);
    Extend(d2, weather, 3);
    var d4 := d3 + Listed(time);
    Extend(d3, time, 4);
    Extend(d4, store, 5);
    SumOfPositive(d4 + Listed(store));
  }

  /** When the fallback applies: a `None` total, or a `None` supplier with no registered store to short-cut the keyword test. */
  lemma FallbackCases(t: Tables, r: ReceiptData, userId: int, ctx: Option<UploadContext>, now: int, faults: set<Fault>)
    ensures var res := PointsFor(t, r, userId, ctx, now, faults);
      && (r.totalAmount.None? ==> res == Fallback())
      && (r.supplierName.None? && !(TruthyInt(r.storeId) && StoreQuery !in faults && r.storeId.value in t.stores) ==> res == Fallback())
      && (r.totalAmount.Some? && r.supplierName.Some? ==> res.basePoints == BasePoints(r) && res.bonusDetails != [ErrorDetail("ボーナス計算エラー")])
      && (res == Fallback() ==> res.totalPoints == 10 && |res.bonusDetails| == 1 && TypeTag(res.bonusDetails[0]) == "error")
  {
  }

  /** The first-upload bonus is listed iff the user's stored receipt count is exactly 1 (outside the fallback). */
  lemma FirstTimeIffSingleReceipt(t: Tables, r: ReceiptData, userId: int, ctx: Option<UploadContext>, now: int, faults: set<Fault>)
    requires PointsFor(t, r, userId, ctx, now, faults) != Fallback()
    requires ReceiptCountQuery !in faults
    ensures (exists i :: 0 <= i < |PointsFor(t, r, userId, ctx, now, faults).bonusDetails|
               && PointsFor(t, r, userId, ctx, now, faults).bonusDetails[i].FirstTimeBonus?)
            <==> ReceiptCount(t.receipts, userId) == 1
  {
    assert r.totalAmount.Some? && StoreBonusFor(t.stores, r, faults).Ok?;
    var amount := AmountBonusFor(r.totalAmount.value);
    var consecutive := ConsecutiveBonusSpec(t, userId, now, faults);
    var first := FirstTimeBonusSpec(t, userId, faults);
    var weather := ContextWeather(ctx);
    var time := ContextTime(ctx);
    var store := StoreBonusFor(t.stores, r, faults).value;
    var ds := Breakdown(amount, consecutive, first, weather, time, store);
    assert PointsFor(t, r, userId, ctx, now, faults).bonusDetails == ds by {
      PointsForBreakdown(t, r, userId, ctx, now, faults);
    }
    RulesRanked(t, r, userId, ctx, now, faults);
    BreakdownFirstTime(amount, consecutive, first, weather, time, store);
  }

  /** Each rule yields at most an entry of its own kind that earned points. */
  lemma RulesRanked(t: Tables, r: ReceiptData, userId: int, ctx: Option<UploadContext>, now: int, faults: set<Fault>)
    requires r.totalAmount.Some? && StoreBonusFor(t.stores, r, faults).Ok?
    ensures RankedAt(AmountBonusFor(r.totalAmount.value), 0) && RankedAt(ConsecutiveBonusSpec(t, userId, now, faults), 1)
    ensures RankedAt(FirstTimeBonusSpec(t, userId, faults), 2) && RankedAt(ContextWeather(ctx), 3)
    ensures RankedAt(ContextTime(ctx), 4) && RankedAt(StoreBonusFor(t.stores, r, faults).value, 5)
  {
  }

  /** The breakdown lists a first-upload entry iff the first-upload bonus applies. */
  lemma BreakdownFirstTime(amount: Option<BonusDetail>, consecutive: Option<BonusDetail>, first: Option<BonusDetail>,
                           weather: Option<BonusDetail>, time: Option<BonusDetail>, store: Option<BonusDetail>)
    requires RankedAt(amount, 0) && RankedAt(consecutive, 1) && RankedAt(first, 2)
    requires RankedAt(weather, 3) && RankedAt(time, 4) && RankedAt(store, 5)
    ensures var ds := Breakdown(amount, consecutive, first, weather, time, store);
      (exists i :: 0 <= i < |ds| && ds[i].FirstTimeBonus?) <==> first.Some?
  {
    var ds := Breakdown(amount, consecutive, first, weather, time, store);
    BreakdownMembers(amount, consecutive, first, weather, time, store);
    if exists i :: 0 <= i < |ds| && ds[i].FirstTimeBonus? {
      var i :| 0 <= i < |ds| && ds[i].FirstTimeBonus?;
      assert ds[i] in ds;
      assert Rank(ds[i]) == 2;
    }
    if first.Some? {
      assert first.value in ds;
    }
  }

  /** The entries of a breakdown are exactly the bonuses that apply. */
  lemma BreakdownMembers(amount: Option<BonusDetail>, consecutive: Option<BonusDetail>, first: Option<BonusDetail>,
                         weather: Option<BonusDetail>, time: Option<BonusDetail>, store: Option<BonusDetail>)
    ensures forall d :: d in Breakdown(amount, consecutive, first, weather, time, store) <==>
      (amount == Some(d) || consecutive == Some(d) || first == Some(d) || weather == Some(d) || time == Some(d) || store == Some(d))
  {
    var d0 := Listed(amount);
    var d1 := d0 + Listed(consecutive);
    var d2 := d1 + Listed(first);
    var d3 := d2 + Listed(weather);
    var d4 := d3 + Listed(time);
    InListed([], amount);
    assert [] + d0 == d0;
    InListed(d0, consecutive);
    InListed(d1, first);
    InListed(d2, weather);
    InListed(d3, time);
    InListed(d4, store);
  }

  lemma InListed(ds: seq<BonusDetail>, b: Option<BonusDetail>)
    ensures forall d :: d in ds + Listed(b) <==> d in ds || b == Some(d)
  {
  }

  /** With no upload context neither a weather nor a time bonus is computed. */
  lemma NoContextNoWeatherOrTime(t: Tables, r: ReceiptData, userId: int, now: int, faults: set<Fault>)
    ensures forall d :: d in PointsFor(t, r, userId, None, now, faults).bonusDetails ==>
      !d.WeatherBonus? && !d.TimeBonus? && !d.WeekendBonus?
  {
    if r.totalAmount.Some? && StoreBonusFor(t.stores, r, faults).Ok? {
      var amount := AmountBonusFor(r.totalAmount.value);
      var consecutive := ConsecutiveBonusSpec(t, userId, now, faults);
      var first := FirstTimeBonusSpec(t, userId, faults);
      var store := StoreBonusFor(t.stores, r, faults).value;
      assert PointsFor(t, r, userId, None, now, faults).bonusDetails == Breakdown(amount, consecutive, first, None, None, store) by {
        PointsForBreakdown(t, r, userId, None, now, faults);
      }
      RulesRanked(t, r, userId, None, now, faults);
      BreakdownByRank(amount, consecutive, first, None, None, store);
    }
  }

  /** Each entry of a breakdown is the bonus of its rank. */
  lemma BreakdownByRank(amount: Option<BonusDetail>, consecutive: Option<BonusDetail>, first: Option<BonusDetail>,
                        weather: Option<BonusDetail>, time: Option<BonusDetail>, store: Option<BonusDetail>)
    requires RankedAt(amount, 0) && RankedAt(consecutive, 1) && RankedAt(first, 2)
    requires RankedAt(weather, 3) && RankedAt(time, 4) && RankedAt(store, 5)
    ensures forall d :: d in Breakdown(amount, consecutive, first, weather, time, store) ==>
      && (Rank(d) == 0 ==> amount == Some(d)) && (Rank(d) == 1 ==> consecutive == Some(d))
      && (Rank(d) == 2 ==> first == Some(d)) && (Rank(d) == 3 ==> weather == Some(d))
      && (Rank(d) == 4 ==> time == Some(d)) && (Rank(d) == 5 ==> store == Some(d))
  {
    BreakdownMembers(amount, consecutive, first, weather, time, store);
    forall d | d in Breakdown(amount, consecutive, first, weather, time, store)
      ensures && (Rank(d) == 0 ==> amount == Some(d)) && (Rank(d) == 1 ==> consecutive == Some(d))
              && (Rank(d) == 2 ==> first == Some(d)) && (Rank(d) == 3 ==> weather == Some(d))
              && (Rank(d) == 4 ==> time == Some(d)) && (Rank(d) == 5 ==> store == Some(d))
    {
      if amount == Some(d) {
        assert Rank(d) == 0;
      } else if consecutive == Some(d) {
        assert Rank(d) == 1;
      } else if first == Some(d) {
        assert Rank(d) == 2;
      } else if weather == Some(d) {
        assert Rank(d) == 3;
      } else if time == Some(d) {
        assert Rank(d) == 4;
      } else {
        assert Rank(d) == 5;
      }
    }
  }

  // ---------------------------------------------------------------- duplicate gate

  /** Whether a stored receipt matches: same user, supplier and total, receipt time within 30 minutes either side. */
  predicate MatchesReceipt(x: Receipt, userId: int, supplier: string, amount: int, date: int) {
    x.userId == userId && x.supplierName == Some(supplier) && x.totalAmount == Some(amount)
    && date - 30 <= x.receiptDate <= date + 30
  }

  /** The `.first()` of the duplicate query. */
  function FindDuplicate(receipts: seq<Receipt>, userId: int, supplier: string, amount: int, date: int): (r: Option<nat>)
    ensures r.Some? ==> r.value < |receipts| && MatchesReceipt(receipts[r.value], userId, supplier, amount, date)
    ensures r.None? ==> forall i :: 0 <= i < |receipts| ==> !MatchesReceipt(receipts[i], userId, supplier, amount, date)
  {
    if receipts == [] then None
    else if MatchesReceipt(receipts[0], userId, supplier, amount, date) then Some(0)
    else
      var rest := FindDuplicate(receipts[1..], userId, supplier, amount, date);
      if rest.Some? then Some(rest.value + 1)
      else
        assert forall i :: 1 <= i < |receipts| ==> receipts[i] == receipts[1..][i - 1];
        None
  }

  /** `is_duplicate_receipt`: false when a field is falsy or the lookup fails; otherwise whether a matching receipt exists. */
  function IsDuplicateReceipt(t: Tables, r: ReceiptData, userId: int, faults: set<Fault>): (dup: bool)
    ensures dup <==>
      && TruthyStr(r.supplierName) && TruthyInt(r.totalAmount) && r.receiptDate.Some?
      && DuplicateLookup !in faults
      && exists i :: 0 <= i < |t.receipts|
           && MatchesReceipt(t.receipts[i], userId, r.supplierName.value, r.totalAmount.value, r.receiptDate.value)
  {
    if !TruthyStr(r.supplierName) || !TruthyInt(r.totalAmount) || r.receiptDate.None? then false
    else if DuplicateLookup in faults then false
    else FindDuplicate(t.receipts, userId, r.supplierName.value, r.totalAmount.value, r.receiptDate.value).Some?
  }

  /** The window is inclusive at both ends: a receipt 30 minutes away matches, 31 minutes away does not. */
  lemma DuplicateWindowEnds(x: Receipt, userId: int, supplier: string, amount: int, date: int)
    requires x.userId == userId && x.supplierName == Some(supplier) && x.totalAmount == Some(amount)
    ensures x.receiptDate == date + 30 || x.receiptDate == date - 30 ==> MatchesReceipt(x, userId, supplier, amount, date)
    ensures x.receiptDate == date + 31 || x.receiptDate == date - 31 ==> !MatchesReceipt(x, userId, supplier, amount, date)
  {
  }

  // ---------------------------------------------------------------- a worked example

  /**
   * A first receipt of 3200 yen uploaded at 07:00 on a weekday under snow (code 73): base 10,
   * amount 50, first upload 50, snow 25 and early morning 10, so 145 points in total.
   */
  lemma FirstSnowyMorningReceipt()
    ensures var now := 20000 * 1440 + 7 * 60;
      var x := Receipt(0, None, Some("青果"), Some(3200), now, now, []);
      var t := EmptyTables().(users := [User("a@example.com", false)], receipts := [x]);
      var r := ReceiptData(Some("青果"), Some(3200), None, Some(now));
      var res := PointsFor(t, r, 0, Some(UploadContext(Some(now), Some(73))), now, {});
      res.basePoints == 10 && res.bonusPoints == 135 && res.totalPoints == 145 && |res.bonusDetails| == 4
  {
    var now := 20000 * 1440 + 7 * 60;
    var x := Receipt(0, None, Some("青果"), Some(3200), now, now, []);
    var t := EmptyTables().(users := [User("a@example.com", false)], receipts := [x]);
    var r := ReceiptData(Some("青果"), Some(3200), None, Some(now));
    var ctx := Some(UploadContext(Some(now), Some(73)));
    var a := AmountBonus("高額購入ボーナス", 50, "3000円以上", 3200);
    var f := FirstTimeBonus("初回アップロードボーナス", 50, "初めてのレシートアップロードありがとうございます！");
    var w := WeatherBonus("雪の日お疲れさまボーナス", 25, 73);
    var m := TimeBonus("早起きボーナス", 10, 7);
    ExampleNoStreak(t, x, now);
    assert StoreBonusFor(t.stores, r, {}) == Ok(None) by {
      ExampleNoShopKeyword();
    }
    assert FirstTimeBonusSpec(t, 0, {}) == Some(f) by {
      assert ReceiptCount(t.receipts, 0) == 1;
    }
    assert ContextTime(ctx) == Some(m) by {
      assert HourOf(now) == 7;
    }
    assert ContextWeather(ctx) == Some(w);
    assert AmountBonusFor(3200) == Some(a);
    PointsForBreakdown(t, r, 0, ctx, now, {});
    assert Breakdown(Some(a), None, Some(f), Some(w), Some(m), None) == [a, f, w, m];
    SumOfFour(a, f, w, m);
  }

  /** Outside the fallback, the result is the base points plus the sum of the breakdown. */
  lemma PointsForBreakdown(t: Tables, r: ReceiptData, userId: int, ctx: Option<UploadContext>, now: int, faults: set<Fault>)
    requires r.totalAmount.Some? && StoreBonusFor(t.stores, r, faults).Ok?
    ensures var details := Breakdown(
        AmountBonusFor(r.totalAmount.value), ConsecutiveBonusSpec(t, userId, now, faults),
        FirstTimeBonusSpec(t, userId, faults), ContextWeather(ctx), ContextTime(ctx), StoreBonusFor(t.stores, r, faults).value);
      PointsFor(t, r, userId, ctx, now, faults)
        == PointResult(BasePoints(r), SumDetailPoints(details), BasePoints(r) + SumDetailPoints(details), details)
  {
  }

  /** The example's only receipt gives a one-day streak, which earns no streak bonus. */
  lemma ExampleNoStreak(t: Tables, x: Receipt, now: int)
    requires now == 20000 * 1440 + 7 * 60 && t.receipts == [x] && x.userId == 0 && x.createdAt == now
    ensures ConsecutiveBonusSpec(t, 0, now, {}) == None
  {
    assert RecentReceipts(t.receipts, 0, now) == [x];
    assert UploadDays([x]) == {20000};
    assert MaxOf({20000}) == 20000;
    assert Run({20000}, 20000) == 1 by {
      assert {20000} - {20000} == {};
    }
  }

  lemma ExampleNoShopKeyword()
    ensures !HasShopKeyword("青果")
  {
    forall k | 0 <= k < |ShopKeywords| ensures !Contains("青果", ShopKeywords[k]) {
      NotContainsMissingChar("青果", ShopKeywords[k], 0);
    }
  }

  lemma SumOfFour(a: BonusDetail, b: BonusDetail, c: BonusDetail, d: BonusDetail)
    ensures SumDetailPoints([a, b, c, d]) == DetailPoints(a) + DetailPoints(b) + DetailPoints(c) + DetailPoints(d)
  {
    SumAppend([], a);
    assert [] + [a] == [a];
    SumAppend([a], b);
    assert [a] + [b] == [a, b];
    SumAppend([a, b], c);
    assert [a, b] + [c] == [a, b, c];
    SumAppend([a, b, c], d);
    assert [a, b, c] + [d] == [a, b, c, d];
  }
}
