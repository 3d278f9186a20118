/**
 * The receipt upload endpoint after the OCR reply has arrived: the duplicate gate, the saved
 * receipt, the point credit, the badge evaluation, and the zero response that replaces a
 * failure in the point or badge stages.
 */
module Receipts {
  import opened Common
  import opened Models
  import opened Crud
  import opened PointEngine
  import opened BadgeEngine

  /** The fields of the OCR service's reply that the upload reads; `line_items` defaults to empty. */
  datatype OcrResult = OcrResult(supplierName: Option<string>, totalAmount: Option<int>, lineItems: seq<ReceiptItem>)

  /** The HTTP errors of the upload: 404 for an unknown user, 400 for a duplicate, 500 for a failed save. */
  datatype UploadError = UserNotFound | DuplicateReceipt | SaveFailed

  /** The response body: the saved receipt (by id), the points earned with their breakdown, and the badges. */
  datatype UploadResponse = UploadResponse(
    receiptId: nat,
    pointsEarned: int,
    basePoints: int,
    bonusPoints: int,
    bonusDetails: seq<BonusDetail>,
    badgesAwarded: seq<BadgeAward>)

  /** The engine's receipt dictionary: the OCR supplier and total, the upload time as the receipt date, no store. */
  function ReceiptInfo(ocr: OcrResult, now: int): ReceiptData {
    ReceiptData(ocr.supplierName, ocr.totalAmount, None, Some(now))
  }

  /** The upload context: the upload time and no weather code. */
  function UploadContextAt(now: int): Option<UploadContext> {
    Some(UploadContext(Some(now), None))
  }

  /** The transaction description; a `None` supplier is formatted as "None". */
  function CreditDescription(supplier: Option<string>): string {
    "レシートアップロード: " + (if supplier.Some? then supplier.value else "None")
  }

  function CreditMetadata(receiptId: nat, p: PointResult): TxMetadata {
    ReceiptUpload(receiptId, p.basePoints, p.bonusPoints, p.bonusDetails)
  }

  /** The response of the `except` branch: the saved receipt with nothing earned. */
  function Degraded(receiptId: nat): UploadResponse {
    UploadResponse(receiptId, 0, 0, 0, [], [])
  }

  function Respond(receiptId: nat, p: PointResult, awarded: seq<BadgeAward>): UploadResponse {
    UploadResponse(receiptId, p.totalPoints, p.basePoints, p.bonusPoints, p.bonusDetails, awarded)
  }

  /** Step 5: a positive total is credited as one "earn"; the flag says whether the stage went on without raising. */
  function CreditSpec(t: Tables, userId: int, receiptId: nat, supplier: Option<string>, p: PointResult, faults: set<Fault>)
    : (Tables, bool)
  {
    if p.totalPoints > 0 then
      var (t1, r) := UpdatePointsSpec(t, userId, p.totalPoints, Earn, Some(CreditDescription(supplier)),
                                      CreditMetadata(receiptId, p), faults);
      (t1, r.Ok?)
    else (t, true)
  }

  /** `upload_receipt` from the OCR reply on: look up, gate, save, credit, evaluate badges, respond. */
  function UploadSpec(t: Tables, email: string, ocr: OcrResult, now: int, faults: set<Fault>)
    : (Tables, Result<UploadResponse, UploadError>)
  {
    var user := FindUserByEmail(t.users, email);
    if user.None? then (t, Err(UserNotFound))
    else
      var userId := user.value;
      var info := ReceiptInfo(ocr, now);
      if IsDuplicateReceipt(t, info, userId, faults) then (t, Err(DuplicateReceipt))
      else
        var (t1, saved) := CreateReceiptSpec(t, userId, ocr.supplierName, ocr.totalAmount, None, ocr.lineItems, now);
        if saved.Err? then (t1, Err(SaveFailed))
        else
          var p := PointsFor(t1, info, userId, UploadContextAt(now), now, faults);
          var (t2, credited) := CreditSpec(t1, userId, saved.value, ocr.supplierName, p, faults);
          if !credited then (t2, Ok(Degraded(saved.value)))
          else
            var (t3, awarded) := EvaluateSpec(t2, userId, now, faults);
            (t3, Ok(Respond(saved.value, p, awarded)))
  }

  method UploadReceipt(db: Database, email: string, ocr: OcrResult, now: int, faults: set<Fault>)
    returns (r: Result<UploadResponse, UploadError>)
    modifies db
    ensures (db.Snapshot(), r) == UploadSpec(old(db.Snapshot()), email, ocr, now, faults)
  {
    var user := FindUserByEmail(db.users, email);
    if user.None? {
      return Err(UserNotFound);
    }
    var userId := user.value;
    var info := ReceiptInfo(ocr, now);
    if IsDuplicateReceipt(db.Snapshot(), info, userId, faults) {
      return Err(DuplicateReceipt);
    }
    var saved := CreateReceipt(db, userId, ocr.supplierName, ocr.totalAmount, None, ocr.lineItems, now);
    if saved.Err? {
      return Err(SaveFailed);
    }
    ghost var t1 := db.Snapshot();
    var p := CalculatePoints(db, info, userId, UploadContextAt(now), now, faults);
    if p.totalPoints > 0 {
      var credit := UpdateUserPoints(db, userId, p.totalPoints, Earn, Some(CreditDescription(ocr.supplierName)),
                                     CreditMetadata(saved.value, p), faults);
      if credit.Err? {
        return Ok(Degraded(saved.value));
      }
    }
    assert (db.Snapshot(), true) == CreditSpec(t1, userId, saved.value, ocr.supplierName, p, faults);
    var awarded := EvaluateAndAwardBadges(db, userId, now, faults);
    r := Ok(Respond(saved.value, p, awarded));
  }

  // ---------------------------------------------------------------- properties

  /** The receipt row the upload saves for the user. */
  function SavedReceipt(userId: int, ocr: OcrResult, now: int): Receipt {
    Receipt(userId, None, ocr.supplierName, ocr.totalAmount, now, now, ocr.lineItems)
  }

  /** The tables right after the save. */
  function WithSaved(t: Tables, userId: int, ocr: OcrResult, now: int): Tables {
    t.(receipts := t.receipts + [SavedReceipt(userId, ocr, now)])
  }

  lemma ReceiptCountAppend(receipts: seq<Receipt>, x: Receipt, userId: int)
    ensures ReceiptCount(receipts + [x], userId) == ReceiptCount(receipts, userId) + (if x.userId == userId then 1 else 0)
  {
    assert (receipts + [x])[..|receipts|] == receipts;
  }

  /**
   * The error outcomes: an unknown email gives 404 and a duplicate gives 400, each before any
   * write; the save itself never fails for a user that was found.
   */
  lemma UploadErrors(t: Tables, email: string, ocr: OcrResult, now: int, faults: set<Fault>)
    ensures var (t1, r) := UploadSpec(t, email, ocr, now, faults);
      && (r == Err(UserNotFound) <==> FindUserByEmail(t.users, email).None?)
      && (r == Err(DuplicateReceipt) <==>
            FindUserByEmail(t.users, email).Some?
            && IsDuplicateReceipt(t, ReceiptInfo(ocr, now), FindUserByEmail(t.users, email).value, faults))
      && r != Err(SaveFailed)
      && (r.Err? ==> t1 == t)
  {
  }

  /**
   * The gate compares against receipts dated around the upload time: it fires iff the user
   * already has a receipt with a truthy supplier, the same non-zero total, and a receipt date
   * within 30 minutes of now.
   */
  lemma DuplicateGateAtUploadTime(t: Tables, userId: int, ocr: OcrResult, now: int)
    ensures IsDuplicateReceipt(t, ReceiptInfo(ocr, now), userId, {}) <==>
      && TruthyStr(ocr.supplierName) && TruthyInt(ocr.totalAmount)
      && exists i :: 0 <= i < |t.receipts| && t.receipts[i].userId == userId
           && t.receipts[i].supplierName == ocr.supplierName && t.receipts[i].totalAmount == ocr.totalAmount
           && now - 30 <= t.receipts[i].receiptDate <= now + 30
  {
  }

  /** `CreditSpec` succeeds for an existing user unless the ledger write fails, and then leaves the receipts alone. */
  lemma CreditEffect(t: Tables, userId: int, receiptId: nat, supplier: Option<string>, p: PointResult, faults: set<Fault>)
    requires Valid(t) && 0 <= userId < |t.users| && p.totalPoints > 0
    ensures var (t1, ok) := CreditSpec(t, userId, receiptId, supplier, p, faults);
      var before := if userId in t.profiles then t.profiles[userId] else NewProfile(t.nextProfileId);
      && (ok <==> LedgerWrite !in faults)
      && t1.receipts == t.receipts && t1.userBadges == t.userBadges && t1.badges == t.badges
      && (ok ==> t1.transactions == t.transactions + [PointTransaction(before.id, Earn, p.totalPoints,
                   Some(CreditDescription(supplier)), CreditMetadata(receiptId, p))]
                 && userId in t1.profiles
                 && t1.profiles[userId].contributionPoints == before.contributionPoints + p.totalPoints
                 && t1.profiles[userId].totalEarnedPoints == before.totalEarnedPoints + p.totalPoints)
      && (!ok ==> t1.transactions == t.transactions)
  {
    if LedgerWrite !in faults {
      UpdatePointsEffect(t, userId, p.totalPoints, Earn, Some(CreditDescription(supplier)), CreditMetadata(receiptId, p));
      assert UpdatePointsSpec(t, userId, p.totalPoints, Earn, Some(CreditDescription(supplier)), CreditMetadata(receiptId, p), faults)
          == UpdatePointsSpec(t, userId, p.totalPoints, Earn, Some(CreditDescription(supplier)), CreditMetadata(receiptId, p), {});
    }
  }

  /**
   * A found, non-duplicate upload saves the receipt, runs the engine on the tables holding it,
   * credits the result, and then evaluates badges or, if the credit raised, answers with zeros.
   */
  lemma UploadFound(t: Tables, email: string, ocr: OcrResult, now: int, faults: set<Fault>, userId: nat)
    requires Valid(t) && FindUserByEmail(t.users, email) == Some(userId)
    requires !IsDuplicateReceipt(t, ReceiptInfo(ocr, now), userId, faults)
    ensures var ts := WithSaved(t, userId, ocr, now);
      var p := PointsFor(ts, ReceiptInfo(ocr, now), userId, UploadContextAt(now), now, faults);
      var (t2, credited) := CreditSpec(ts, userId, |t.receipts|, ocr.supplierName, p, faults);
      UploadSpec(t, email, ocr, now, faults)
        == if credited then (EvaluateSpec(t2, userId, now, faults).0, Ok(Respond(|t.receipts|, p, EvaluateSpec(t2, userId, now, faults).1)))
           else (t2, Ok(Degraded(|t.receipts|)))
  {
  }

  /** A found, non-duplicate upload saves the receipt as the user's newest row, dated and created now, with no store. */
  lemma UploadSavesReceipt(t: Tables, email: string, ocr: OcrResult, now: int, faults: set<Fault>)
    requires Valid(t)
    ensures var (t1, r) := UploadSpec(t, email, ocr, now, faults);
      r.Ok? ==>
        && FindUserByEmail(t.users, email).Some?
        && r.value.receiptId == |t.receipts|
        && t1.receipts == t.receipts + [SavedReceipt(FindUserByEmail(t.users, email).value, ocr, now)]
  {
    var user := FindUserByEmail(t.users, email);
    if user.Some? && !IsDuplicateReceipt(t, ReceiptInfo(ocr, now), user.value, faults) {
      var userId := user.value;
      var ts := WithSaved(t, userId, ocr, now);
      var p := PointsFor(ts, ReceiptInfo(ocr, now), userId, UploadContextAt(now), now, faults);
      var (t2, credited) := CreditSpec(ts, userId, |t.receipts|, ocr.supplierName, p, faults);
      var (t3, aw) := EvaluateSpec(t2, userId, now, faults);
      assert t2.receipts == ts.receipts && t3.receipts == ts.receipts by {
        CreditKeepsBadgeInputs(ts, userId, |t.receipts|, ocr.supplierName, p, faults);
        EvaluateSound(t2, userId, now, faults);
      }
      assert UploadSpec(t, email, ocr, now, faults)
          == if credited then (t3, Ok(Respond(|t.receipts|, p, aw))) else (t2, Ok(Degraded(|t.receipts|))) by {
        UploadFound(t, email, ocr, now, faults, userId);
      }
    }
  }

  /**
   * How a successful upload ends: after the save the engine's points are credited and then
   * either badges are evaluated and reported with the points, or the credit raised and the
   * zero response is returned.
   */
  lemma UploadOutcome(t: Tables, email: string, ocr: OcrResult, now: int, faults: set<Fault>)
    ensures var (t1, r) := UploadSpec(t, email, ocr, now, faults);
      r.Ok? ==>
        && FindUserByEmail(t.users, email).Some?
        && var userId := FindUserByEmail(t.users, email).value;
           var ts := WithSaved(t, userId, ocr, now);
           var p := PointsFor(ts, ReceiptInfo(ocr, now), userId, UploadContextAt(now), now, faults);
           var (t2, credited) := CreditSpec(ts, userId, |t.receipts|, ocr.supplierName, p, faults);
           && 0 <= userId < |t.users|
           && !IsDuplicateReceipt(t, ReceiptInfo(ocr, now), userId, faults)
           && (credited ==> (t1, r.value) == (EvaluateSpec(t2, userId, now, faults).0,
                                             Respond(|t.receipts|, p, EvaluateSpec(t2, userId, now, faults).1)))
           && (!credited ==> (t1, r.value) == (t2, Degraded(|t.receipts|)))
  {
  }

  /**
   * The engine's result for an upload: the total is base plus bonus and at least 5, there is
   * never a weather bonus (no weather code is passed), and any store bonus is the 15-point
   * keyword bonus for the OCR supplier name (no store id is passed).
   */
  lemma UploadContextPoints(t: Tables, ocr: OcrResult, userId: int, now: int, faults: set<Fault>)
    ensures var p := PointsFor(t, ReceiptInfo(ocr, now), userId, UploadContextAt(now), now, faults);
      && p.totalPoints == p.basePoints + p.bonusPoints >= 5
      && p.bonusPoints == SumDetailPoints(p.bonusDetails)
      && (forall d :: d in p.bonusDetails ==> !d.WeatherBonus?)
      && (forall d :: d in p.bonusDetails && d.StoreBonus? ==>
            d.points == 15 && ocr.supplierName == Some(d.storeName) && HasShopKeyword(d.storeName))
  {
    var info := ReceiptInfo(ocr, now);
    var ctx := UploadContextAt(now);
    var p := PointsFor(t, info, userId, ctx, now, faults);
    PointsShape(t, info, userId, ctx, now, faults);
    var store := StoreBonusFor(t.stores, info, faults);
    if ocr.totalAmount.Some? && store.Ok? {
      var amount := AmountBonusFor(ocr.totalAmount.value);
      var consecutive := ConsecutiveBonusSpec(t, userId, now, faults);
      var first := FirstTimeBonusSpec(t, userId, faults);
      var time := TimeBonusFor(Some(now));
      assert WeatherBonusFor(None) == None;
      assert p.bonusDetails == Breakdown(amount, consecutive, first, None, time, store.value);
      assert consecutive.Some? ==> consecutive.value.ConsecutiveBonus?;
      KeywordOnlyStoreBonus(t.stores, info, faults);
      BreakdownWithoutWeather(amount, consecutive, first, time, store.value);
    } else {
      assert p == Fallback();
    }
  }

  /** A breakdown without a weather entry has no weather bonus, and its only store bonus is the store entry. */
  lemma BreakdownWithoutWeather(amount: Option<BonusDetail>, consecutive: Option<BonusDetail>, first: Option<BonusDetail>,
                                time: Option<BonusDetail>, store: Option<BonusDetail>)
    requires amount.Some? ==> amount.value.AmountBonus?
    requires consecutive.Some? ==> consecutive.value.ConsecutiveBonus?
    requires first.Some? ==> first.value.FirstTimeBonus?
    requires time.Some? ==> time.value.TimeBonus? || time.value.WeekendBonus?
    requires store.Some? ==> store.value.StoreBonus?
    ensures forall d :: d in Breakdown(amount, consecutive, first, None, time, store) ==>
      !d.WeatherBonus? && (d.StoreBonus? ==> store == Some(d))
  {
    BreakdownMembers(amount, consecutive, first, None, time, store);
    forall d | d in Breakdown(amount, consecutive, first, None, time, store)
      ensures !d.WeatherBonus? && (d.StoreBonus? ==> store == Some(d))
    {
      if amount == Some(d) {
        assert d.AmountBonus?;
      } else if consecutive == Some(d) {
        assert d.ConsecutiveBonus?;
      } else if first == Some(d) {
        assert d.FirstTimeBonus?;
      } else if time == Some(d) {
        assert d.TimeBonus? || d.WeekendBonus?;
      } else {
        assert store == Some(d);
      }
    }
  }

  /** Without a store id the store bonus can only be the keyword bonus for the supplier name. */
  lemma KeywordOnlyStoreBonus(stores: map<int, string>, r: ReceiptData, faults: set<Fault>)
    requires r.storeId.None?
    ensures var b := StoreBonusFor(stores, r, faults);
      b.Ok? && b.value.Some? ==>
        && r.supplierName.Some? && HasShopKeyword(r.supplierName.value)
        && b.value.value == StoreBonus("個人商店応援ボーナス", 15, r.supplierName.value)
  {
  }

  /** The points a credited upload reports are the engine's, with the guarantees of UploadContextPoints. */
  lemma UploadPoints(t: Tables, email: string, ocr: OcrResult, now: int, faults: set<Fault>)
    requires Valid(t) && LedgerWrite !in faults
    ensures var (t1, r) := UploadSpec(t, email, ocr, now, faults);
      r.Ok? ==>
        && r.value.pointsEarned == r.value.basePoints + r.value.bonusPoints >= 5
        && r.value.bonusPoints == SumDetailPoints(r.value.bonusDetails)
        && (forall d :: d in r.value.bonusDetails ==> !d.WeatherBonus?)
        && (forall d :: d in r.value.bonusDetails && d.StoreBonus? ==>
              d.points == 15 && ocr.supplierName == Some(d.storeName) && HasShopKeyword(d.storeName))
  {
    UploadOutcome(t, email, ocr, now, faults);
    var user := FindUserByEmail(t.users, email);
    if user.Some? {
      var ts := WithSaved(t, user.value, ocr, now);
      var p := PointsFor(ts, ReceiptInfo(ocr, now), user.value, UploadContextAt(now), now, faults);
      UploadContextPoints(ts, ocr, user.value, now, faults);
      CreditEffect(ts, user.value, |t.receipts|, ocr.supplierName, p, faults);
    }
  }

  /**
   * The first upload earns the first-time bonus: with a supplier and a total read and the
   * count and ledger working, the bonus is listed iff the user had no receipt before this one.
   */
  lemma UploadFirstTime(t: Tables, email: string, ocr: OcrResult, now: int, faults: set<Fault>, userId: nat)
    requires Valid(t) && FindUserByEmail(t.users, email) == Some(userId)
    requires !IsDuplicateReceipt(t, ReceiptInfo(ocr, now), userId, faults)
    requires ocr.supplierName.Some? && ocr.totalAmount.Some?
    requires ReceiptCountQuery !in faults && LedgerWrite !in faults
    ensures var (t1, r) := UploadSpec(t, email, ocr, now, faults);
      && r.Ok?
      && ((exists i :: 0 <= i < |r.value.bonusDetails| && r.value.bonusDetails[i].FirstTimeBonus?)
          <==> ReceiptCount(t.receipts, userId) == 0)
  {
    var ts := WithSaved(t, userId, ocr, now);
    var info := ReceiptInfo(ocr, now);
    var ctx := UploadContextAt(now);
    var p := PointsFor(ts, info, userId, ctx, now, faults);
    assert p.totalPoints > 0 by {
      PointsShape(ts, info, userId, ctx, now, faults);
    }
    assert (exists i :: 0 <= i < |p.bonusDetails| && p.bonusDetails[i].FirstTimeBonus?)
        <==> ReceiptCount(t.receipts, userId) == 0 by {
      FallbackCases(ts, info, userId, ctx, now, faults);
      FirstTimeIffSingleReceipt(ts, info, userId, ctx, now, faults);
      ReceiptCountAppend(t.receipts, SavedReceipt(userId, ocr, now), userId);
    }
    var (t2, credited) := CreditSpec(ts, userId, |t.receipts|, ocr.supplierName, p, faults);
    assert credited by {
      CreditEffect(ts, userId, |t.receipts|, ocr.supplierName, p, faults);
    }
    var (t3, aw) := EvaluateSpec(t2, userId, now, faults);
    assert UploadSpec(t, email, ocr, now, faults) == (t3, Ok(Respond(|t.receipts|, p, aw))) by {
      UploadFound(t, email, ocr, now, faults, userId);
    }
  }

  /**
   * A credited upload appends exactly one "earn" transaction of the points earned, carrying the
   * receipt id and the breakdown, and raises the user's balance and lifetime total by that amount.
   */
  lemma UploadCredits(t: Tables, email: string, ocr: OcrResult, now: int, faults: set<Fault>, userId: nat)
    requires Valid(t) && FindUserByEmail(t.users, email) == Some(userId)
    requires !IsDuplicateReceipt(t, ReceiptInfo(ocr, now), userId, faults)
    requires LedgerWrite !in faults
    ensures var (t1, r) := UploadSpec(t, email, ocr, now, faults);
      var before := if userId in t.profiles then t.profiles[userId] else NewProfile(t.nextProfileId);
      && r.Ok? && r.value.receiptId == |t.receipts| && r.value.pointsEarned >= 5
      && t1.transactions == t.transactions + [PointTransaction(before.id, Earn, r.value.pointsEarned,
           Some(CreditDescription(ocr.supplierName)),
           ReceiptUpload(r.value.receiptId, r.value.basePoints, r.value.bonusPoints, r.value.bonusDetails))]
      && userId in t1.profiles
      && t1.profiles[userId].contributionPoints == before.contributionPoints + r.value.pointsEarned
      && t1.profiles[userId].totalEarnedPoints == before.totalEarnedPoints + r.value.pointsEarned
  {
    var ts := WithSaved(t, userId, ocr, now);
    var info := ReceiptInfo(ocr, now);
    var ctx := UploadContextAt(now);
    var p := PointsFor(ts, info, userId, ctx, now, faults);
    assert p.totalPoints >= 5 by {
      PointsShape(ts, info, userId, ctx, now, faults);
    }
    CreditEffect(ts, userId, |t.receipts|, ocr.supplierName, p, faults);
    var (t2, credited) := CreditSpec(ts, userId, |t.receipts|, ocr.supplierName, p, faults);
    var (t3, aw) := EvaluateSpec(t2, userId, now, faults);
    assert Grows(t2, t3) by {
      CreditKeepsBadgeInputs(ts, userId, |t.receipts|, ocr.supplierName, p, faults);
      EvaluateSound(t2, userId, now, faults);
    }
    assert UploadSpec(t, email, ocr, now, faults) == (t3, Ok(Respond(|t.receipts|, p, aw))) by {
      UploadFound(t, email, ocr, now, faults, userId);
    }
  }

  /**
   * A failed ledger write yields the zero response and awards no badge: the receipt stays saved,
   * and no transaction or held badge is added.
   */
  lemma UploadDegraded(t: Tables, email: string, ocr: OcrResult, now: int, faults: set<Fault>, userId: nat)
    requires Valid(t) && FindUserByEmail(t.users, email) == Some(userId)
    requires !IsDuplicateReceipt(t, ReceiptInfo(ocr, now), userId, faults)
    requires LedgerWrite in faults
    ensures var (t1, r) := UploadSpec(t, email, ocr, now, faults);
      && r == Ok(Degraded(|t.receipts|))
      && t1.receipts == t.receipts + [SavedReceipt(userId, ocr, now)]
      && t1.transactions == t.transactions && t1.userBadges == t.userBadges
  {
    var ts := WithSaved(t, userId, ocr, now);
    var info := ReceiptInfo(ocr, now);
    var ctx := UploadContextAt(now);
    var p := PointsFor(ts, info, userId, ctx, now, faults);
    PointsShape(ts, info, userId, ctx, now, faults);
    CreditEffect(ts, userId, |t.receipts|, ocr.supplierName, p, faults);
  }

  /**
   * Every badge in a full response is newly awarded, for a milestone that the receipts
   * (including the one just saved) reach, and held afterwards.
   */
  lemma UploadBadgesSound(t: Tables, email: string, ocr: OcrResult, now: int, faults: set<Fault>)
    requires Valid(t)
    ensures var (t1, r) := UploadSpec(t, email, ocr, now, faults);
      r.Ok? ==>
        var userId := FindUserByEmail(t.users, email).value;
        forall i :: 0 <= i < |r.value.badgesAwarded| ==>
          var a := r.value.badgesAwarded[i];
          && a.isNew && 0 <= a.badgeId < |t1.badges| && t1.badges[a.badgeId].name == a.badgeName
          && a.badgeId in HeldBadgeIds(t1, userId)
          && Earned(WithSaved(t, userId, ocr, now), userId, now, a.badgeName)
  {
    UploadOutcome(t, email, ocr, now, faults);
    var user := FindUserByEmail(t.users, email);
    if user.Some? {
      var userId := user.value;
      var ts := WithSaved(t, userId, ocr, now);
      var p := PointsFor(ts, ReceiptInfo(ocr, now), userId, UploadContextAt(now), now, faults);
      var (t2, credited) := CreditSpec(ts, userId, |t.receipts|, ocr.supplierName, p, faults);
      if credited && !IsDuplicateReceipt(t, ReceiptInfo(ocr, now), userId, faults) {
        CreditKeepsBadgeInputs(ts, userId, |t.receipts|, ocr.supplierName, p, faults);
        EvaluateSound(t2, userId, now, faults);
        EarnedByReceipts(t2, ts, userId, now);
      }
    }
  }

  /** The credit writes only profiles and the ledger. */
  lemma CreditKeepsBadgeInputs(t: Tables, userId: int, receiptId: nat, supplier: Option<string>, p: PointResult, faults: set<Fault>)
    requires Valid(t)
    ensures var t1 := CreditSpec(t, userId, receiptId, supplier, p, faults).0;
      Valid(t1) && t1.receipts == t.receipts && t1.badges == t.badges && t1.userBadges == t.userBadges
  {
    if p.totalPoints > 0 {
      UpdatePointsKeepsValid(t, userId, p.totalPoints, Earn, Some(CreditDescription(supplier)), CreditMetadata(receiptId, p), faults);
    }
  }

  /** Which milestones are earned depends only on the receipts. */
  lemma EarnedByReceipts(t: Tables, t1: Tables, userId: int, now: int)
    requires t.receipts == t1.receipts
    ensures forall name :: Earned(t, userId, now, name) <==> Earned(t1, userId, now, name)
  {
    assert ActivityMeasure(t, userId) == ActivityMeasure(t1, userId);
    assert StreakMeasure(t, userId, now) == StreakMeasure(t1, userId, now);
    assert CumulativeMeasure(t, userId) == CumulativeMeasure(t1, userId);
    assert SinglePurchaseMeasure(t, userId) == SinglePurchaseMeasure(t1, userId);
  }

  /** A badge-engine step keeps the ledger balanced: transactions and old balances are untouched, new profiles start at 0. */
  lemma GrowsKeepsLedger(t: Tables, t1: Tables)
    requires Valid(t) && LedgerBalanced(t) && Grows(t, t1)
    ensures LedgerBalanced(t1)
  {
    forall u | u in t1.profiles && u !in t.profiles
      ensures t1.profiles[u].contributionPoints == LedgerSum(t1.transactions, t1.profiles[u].id)
    {
      LedgerSumNoRows(t.transactions, t1.profiles[u].id);
    }
  }

  /** Every upload keeps the schema valid and every balance equal to the signed sum of its transactions. */
  lemma UploadKeepsInvariants(t: Tables, email: string, ocr: OcrResult, now: int, faults: set<Fault>)
    requires Valid(t) && LedgerBalanced(t)
    ensures Valid(UploadSpec(t, email, ocr, now, faults).0) && LedgerBalanced(UploadSpec(t, email, ocr, now, faults).0)
  {
    var user := FindUserByEmail(t.users, email);
    if user.Some? && !IsDuplicateReceipt(t, ReceiptInfo(ocr, now), user.value, faults) {
      var userId := user.value;
      var ts := WithSaved(t, userId, ocr, now);
      CreateReceiptProperties(t, userId, ocr.supplierName, ocr.totalAmount, None, ocr.lineItems, now);
      var p := PointsFor(ts, ReceiptInfo(ocr, now), userId, UploadContextAt(now), now, faults);
      var metadata := CreditMetadata(|t.receipts|, p);
      if p.totalPoints > 0 {
        UpdatePointsKeepsLedger(ts, userId, p.totalPoints, Earn, Some(CreditDescription(ocr.supplierName)), metadata, faults);
      }
      var (t2, credited) := CreditSpec(ts, userId, |t.receipts|, ocr.supplierName, p, faults);
      if credited {
        EvaluateSound(t2, userId, now, faults);
        GrowsKeepsLedger(t2, EvaluateSpec(t2, userId, now, faults).0);
      }
    }
  }
}
