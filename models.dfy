/**
 * The rows of the loyalty database (users, receipts, gamification profiles, the badge
 * catalog, held badges, the point ledger, rewards and issued coupons) and the in-memory
 * store that replaces the SQL session.
 */
module Models {
  import opened Common

  datatype User = User(email: string, isOwner: bool)

  datatype ReceiptItem = ReceiptItem(description: Option<string>, amount: Option<int>)

  /** A stored receipt; `receiptDate` and `createdAt` are minutes, both filled by the server clock. */
  datatype Receipt = Receipt(
    userId: int,
    storeId: Option<int>,
    supplierName: Option<string>,
    totalAmount: Option<int>,
    receiptDate: int,
    createdAt: int,
    items: seq<ReceiptItem>)

  datatype Profile = Profile(id: int, contributionPoints: int, totalEarnedPoints: int, level: int)

  /** A fresh profile row: every counter at its column default. */
  function NewProfile(id: int): Profile {
    Profile(id, 0, 0, 1)
  }

  /** The JSON `criteria` of a badge: `{type, condition, value}`. */
  datatype Criteria = Criteria(kind: string, condition: string, value: int)

  datatype Badge = Badge(name: string, description: string, criteria: Criteria, iconUrl: string, isActive: bool)

  datatype UserBadge = UserBadge(profileId: int, badgeId: int)

  /** One entry of a point calculation breakdown; `points` is what the entry contributed. */
  datatype BonusDetail =
    | AmountBonus(name: string, points: int, condition: string, amount: int)
    | ConsecutiveBonus(name: string, points: int, consecutiveDays: int)
    | FirstTimeBonus(name: string, points: int, message: string)
    | WeatherBonus(name: string, points: int, weatherCode: int)
    | TimeBonus(name: string, points: int, hour: int)
    | WeekendBonus(name: string, points: int, weekday: int)
    | StoreBonus(name: string, points: int, storeName: string)
    | ErrorDetail(message: string)

  /** The `"type"` key of a breakdown entry. */
  function TypeTag(d: BonusDetail): string {
    match d
    case AmountBonus(_, _, _, _) => "amount_bonus"
    case ConsecutiveBonus(_, _, _) => "consecutive_bonus"
    case FirstTimeBonus(_, _, _) => "first_time_bonus"
    case WeatherBonus(_, _, _) => "weather_bonus"
    case TimeBonus(_, _, _) => "time_bonus"
    case WeekendBonus(_, _, _) => "time_bonus"
    case StoreBonus(_, _, _) => "store_bonus"
    case ErrorDetail(_) => "error"
  }

  function DetailPoints(d: BonusDetail): int {
    if d.ErrorDetail? then 0 else d.points
  }

  function SumDetailPoints(ds: seq<BonusDetail>): int {
    if ds == [] then 0 else SumDetailPoints(ds[..|ds| - 1]) + DetailPoints(ds[|ds| - 1])
  }

  datatype TxType = Earn | Redeem | OtherType(name: string)

  /** The JSON metadata stored with a point transaction by each caller. */
  datatype TxMetadata =
    | ReceiptUpload(receiptId: int, basePoints: int, bonusPoints: int, bonusDetails: seq<BonusDetail>)
    | RewardExchange(rewardId: int, couponCode: string)
    | ManualEarn
    | ManualRedeem
    | NoMetadata

  /** A ledger row; `points` is signed: positive for earning, negative for spending. */
  datatype PointTransaction = PointTransaction(
    profileId: int, txType: TxType, points: int, description: Option<string>, metadata: TxMetadata)

  /** A catalog reward; `stockQuantity == None` means unlimited stock. */
  datatype Reward = Reward(
    title: string,
    requiredPoints: int,
    stockQuantity: Option<int>,
    availableStock: Option<int>,
    isActive: bool,
    validDays: int)

  datatype CouponStatus = Active | Used | Expired

  /** An issued coupon; `expiresAt` and `usedAt` are minutes. */
  datatype UserReward = UserReward(
    userId: int,
    rewardId: int,
    couponCode: string,
    redeemedPoints: int,
    status: CouponStatus,
    expiresAt: Option<int>,
    usedAt: Option<int>,
    usedStoreId: Option<int>)

  /**
   * A snapshot of every table. Row ids are positions in the sequences; gamification
   * profiles are keyed by their (unique) user id and numbered from `nextProfileId`;
   * stores map an id to a name.
   */
  datatype Tables = Tables(
    users: seq<User>,
    stores: map<int, string>,
    receipts: seq<Receipt>,
    profiles: map<int, Profile>,
    nextProfileId: int,
    badges: seq<Badge>,
    userBadges: seq<UserBadge>,
    transactions: seq<PointTransaction>,
    rewards: seq<Reward>,
    userRewards: seq<UserReward>)

  /** `Badge.name` is unique. */
  predicate UniqueBadgeNames(badges: seq<Badge>) {
    forall i, j :: 0 <= i < j < |badges| ==> badges[i].name != badges[j].name
  }

  /** At most one held-badge row per (profile, badge) pair. */
  predicate UniqueAwards(rows: seq<UserBadge>) {
    forall i, j :: 0 <= i < j < |rows| ==> rows[i] != rows[j]
  }

  /** `UserReward.coupon_code` is unique. */
  predicate UniqueCoupons(rows: seq<UserReward>) {
    forall i, j :: 0 <= i < j < |rows| ==> rows[i].couponCode != rows[j].couponCode
  }

  /** The schema constraints the model keeps: the profile, held-badge and ledger foreign keys, the unique columns and the profile numbering. */
  predicate Valid(t: Tables) {
    && t.nextProfileId >= 0
    && (forall u :: u in t.profiles ==> 0 <= u < |t.users| && 0 <= t.profiles[u].id < t.nextProfileId)
    && (forall u, v :: u in t.profiles && v in t.profiles && u != v ==> t.profiles[u].id != t.profiles[v].id)
    && UniqueBadgeNames(t.badges)
    && UniqueAwards(t.userBadges)
    && (forall i :: 0 <= i < |t.userBadges| ==>
          0 <= t.userBadges[i].badgeId < |t.badges| && 0 <= t.userBadges[i].profileId < t.nextProfileId)
    && (forall i :: 0 <= i < |t.transactions| ==> 0 <= t.transactions[i].profileId < t.nextProfileId)
    && UniqueCoupons(t.userRewards)
  }

  /** The empty database. */
  function EmptyTables(): (t: Tables)
    ensures Valid(t)
  {
    Tables([], map[], [], map[], 0, [], [], [], [], [])
  }

  /** The ids of the badges held by the user's profile, if any. */
  function HeldBadgeIds(t: Tables, userId: int): set<int> {
    if userId in t.profiles then
      set i | 0 <= i < |t.userBadges| && t.userBadges[i].profileId == t.profiles[userId].id :: t.userBadges[i].badgeId
    else {}
  }

  /**
   * A storage operation that raises inside one of the source's `try` blocks. Each names the
   * query or write that fails; the set of failing ones is a parameter of the operations.
   */
  datatype Fault =
    | DuplicateLookup     // the duplicate-receipt query
    | StreakQuery         // the point engine's recent-receipts query
    | ReceiptCountQuery   // the point engine's receipt count
    | StoreQuery          // the point engine's store lookup
    | HeldBadgeQuery      // the badge engine's held-badge query
    | ActivityQuery       // the badge engine's receipt count
    | StreakBadgeQuery    // the badge engine's recent-receipts query
    | AmountQuery         // the badge engine's receipt amounts query
    | LedgerWrite         // the commit of a point transaction

  /** The in-memory store standing in for the SQL session; one field per table. */
  class Database {
    var users: seq<User>
    var stores: map<int, string>
    var receipts: seq<Receipt>
    var profiles: map<int, Profile>
    var nextProfileId: int
    var badges: seq<Badge>
    var userBadges: seq<UserBadge>
    var transactions: seq<PointTransaction>
    var rewards: seq<Reward>
    var userRewards: seq<UserReward>

    /** The current contents of every table. */
    function Snapshot(): Tables
      reads this
    {
      Tables(users, stores, receipts, profiles, nextProfileId, badges, userBadges, transactions, rewards, userRewards)
    }

    constructor ()
      ensures Snapshot() == EmptyTables()
    {
      users, stores, receipts, profiles, nextProfileId := [], map[], [], map[], 0;
      badges, userBadges, transactions, rewards, userRewards := [], [], [], [], [];
    }
  }
}
