/**
 * The badge engine: four milestone tables (receipt count, streak, cumulative spend, largest
 * single purchase) are checked against the user's receipts; a badge missing from the catalog
 * is created by name, and a reached badge not already held is awarded.
 */
module BadgeEngine {
  import opened Common
  import opened Models
  import opened Crud
  import opened PointEngine

  /** One row of a milestone table: `(threshold, name, description)`. */
  datatype Milestone = Milestone(threshold: int, name: string, description: string)

  /** `BadgeAwardResult`. */
  datatype BadgeAward = BadgeAward(badgeId: int, badgeName: string, isNew: bool)

  const ActivityMilestones: seq<Milestone> := [
    Milestone(1, "はじめの一歩", "初回レシートアップロード"),
    Milestone(10, "レシート10枚達成", "10枚のレシートをアップロードしました"),
    Milestone(50, "レシート50枚達成", "50枚のレシートをアップロードしました"),
    Milestone(100, "レシート100枚達成", "100枚のレシートをアップロードしました"),
    Milestone(500, "レシートマスター", "500枚のレシートをアップロードしました")]

  const StreakMilestones: seq<Milestone> := [
    Milestone(3, "3日坊主卒業", "3日連続でレシートをアップロードしました"),
    Milestone(7, "一週間チャレンジャー", "7日連続でレシートをアップロードしました"),
    Milestone(30, "継続は力なり", "30日連続でレシートをアップロードしました")]

  const CumulativeMilestones: seq<Milestone> := [
    Milestone(10000, "1万円突破", "累計1万円分のお買い物をしました"),
    Milestone(50000, "5万円突破", "累計5万円分のお買い物をしました"),
    Milestone(100000, "10万円突破", "累計10万円分のお買い物をしました")]

  const SinglePurchaseMilestones: seq<Milestone> := [
    Milestone(5000, "高額お買い物", "一度に5000円以上のお買い物をしました"),
    Milestone(10000, "大人買い", "一度に1万円以上のお買い物をしました")]

  /** `_get_default_icon_url`. */
  function DefaultIconUrl(kind: string): string {
    if kind == "receipt_count" then "https://cdn-icons-png.flaticon.com/512/1828/1828506.png"
    else if kind == "consecutive_days" then "https://cdn-icons-png.flaticon.com/512/1827/1827369.png"
    else if kind == "total_amount" then "https://cdn-icons-png.flaticon.com/512/1827/1827422.png"
    else if kind == "single_purchase" then "https://cdn-icons-png.flaticon.com/512/1828/1828884.png"
    else "https://cdn-icons-png.flaticon.com/512/1827/1827380.png"
  }

  // ---------------------------------------------------------------- how the tables evolve

  /**
   * What the engine may change: it adds catalog badges and held-badge rows and may create
   * fresh profiles (new ids, zero balance); every other table, and every existing profile,
   * is untouched.
   */
  predicate Grows(t: Tables, t1: Tables) {
    && t1.users == t.users && t1.stores == t.stores && t1.receipts == t.receipts
    && t1.transactions == t.transactions && t1.rewards == t.rewards && t1.userRewards == t.userRewards
    && t.badges <= t1.badges && t.userBadges <= t1.userBadges
    && (forall u :: u in t.profiles ==> u in t1.profiles && t1.profiles[u] == t.profiles[u])
    && t.nextProfileId <= t1.nextProfileId
    && (forall u :: u in t1.profiles && u !in t.profiles ==>
          t1.profiles[u].id >= t.nextProfileId && t1.profiles[u].contributionPoints == 0)
  }

  lemma GrowsTrans(t: Tables, t1: Tables, t2: Tables)
    requires Grows(t, t1) && Grows(t1, t2)
    ensures Grows(t, t2)
  {
  }

  /** A badge once held stays held. */
  lemma HeldMonotone(t: Tables, t1: Tables, userId: int)
    requires Grows(t, t1)
    ensures HeldBadgeIds(t, userId) <= HeldBadgeIds(t1, userId)
  {
    if userId in t.profiles {
      forall id | id in HeldBadgeIds(t, userId) ensures id in HeldBadgeIds(t1, userId) {
        var i :| 0 <= i < |t.userBadges| && t.userBadges[i].profileId == t.profiles[userId].id && t.userBadges[i].badgeId == id;
        assert t1.userBadges[i] == t.userBadges[i];
      }
    }
  }

  /** The user holds a catalog badge of this name. */
  predicate HoldsBadgeNamed(t: Tables, userId: int, name: string) {
    exists id :: 0 <= id < |t.badges| && t.badges[id].name == name && id in HeldBadgeIds(t, userId)
  }

  lemma HoldsMonotone(t: Tables, t1: Tables, userId: int, name: string)
    requires Grows(t, t1) && HoldsBadgeNamed(t, userId, name)
    ensures HoldsBadgeNamed(t1, userId, name)
  {
    var id :| 0 <= id < |t.badges| && t.badges[id].name == name && id in HeldBadgeIds(t, userId);
    HeldMonotone(t, t1, userId);
    assert t1.badges[id] == t.badges[id];
  }

  // ---------------------------------------------------------------- the catalog

  /** The `.first()` badge with the given name. */
  function FindBadgeByName(badges: seq<Badge>, name: string): (r: Option<nat>)
    ensures r.Some? ==> r.value < |badges| && badges[r.value].name == name
    ensures r.Some? ==> forall k :: 0 <= k < r.value ==> badges[k].name != name
    ensures r.None? ==> forall k :: 0 <= k < |badges| ==> badges[k].name != name
  {
    if badges == [] then None
    else if badges[0].name == name then Some(0)
    else
      var rest := FindBadgeByName(badges[1..], name);
      if rest.Some? then Some(rest.value + 1)
      else
        assert forall k :: 1 <= k < |badges| ==> badges[k] == badges[1..][k - 1];
        None
  }

  /** With unique names, the badge found by name is the only one with that name. */
  lemma FindBadgeUnique(badges: seq<Badge>, name: string, id: int)
    requires UniqueBadgeNames(badges) && 0 <= id < |badges| && badges[id].name == name
    ensures FindBadgeByName(badges, name) == Some(id)
  {
  }

  /** The catalog row `_ensure_badge_exists` creates. */
  function NewBadge(kind: string, m: Milestone): Badge {
    Badge(m.name, m.description, Criteria(kind, ">=", m.threshold), DefaultIconUrl(kind), true)
  }

  /** `_ensure_badge_exists`: the badge of that name, created (active, with the default icon) if missing. */
  function EnsureBadgeSpec(t: Tables, kind: string, m: Milestone): (Tables, nat) {
    var found := FindBadgeByName(t.badges, m.name);
    if found.Some? then (t, found.value) else (t.(badges := t.badges + [NewBadge(kind, m)]), |t.badges|)
  }

  method EnsureBadgeExists(db: Database, kind: string, m: Milestone) returns (id: nat)
    modifies db
    ensures (db.Snapshot(), id) == EnsureBadgeSpec(old(db.Snapshot()), kind, m)
  {
    var i := 0;
    while i < |db.badges|
      invariant 0 <= i <= |db.badges|
      invariant forall k :: 0 <= k < i ==> db.badges[k].name != m.name
    {
      if db.badges[i].name == m.name {
        assert FindBadgeByName(db.badges, m.name) == Some(i);
        return i;
      }
      i := i + 1;
    }
    id := |db.badges|;
    db.badges := db.badges + [NewBadge(kind, m)];
  }

  /** The badge exists afterwards under that name; an existing one is reused and nothing changes; the schema stays valid. */
  lemma EnsureBadgeProperties(t: Tables, kind: string, m: Milestone)
    requires Valid(t)
    ensures var (t1, id) := EnsureBadgeSpec(t, kind, m);
      && Valid(t1) && Grows(t, t1)
      && id < |t1.badges| && t1.badges[id].name == m.name
      && ((exists k :: 0 <= k < |t.badges| && t.badges[k].name == m.name) ==> t1 == t)
      && ((forall k :: 0 <= k < |t.badges| ==> t.badges[k].name != m.name) ==>
            t1.badges == t.badges + [NewBadge(kind, m)] && t1.badges[id].isActive)
  {
    var (t1, id) := EnsureBadgeSpec(t, kind, m);
    if FindBadgeByName(t.badges, m.name).None? {
      assert UniqueBadgeNames(t1.badges);
    }
  }

  // ---------------------------------------------------------------- awarding

  /** `_award_badge_to_user`: any row `award_badge` returns (new or existing) is reported as new; a failure reports nothing. */
  function AwardToUserSpec(t: Tables, userId: int, badgeId: int, name: string): (Tables, Option<BadgeAward>) {
    var (t1, r) := AwardBadgeSpec(t, userId, badgeId);
    (t1, if r.Ok? then Some(BadgeAward(badgeId, name, true)) else None)
  }

  method AwardBadgeToUser(db: Database, userId: int, badgeId: int, name: string) returns (a: Option<BadgeAward>)
    modifies db
    ensures (db.Snapshot(), a) == AwardToUserSpec(old(db.Snapshot()), userId, badgeId, name)
  {
    var r := AwardBadge(db, userId, badgeId);
    if r.Ok? {
      a := Some(BadgeAward(badgeId, name, true));
    } else {
      a := None;
    }
  }

  /**
   * An award keeps the schema valid and only adds rows; a reported award means the badge is
   * now held; an existing user always gets a catalog badge; and a badge already held is
   * reported as new again without any change.
   */
  lemma AwardToUserProperties(t: Tables, userId: int, badgeId: int, name: string)
    requires Valid(t)
    ensures var (t1, a) := AwardToUserSpec(t, userId, badgeId, name);
      && Valid(t1) && Grows(t, t1)
      && (a.Some? ==> a.value == BadgeAward(badgeId, name, true) && badgeId in HeldBadgeIds(t1, userId))
      && (0 <= userId < |t.users| && 0 <= badgeId < |t.badges| ==> a.Some?)
      && (badgeId in HeldBadgeIds(t, userId) ==> t1 == t && a == Some(BadgeAward(badgeId, name, true)))
  {
    AwardBadgeProperties(t, userId, badgeId);
    EnsureProfileSpecValid(t, userId);
    var (t0, got) := EnsureProfileSpec(t, userId);
    if got.Ok? {
      HeldIff(t0, userId, badgeId);
      if badgeId in HeldBadgeIds(t, userId) {
        assert userId in t.profiles;
        assert t0 == t;
      }
    }
  }

  // ---------------------------------------------------------------- one milestone table

  /** The name belongs to a milestone of the table whose threshold the measure reaches. */
  predicate Reached(ms: seq<Milestone>, measure: int, name: string) {
    exists k :: 0 <= k < |ms| && ms[k].name == name && measure >= ms[k].threshold
  }

  /**
   * One iteration of a `for ... in milestones` loop: a reached milestone's badge is ensured in
   * the catalog and, unless its id is in the held set read at the start, awarded.
   */
  function EvalStep(t: Tables, acc: seq<BadgeAward>, userId: int, held: set<int>, kind: string, measure: int, m: Milestone)
    : (Tables, seq<BadgeAward>)
  {
    if measure >= m.threshold then
      var (t1, id) := EnsureBadgeSpec(t, kind, m);
      if id !in held then
        var (t2, a) := AwardToUserSpec(t1, userId, id, m.name);
        (t2, if a.Some? then acc + [a.value] else acc)
      else (t1, acc)
    else (t, acc)
  }

  /** The whole loop over a milestone table. */
  function EvalMilestones(t: Tables, userId: int, held: set<int>, kind: string, measure: int, ms: seq<Milestone>)
    : (Tables, seq<BadgeAward>)
  {
    if ms == [] then (t, [])
    else
      var (t0, acc) := EvalMilestones(t, userId, held, kind, measure, ms[..|ms| - 1]);
      EvalStep(t0, acc, userId, held, kind, measure, ms[|ms| - 1])
  }

  method EvaluateMilestones(db: Database, userId: int, held: set<int>, kind: string, measure: int, ms: seq<Milestone>)
    returns (awarded: seq<BadgeAward>)
    modifies db
    ensures (db.Snapshot(), awarded) == EvalMilestones(old(db.Snapshot()), userId, held, kind, measure, ms)
  {
    awarded := [];
    var i := 0;
    while i < |ms|
      invariant 0 <= i <= |ms|
      invariant (db.Snapshot(), awarded) == EvalMilestones(old(db.Snapshot()), userId, held, kind, measure, ms[..i])
    {
      assert ms[..i + 1][..i] == ms[..i];
      ghost var before := (db.Snapshot(), awarded);
      var m := ms[i];
      if measure >= m.threshold {
        var id := EnsureBadgeExists(db, kind, m);
        if id !in held {
          var a := AwardBadgeToUser(db, userId, id, m.name);
          if a.Some? {
            awarded := awarded + [a.value];
          }
        }
      }
      assert (db.Snapshot(), awarded) == EvalStep(before.0, before.1, userId, held, kind, measure, m);
      i := i + 1;
    }
    assert ms[..|ms|] == ms;
  }

  /** Every award of a table is new, for a badge of that name outside the held set, reached by the measure, and held afterwards. */
  predicate SoundAwards(t: Tables, userId: int, held: set<int>, ms: seq<Milestone>, measure: int, aw: seq<BadgeAward>) {
    forall i :: 0 <= i < |aw| ==>
      && aw[i].isNew && aw[i].badgeId !in held
      && 0 <= aw[i].badgeId < |t.badges| && t.badges[aw[i].badgeId].name == aw[i].badgeName
      && aw[i].badgeId in HeldBadgeIds(t, userId)
      && Reached(ms, measure, aw[i].badgeName)
  }

  lemma SoundAwardsGrow(t: Tables, t1: Tables, userId: int, held: set<int>, ms: seq<Milestone>, measure: int, aw: seq<BadgeAward>)
    requires SoundAwards(t, userId, held, ms, measure, aw) && Grows(t, t1)
    ensures SoundAwards(t1, userId, held, ms, measure, aw)
  {
    HeldMonotone(t, t1, userId);
  }

  lemma SoundAwardsPrefix(userId: int, held: set<int>, ms: seq<Milestone>, t: Tables, measure: int, aw: seq<BadgeAward>)
    requires |ms| > 0 && SoundAwards(t, userId, held, ms[..|ms| - 1], measure, aw)
    ensures SoundAwards(t, userId, held, ms, measure, aw)
  {
    var pre := ms[..|ms| - 1];
    forall i | 0 <= i < |aw| ensures Reached(ms, measure, aw[i].badgeName) {
      var k :| 0 <= k < |pre| && pre[k].name == aw[i].badgeName && measure >= pre[k].threshold;
      assert ms[k] == pre[k];
    }
  }

  /** One step keeps the schema valid, only adds rows, and keeps every award sound. */
  lemma EvalStepSound(t: Tables, acc: seq<BadgeAward>, userId: int, held: set<int>, kind: string, measure: int,
                      ms: seq<Milestone>, m: Milestone)
    requires Valid(t) && SoundAwards(t, userId, held, ms, measure, acc)
    requires |ms| > 0 && ms[|ms| - 1] == m
    ensures var (t2, aw) := EvalStep(t, acc, userId, held, kind, measure, m);
      Valid(t2) && Grows(t, t2) && SoundAwards(t2, userId, held, ms, measure, aw)
  {
    if measure >= m.threshold {
      var (t1, id) := EnsureBadgeSpec(t, kind, m);
      assert Valid(t1) && Grows(t, t1) && id < |t1.badges| && t1.badges[id].name == m.name
          && SoundAwards(t1, userId, held, ms, measure, acc) by {
        EnsureBadgeProperties(t, kind, m);
        SoundAwardsGrow(t, t1, userId, held, ms, measure, acc);
      }
      if id !in held {
        var (t2, a) := AwardToUserSpec(t1, userId, id, m.name);
        assert Valid(t2) && Grows(t1, t2) && SoundAwards(t2, userId, held, ms, measure, acc)
            && (a.Some? ==> a.value == BadgeAward(id, m.name, true) && id in HeldBadgeIds(t2, userId)) by {
          AwardToUserProperties(t1, userId, id, m.name);
          SoundAwardsGrow(t1, t2, userId, held, ms, measure, acc);
        }
        assert Grows(t, t2) by {
          GrowsTrans(t, t1, t2);
        }
        if a.Some? {
          assert Reached(ms, measure, m.name) by {
            assert ms[|ms| - 1].name == m.name;
          }
          SoundAwardsAppend(t2, userId, held, ms, measure, acc, id, m.name);
        }
      }
    }
  }

  lemma SoundAwardsAppend(t: Tables, userId: int, held: set<int>, ms: seq<Milestone>, measure: int, aw: seq<BadgeAward>,
                          id: int, name: string)
    requires SoundAwards(t, userId, held, ms, measure, aw)
    requires id !in held && 0 <= id < |t.badges| && t.badges[id].name == name
    requires id in HeldBadgeIds(t, userId) && Reached(ms, measure, name)
    ensures SoundAwards(t, userId, held, ms, measure, aw + [BadgeAward(id, name, true)])
  {
    var aw1 := aw + [BadgeAward(id, name, true)];
    forall i | 0 <= i < |aw1| ensures aw1[i] == if i < |aw| then aw[i] else BadgeAward(id, name, true) {
    }
  }

  /** A table evaluation keeps the schema valid, only adds rows, and every award it reports is sound. */
  lemma {:induction false} EvalMilestonesSound(t: Tables, userId: int, held: set<int>, kind: string, measure: int, ms: seq<Milestone>)
    requires Valid(t)
    ensures var (t1, aw) := EvalMilestones(t, userId, held, kind, measure, ms);
      Valid(t1) && Grows(t, t1) && SoundAwards(t1, userId, held, ms, measure, aw)
    decreases |ms|
  {
    if ms != [] {
      var (t0, acc) := EvalMilestones(t, userId, held, kind, measure, ms[..|ms| - 1]);
      EvalMilestonesSound(t, userId, held, kind, measure, ms[..|ms| - 1]);
      SoundAwardsPrefix(userId, held, ms, t0, measure, acc);
      EvalStepSound(t0, acc, userId, held, kind, measure, ms, ms[|ms| - 1]);
      GrowsTrans(t, t0, EvalStep(t0, acc, userId, held, kind, measure, ms[|ms| - 1]).0);
    }
  }

  /** For an existing user and a truthful held set, one step leaves the badge of a reached milestone held. */
  lemma EvalStepComplete(t: Tables, acc: seq<BadgeAward>, userId: int, held: set<int>, kind: string, measure: int, m: Milestone)
    requires Valid(t) && 0 <= userId < |t.users| && held <= HeldBadgeIds(t, userId)
    requires measure >= m.threshold
    ensures HoldsBadgeNamed(EvalStep(t, acc, userId, held, kind, measure, m).0, userId, m.name)
  {
    var (t1, id) := EnsureBadgeSpec(t, kind, m);
    EnsureBadgeProperties(t, kind, m);
    HeldMonotone(t, t1, userId);
    if id !in held {
      var (t2, a) := AwardToUserSpec(t1, userId, id, m.name);
      AwardToUserProperties(t1, userId, id, m.name);
      assert t2.badges[id] == t1.badges[id];
      assert id in HeldBadgeIds(t2, userId);
    } else {
      assert id in HeldBadgeIds(t1, userId);
    }
  }

  /** Every milestone of the table that the measure reaches has its badge held. */
  predicate TableHeld(t: Tables, userId: int, measure: int, ms: seq<Milestone>) {
    forall k :: 0 <= k < |ms| && measure >= ms[k].threshold ==> HoldsBadgeNamed(t, userId, ms[k].name)
  }

  lemma TableHeldGrows(t: Tables, t1: Tables, userId: int, measure: int, ms: seq<Milestone>)
    requires TableHeld(t, userId, measure, ms) && Grows(t, t1)
    ensures TableHeld(t1, userId, measure, ms)
  {
    forall k | 0 <= k < |ms| && measure >= ms[k].threshold ensures HoldsBadgeNamed(t1, userId, ms[k].name) {
      HoldsMonotone(t, t1, userId, ms[k].name);
    }
  }

  /**
   * For an existing user and a held set that is no larger than the truth, every reached
   * milestone's badge is held when the table has been evaluated.
   */
  lemma {:induction false} EvalMilestonesComplete(t: Tables, userId: int, held: set<int>, kind: string, measure: int, ms: seq<Milestone>)
    requires Valid(t) && 0 <= userId < |t.users| && held <= HeldBadgeIds(t, userId)
    ensures TableHeld(EvalMilestones(t, userId, held, kind, measure, ms).0, userId, measure, ms)
    decreases |ms|
  {
    if ms != [] {
      var pre := ms[..|ms| - 1];
      var (t0, acc) := EvalMilestones(t, userId, held, kind, measure, pre);
      EvalMilestonesComplete(t, userId, held, kind, measure, pre);
      EvalMilestonesSound(t, userId, held, kind, measure, pre);
      HeldMonotone(t, t0, userId);
      var m := ms[|ms| - 1];
      var t1 := EvalStep(t0, acc, userId, held, kind, measure, m).0;
      SoundAwardsPrefix(userId, held, ms, t0, measure, acc);
      EvalStepSound(t0, acc, userId, held, kind, measure, ms, m);
      if measure >= m.threshold {
        EvalStepComplete(t0, acc, userId, held, kind, measure, m);
      }
      forall k | 0 <= k < |ms| && measure >= ms[k].threshold ensures HoldsBadgeNamed(t1, userId, ms[k].name) {
        if k < |ms| - 1 {
          assert ms[k] == pre[k];
          HoldsMonotone(t0, t1, userId, ms[k].name);
        }
      }
    }
  }

  /** When the held set is the truth and every reached badge is already held, a table evaluation changes nothing and awards nothing. */
  lemma {:induction false} EvalMilestonesQuiet(t: Tables, userId: int, kind: string, measure: int, ms: seq<Milestone>)
    requires Valid(t)
    requires forall k :: 0 <= k < |ms| && measure >= ms[k].threshold ==> HoldsBadgeNamed(t, userId, ms[k].name)
    ensures EvalMilestones(t, userId, HeldBadgeIds(t, userId), kind, measure, ms) == (t, [])
    decreases |ms|
  {
    if ms != [] {
      var pre := ms[..|ms| - 1];
      forall k | 0 <= k < |pre| && measure >= pre[k].threshold ensures HoldsBadgeNamed(t, userId, pre[k].name) {
        assert pre[k] == ms[k];
      }
      EvalMilestonesQuiet(t, userId, kind, measure, pre);
      var m := ms[|ms| - 1];
      if measure >= m.threshold {
        assert HoldsBadgeNamed(t, userId, m.name);
        var id :| 0 <= id < |t.badges| && t.badges[id].name == m.name && id in HeldBadgeIds(t, userId);
        FindBadgeUnique(t.badges, m.name, id);
      }
    }
  }

  // ---------------------------------------------------------------- the categories

  /** The receipt amounts of a user, a missing total counting as 0 (`receipt.total_amount or 0`). */
  function UserAmounts(receipts: seq<Receipt>, userId: int): seq<int> {
    if receipts == [] then []
    else
      UserAmounts(receipts[..|receipts| - 1], userId)
      + (if receipts[|receipts| - 1].userId == userId then [OrZero(receipts[|receipts| - 1].totalAmount)] else [])
  }

  function Sum(xs: seq<int>): int {
    if xs == [] then 0 else Sum(xs[..|xs| - 1]) + xs[|xs| - 1]
  }

  /** `max(xs or [0])`. */
  function MaxOrZero(xs: seq<int>): (m: int)
    ensures xs == [] ==> m == 0
    ensures xs != [] ==> m in xs && forall i :: 0 <= i < |xs| ==> xs[i] <= m
  {
    if xs == [] then 0
    else if |xs| == 1 then xs[0]
    else
      var m := MaxOrZero(xs[..|xs| - 1]);
      assert forall i :: 0 <= i < |xs| - 1 ==> xs[i] == xs[..|xs| - 1][i];
      if xs[|xs| - 1] > m then xs[|xs| - 1] else m
  }

  /** What each table measures. */
  function ActivityMeasure(t: Tables, userId: int): int {
    ReceiptCount(t.receipts, userId)
  }

  function StreakMeasure(t: Tables, userId: int, now: int): int {
    Streak(UploadDays(RecentReceipts(t.receipts, userId, now)))
  }

  function CumulativeMeasure(t: Tables, userId: int): int {
    Sum(UserAmounts(t.receipts, userId))
  }

  function SinglePurchaseMeasure(t: Tables, userId: int): int {
    MaxOrZero(UserAmounts(t.receipts, userId))
  }

  /** `_get_user_badge_ids`: the held badge ids; empty without a profile or when the query fails. */
  function HeldSpec(t: Tables, userId: int, faults: set<Fault>): set<int> {
    if HeldBadgeQuery in faults then {} else HeldBadgeIds(t, userId)
  }

  method GetUserBadgeIds(db: Database, userId: int, faults: set<Fault>) returns (ids: set<int>)
    ensures ids == HeldSpec(db.Snapshot(), userId, faults)
  {
    if HeldBadgeQuery in faults || userId !in db.profiles {
      return {};
    }
    var pid := db.profiles[userId].id;
    ids := {};
    var i := 0;
    while i < |db.userBadges|
      invariant 0 <= i <= |db.userBadges|
      invariant ids == set k | 0 <= k < i && db.userBadges[k].profileId == pid :: db.userBadges[k].badgeId
    {
      if db.userBadges[i].profileId == pid {
        ids := ids + {db.userBadges[i].badgeId};
      }
      i := i + 1;
    }
  }

  /** `_evaluate_activity_badges`: a failed count awards nothing and writes nothing. */
  function ActivitySpec(t: Tables, userId: int, held: set<int>, faults: set<Fault>): (Tables, seq<BadgeAward>) {
    if ActivityQuery in faults then (t, [])
    else EvalMilestones(t, userId, held, "receipt_count", ActivityMeasure(t, userId), ActivityMilestones)
  }

  /** `_evaluate_consecutive_badges`. */
  function StreakSpec(t: Tables, userId: int, held: set<int>, now: int, faults: set<Fault>): (Tables, seq<BadgeAward>) {
    if StreakBadgeQuery in faults then (t, [])
    else EvalMilestones(t, userId, held, "consecutive_days", StreakMeasure(t, userId, now), StreakMilestones)
  }

  /** `_evaluate_amount_badges`: the cumulative table, then the single-purchase table over the same receipts. */
  function AmountSpec(t: Tables, userId: int, held: set<int>, faults: set<Fault>): (Tables, seq<BadgeAward>) {
    if AmountQuery in faults then (t, [])
    else
      var (t1, a1) := EvalMilestones(t, userId, held, "total_amount", CumulativeMeasure(t, userId), CumulativeMilestones);
      var (t2, a2) := EvalMilestones(t1, userId, held, "single_purchase", SinglePurchaseMeasure(t, userId), SinglePurchaseMilestones);
      (t2, a1 + a2)
  }

  /** `evaluate_and_award_badges`: the held set is read once, then the three categories run in order. */
  function EvaluateSpec(t: Tables, userId: int, now: int, faults: set<Fault>): (Tables, seq<BadgeAward>) {
    var held := HeldSpec(t, userId, faults);
    var (t1, a1) := ActivitySpec(t, userId, held, faults);
    var (t2, a2) := StreakSpec(t1, userId, held, now, faults);
    var (t3, a3) := AmountSpec(t2, userId, held, faults);
    (t3, a1 + a2 + a3)
  }

  method EvaluateAndAwardBadges(db: Database, userId: int, now: int, faults: set<Fault>) returns (awarded: seq<BadgeAward>)
    modifies db
    ensures (db.Snapshot(), awarded) == EvaluateSpec(old(db.Snapshot()), userId, now, faults)
  {
    var held := GetUserBadgeIds(db, userId, faults);
    var a1: seq<BadgeAward> := [];
    if ActivityQuery !in faults {
      var total := ReceiptCount(db.receipts, userId);
      a1 := EvaluateMilestones(db, userId, held, "receipt_count", total, ActivityMilestones);
    }
    var a2: seq<BadgeAward> := [];
    if StreakBadgeQuery !in faults {
      var days := CountConsecutiveDays(RecentReceipts(db.receipts, userId, now));
      a2 := EvaluateMilestones(db, userId, held, "consecutive_days", days, StreakMilestones);
    }
    var a3: seq<BadgeAward> := [];
    if AmountQuery !in faults {
      var amounts := UserAmounts(db.receipts, userId);
      var cumulative := EvaluateMilestones(db, userId, held, "total_amount", Sum(amounts), CumulativeMilestones);
      var single := EvaluateMilestones(db, userId, held, "single_purchase", MaxOrZero(amounts), SinglePurchaseMilestones);
      a3 := cumulative + single;
    }
    awarded := a1 + a2 + a3;
  }

  // ---------------------------------------------------------------- properties of the whole evaluation

  /** The name is a milestone of some table that the user's receipts reach. */
  predicate Earned(t: Tables, userId: int, now: int, name: string) {
    || Reached(ActivityMilestones, ActivityMeasure(t, userId), name)
    || Reached(StreakMilestones, StreakMeasure(t, userId, now), name)
    || Reached(CumulativeMilestones, CumulativeMeasure(t, userId), name)
    || Reached(SinglePurchaseMilestones, SinglePurchaseMeasure(t, userId), name)
  }

  /** Each award is new, for a badge reached by the receipts, outside the held set, and held afterwards. */
  predicate EvaluationSound(t: Tables, t1: Tables, userId: int, now: int, held: set<int>, aw: seq<BadgeAward>) {
    forall i :: 0 <= i < |aw| ==>
      && aw[i].isNew && aw[i].badgeId !in held
      && 0 <= aw[i].badgeId < |t1.badges| && t1.badges[aw[i].badgeId].name == aw[i].badgeName
      && aw[i].badgeId in HeldBadgeIds(t1, userId)
      && Earned(t, userId, now, aw[i].badgeName)
  }

  lemma SoundToEvaluation(t: Tables, t1: Tables, t2: Tables, userId: int, now: int, held: set<int>,
                          ms: seq<Milestone>, measure: int, aw: seq<BadgeAward>)
    requires SoundAwards(t1, userId, held, ms, measure, aw) && Grows(t1, t2)
    requires forall name :: Reached(ms, measure, name) ==> Earned(t, userId, now, name)
    ensures EvaluationSound(t, t2, userId, now, held, aw)
  {
    SoundAwardsGrow(t1, t2, userId, held, ms, measure, aw);
  }

  lemma ActivitySound(t: Tables, userId: int, held: set<int>, faults: set<Fault>)
    requires Valid(t)
    ensures var (t1, aw) := ActivitySpec(t, userId, held, faults);
      Valid(t1) && Grows(t, t1) && SoundAwards(t1, userId, held, ActivityMilestones, ActivityMeasure(t, userId), aw)
  {
    if ActivityQuery !in faults {
      EvalMilestonesSound(t, userId, held, "receipt_count", ActivityMeasure(t, userId), ActivityMilestones);
    }
  }

  lemma StreakSound(t: Tables, userId: int, held: set<int>, now: int, faults: set<Fault>)
    requires Valid(t)
    ensures var (t1, aw) := StreakSpec(t, userId, held, now, faults);
      Valid(t1) && Grows(t, t1) && SoundAwards(t1, userId, held, StreakMilestones, StreakMeasure(t, userId, now), aw)
  {
    if StreakBadgeQuery !in faults {
      EvalMilestonesSound(t, userId, held, "consecutive_days", StreakMeasure(t, userId, now), StreakMilestones);
    }
  }

  lemma AmountSound(t: Tables, userId: int, held: set<int>, faults: set<Fault>)
    requires Valid(t)
    ensures var (t2, aw) := AmountSpec(t, userId, held, faults);
      && Valid(t2) && Grows(t, t2)
      && (forall i :: 0 <= i < |aw| ==>
            && aw[i].isNew && aw[i].badgeId !in held
            && 0 <= aw[i].badgeId < |t2.badges| && t2.badges[aw[i].badgeId].name == aw[i].badgeName
            && aw[i].badgeId in HeldBadgeIds(t2, userId)
            && (|| Reached(CumulativeMilestones, CumulativeMeasure(t, userId), aw[i].badgeName)
                || Reached(SinglePurchaseMilestones, SinglePurchaseMeasure(t, userId), aw[i].badgeName)))
  {
    if AmountQuery !in faults {
      var (t1, a1) := EvalMilestones(t, userId, held, "total_amount", CumulativeMeasure(t, userId), CumulativeMilestones);
      EvalMilestonesSound(t, userId, held, "total_amount", CumulativeMeasure(t, userId), CumulativeMilestones);
      var (t2, a2) := EvalMilestones(t1, userId, held, "single_purchase", SinglePurchaseMeasure(t, userId), SinglePurchaseMilestones);
      EvalMilestonesSound(t1, userId, held, "single_purchase", SinglePurchaseMeasure(t, userId), SinglePurchaseMilestones);
      SoundAwardsGrow(t1, t2, userId, held, CumulativeMilestones, CumulativeMeasure(t, userId), a1);
      var aw := a1 + a2;
      forall i | 0 <= i < |aw| ensures
          && aw[i].isNew && aw[i].badgeId !in held
          && 0 <= aw[i].badgeId < |t2.badges| && t2.badges[aw[i].badgeId].name == aw[i].badgeName
          && aw[i].badgeId in HeldBadgeIds(t2, userId)
          && (|| Reached(CumulativeMilestones, CumulativeMeasure(t, userId), aw[i].badgeName)
              || Reached(SinglePurchaseMilestones, SinglePurchaseMeasure(t, userId), aw[i].badgeName))
      {
        if i >= |a1| {
          assert aw[i] == a2[i - |a1|];
        }
      }
    }
  }

  /**
   * The whole evaluation keeps the schema valid and only adds catalog badges, held-badge
   * rows and possibly the user's profile; every award it reports is new, outside the held
   * set read at the start, for a badge the user's receipts reach, and held afterwards.
   */
  lemma EvaluateSound(t: Tables, userId: int, now: int, faults: set<Fault>)
    requires Valid(t)
    ensures var (t3, aw) := EvaluateSpec(t, userId, now, faults);
      Valid(t3) && Grows(t, t3) && EvaluationSound(t, t3, userId, now, HeldSpec(t, userId, faults), aw)
  {
    var held := HeldSpec(t, userId, faults);
    var (t1, a1) := ActivitySpec(t, userId, held, faults);
    ActivitySound(t, userId, held, faults);
    var (t2, a2) := StreakSpec(t1, userId, held, now, faults);
    StreakSound(t1, userId, held, now, faults);
    var (t3, a3) := AmountSpec(t2, userId, held, faults);
    AmountSound(t2, userId, held, faults);
    GrowsTrans(t1, t2, t3);
    GrowsTrans(t, t1, t3);
    SoundToEvaluation(t, t1, t3, userId, now, held, ActivityMilestones, ActivityMeasure(t, userId), a1);
    assert StreakMeasure(t1, userId, now) == StreakMeasure(t, userId, now);
    SoundToEvaluation(t, t2, t3, userId, now, held, StreakMilestones, StreakMeasure(t, userId, now), a2);
    assert CumulativeMeasure(t2, userId) == CumulativeMeasure(t, userId);
    assert SinglePurchaseMeasure(t2, userId) == SinglePurchaseMeasure(t, userId);
    var aw := a1 + a2 + a3;
    forall i | 0 <= i < |aw| ensures
        && aw[i].isNew && aw[i].badgeId !in held
        && 0 <= aw[i].badgeId < |t3.badges| && t3.badges[aw[i].badgeId].name == aw[i].badgeName
        && aw[i].badgeId in HeldBadgeIds(t3, userId)
        && Earned(t, userId, now, aw[i].badgeName)
    {
      if i < |a1| {
        assert aw[i] == a1[i];
      } else if i < |a1| + |a2| {
        assert aw[i] == a2[i - |a1|];
      } else {
        assert aw[i] == a3[i - |a1| - |a2|];
      }
    }
  }

  /** Every milestone of every table that the receipts reach has its badge held. */
  predicate AllReachedHeld(t: Tables, t1: Tables, userId: int, now: int) {
    && TableHeld(t1, userId, ActivityMeasure(t, userId), ActivityMilestones)
    && TableHeld(t1, userId, StreakMeasure(t, userId, now), StreakMilestones)
    && TableHeld(t1, userId, CumulativeMeasure(t, userId), CumulativeMilestones)
    && TableHeld(t1, userId, SinglePurchaseMeasure(t, userId), SinglePurchaseMilestones)
  }

  lemma AllReachedHeldGrows(t: Tables, t1: Tables, t2: Tables, userId: int, now: int)
    requires AllReachedHeld(t, t1, userId, now) && Grows(t1, t2)
    ensures AllReachedHeld(t, t2, userId, now)
  {
    TableHeldGrows(t1, t2, userId, ActivityMeasure(t, userId), ActivityMilestones);
    TableHeldGrows(t1, t2, userId, StreakMeasure(t, userId, now), StreakMilestones);
    TableHeldGrows(t1, t2, userId, CumulativeMeasure(t, userId), CumulativeMilestones);
    TableHeldGrows(t1, t2, userId, SinglePurchaseMeasure(t, userId), SinglePurchaseMilestones);
  }

  /** For an existing user with every query working, every badge the receipts reach is held afterwards. */
  lemma EvaluateComplete(t: Tables, userId: int, now: int)
    requires Valid(t) && 0 <= userId < |t.users|
    ensures AllReachedHeld(t, EvaluateSpec(t, userId, now, {}).0, userId, now)
  {
    var held := HeldSpec(t, userId, {});
    var (t1, a1) := ActivitySpec(t, userId, held, {});
    assert Valid(t1) && Grows(t, t1) && held <= HeldBadgeIds(t1, userId)
        && TableHeld(t1, userId, ActivityMeasure(t, userId), ActivityMilestones) by {
      EvalMilestonesComplete(t, userId, held, "receipt_count", ActivityMeasure(t, userId), ActivityMilestones);
      ActivitySound(t, userId, held, {});
      HeldMonotone(t, t1, userId);
    }
    var (t2, a2) := StreakSpec(t1, userId, held, now, {});
    assert Valid(t2) && Grows(t1, t2) && held <= HeldBadgeIds(t2, userId)
        && TableHeld(t2, userId, StreakMeasure(t, userId, now), StreakMilestones) by {
      assert StreakMeasure(t1, userId, now) == StreakMeasure(t, userId, now);
      EvalMilestonesComplete(t1, userId, held, "consecutive_days", StreakMeasure(t1, userId, now), StreakMilestones);
      StreakSound(t1, userId, held, now, {});
      HeldMonotone(t1, t2, userId);
    }
    var cumulative := CumulativeMeasure(t2, userId);
    var single := SinglePurchaseMeasure(t2, userId);
    var (tc, ac) := EvalMilestones(t2, userId, held, "total_amount", cumulative, CumulativeMilestones);
    assert Valid(tc) && Grows(t2, tc) && held <= HeldBadgeIds(tc, userId)
        && TableHeld(tc, userId, cumulative, CumulativeMilestones) by {
      EvalMilestonesComplete(t2, userId, held, "total_amount", cumulative, CumulativeMilestones);
      EvalMilestonesSound(t2, userId, held, "total_amount", cumulative, CumulativeMilestones);
      HeldMonotone(t2, tc, userId);
    }
    var (t3, asp) := EvalMilestones(tc, userId, held, "single_purchase", single, SinglePurchaseMilestones);
    assert Grows(tc, t3) && TableHeld(t3, userId, single, SinglePurchaseMilestones) by {
      EvalMilestonesComplete(tc, userId, held, "single_purchase", single, SinglePurchaseMilestones);
      EvalMilestonesSound(tc, userId, held, "single_purchase", single, SinglePurchaseMilestones);
    }
    assert EvaluateSpec(t, userId, now, {}).0 == t3;
    assert cumulative == CumulativeMeasure(t, userId) && single == SinglePurchaseMeasure(t, userId);
    TableHeldGrows(t1, t2, userId, ActivityMeasure(t, userId), ActivityMilestones);
    TableHeldGrows(t2, tc, userId, ActivityMeasure(t, userId), ActivityMilestones);
    TableHeldGrows(tc, t3, userId, ActivityMeasure(t, userId), ActivityMilestones);
    TableHeldGrows(t2, tc, userId, StreakMeasure(t, userId, now), StreakMilestones);
    TableHeldGrows(tc, t3, userId, StreakMeasure(t, userId, now), StreakMilestones);
    TableHeldGrows(tc, t3, userId, cumulative, CumulativeMilestones);
  }

  /** Evaluating again right after a complete evaluation awards nothing and changes nothing. */
  lemma EvaluateIdempotent(t: Tables, userId: int, now: int)
    requires Valid(t) && 0 <= userId < |t.users|
    ensures var t1 := EvaluateSpec(t, userId, now, {}).0;
      EvaluateSpec(t1, userId, now, {}) == (t1, [])
  {
    var t1 := EvaluateSpec(t, userId, now, {}).0;
    EvaluateSound(t, userId, now, {});
    EvaluateComplete(t, userId, now);
    assert ActivityMeasure(t1, userId) == ActivityMeasure(t, userId);
    assert StreakMeasure(t1, userId, now) == StreakMeasure(t, userId, now);
    assert CumulativeMeasure(t1, userId) == CumulativeMeasure(t, userId);
    assert SinglePurchaseMeasure(t1, userId) == SinglePurchaseMeasure(t, userId);
    EvalMilestonesQuiet(t1, userId, "receipt_count", ActivityMeasure(t1, userId), ActivityMilestones);
    EvalMilestonesQuiet(t1, userId, "consecutive_days", StreakMeasure(t1, userId, now), StreakMilestones);
    EvalMilestonesQuiet(t1, userId, "total_amount", CumulativeMeasure(t1, userId), CumulativeMilestones);
    EvalMilestonesQuiet(t1, userId, "single_purchase", SinglePurchaseMeasure(t1, userId), SinglePurchaseMilestones);
    var held := HeldSpec(t1, userId, {});
    assert ActivitySpec(t1, userId, held, {}) == (t1, []);
    assert StreakSpec(t1, userId, held, now, {}) == (t1, []);
    var none: seq<BadgeAward> := [];
    assert none + none == none;
    assert AmountSpec(t1, userId, held, {}) == (t1, []);
  }

  // ---------------------------------------------------------------- the initial catalog

  const InitialBadges: seq<Badge> := [
    Badge("はじめの一歩", "初回レシートアップロード", Criteria("receipt_count", ">=", 1),
          "https://cdn-icons-png.flaticon.com/512/1828/1828506.png", true),
    Badge("レシート10枚達成", "10枚のレシートをアップロードしました", Criteria("receipt_count", ">=", 10),
          "https://cdn-icons-png.flaticon.com/512/1828/1828506.png", true),
    Badge("3日坊主卒業", "3日連続でレシートをアップロードしました", Criteria("consecutive_days", ">=", 3),
          "https://cdn-icons-png.flaticon.com/512/1827/1827369.png", true),
    Badge("1万円突破", "累計1万円分のお買い物をしました", Criteria("total_amount", ">=", 10000),
          "https://cdn-icons-png.flaticon.com/512/1827/1827422.png", true)]

  /** The catalog after adding each of `init`, in order, whose name is not yet present. */
  function AddMissing(badges: seq<Badge>, init: seq<Badge>): seq<Badge> {
    if init == [] then badges
    else
      var b0 := AddMissing(badges, init[..|init| - 1]);
      var b := init[|init| - 1];
      if FindBadgeByName(b0, b.name).Some? then b0 else b0 + [b]
  }

  /** `create_initial_badges`. */
  function CreateInitialBadgesSpec(t: Tables): (Tables, bool) {
    (t.(badges := AddMissing(t.badges, InitialBadges)), true)
  }

  /** The loop of `create_initial_badges`: each badge of `init` whose name is not yet in the catalog is appended. */
  method AddMissingBadges(db: Database, init: seq<Badge>)
    modifies db
    ensures db.Snapshot() == old(db.Snapshot()).(badges := AddMissing(old(db.badges), init))
  {
    var i := 0;
    while i < |init|
      invariant 0 <= i <= |init|
      invariant db.Snapshot() == old(db.Snapshot()).(badges := AddMissing(old(db.badges), init[..i]))
    {
      assert init[..i + 1][..i] == init[..i];
      var b := init[i];
      var j := 0;
      var existing := false;
      while j < |db.badges| && !existing
        invariant 0 <= j <= |db.badges|
        invariant existing ==> FindBadgeByName(db.badges, b.name).Some?
        invariant !existing ==> forall k :: 0 <= k < j ==> db.badges[k].name != b.name
      {
        if db.badges[j].name == b.name {
          existing := true;
        }
        j := j + 1;
      }
      if !existing {
        db.badges := db.badges + [b];
      }
      i := i + 1;
    }
    assert init[..|init|] == init;
  }

  method CreateInitialBadges(db: Database) returns (ok: bool)
    modifies db
    ensures (db.Snapshot(), ok) == CreateInitialBadgesSpec(old(db.Snapshot()))
  {
    AddMissingBadges(db, InitialBadges);
    ok := true;
  }

  /** Adding missing badges keeps every name unique, keeps the old catalog as a prefix, and leaves every name of `init` present. */
  lemma {:induction false} AddMissingProperties(badges: seq<Badge>, init: seq<Badge>)
    requires UniqueBadgeNames(badges)
    ensures UniqueBadgeNames(AddMissing(badges, init))
    ensures badges <= AddMissing(badges, init)
    ensures |AddMissing(badges, init)| <= |badges| + |init|
    ensures forall k :: 0 <= k < |init| ==> FindBadgeByName(AddMissing(badges, init), init[k].name).Some?
    decreases |init|
  {
    if init != [] {
      var pre := init[..|init| - 1];
      AddMissingProperties(badges, pre);
      var b0 := AddMissing(badges, pre);
      var b := init[|init| - 1];
      var r := AddMissing(badges, init);
      forall k | 0 <= k < |init| ensures FindBadgeByName(r, init[k].name).Some? {
        if k < |init| - 1 {
          assert init[k] == pre[k];
          var id := FindBadgeByName(b0, init[k].name).value;
          assert r[id] == b0[id];
        } else {
          if FindBadgeByName(b0, b.name).None? {
            assert r[|b0|] == b;
          }
        }
      }
    }
  }

  /** Adding badges whose names are all present changes nothing. */
  lemma {:induction false} AddMissingAllPresent(badges: seq<Badge>, init: seq<Badge>)
    requires forall k :: 0 <= k < |init| ==> FindBadgeByName(badges, init[k].name).Some?
    ensures AddMissing(badges, init) == badges
    decreases |init|
  {
    if init != [] {
      var pre := init[..|init| - 1];
      forall k | 0 <= k < |pre| ensures FindBadgeByName(badges, pre[k].name).Some? {
        assert pre[k] == init[k];
      }
      AddMissingAllPresent(badges, pre);
    }
  }

  /**
   * Creating the initial catalog succeeds, keeps the schema valid and every existing badge,
   * adds at most the four initial badges so that each is then present by name, and a second
   * run changes nothing.
   */
  lemma CreateInitialBadgesProperties(t: Tables)
    requires Valid(t)
    ensures var (t1, ok) := CreateInitialBadgesSpec(t);
      && ok && Valid(t1) && Grows(t, t1)
      && |t1.badges| <= |t.badges| + 4
      && (forall k :: 0 <= k < |InitialBadges| ==>
            exists id :: 0 <= id < |t1.badges| && t1.badges[id].name == InitialBadges[k].name)
      && CreateInitialBadgesSpec(t1) == (t1, true)
  {
    var t1 := CreateInitialBadgesSpec(t).0;
    AddMissingProperties(t.badges, InitialBadges);
    AddMissingAllPresent(t1.badges, InitialBadges);
    forall k | 0 <= k < |InitialBadges|
      ensures exists id :: 0 <= id < |t1.badges| && t1.badges[id].name == InitialBadges[k].name
    {
      var id := FindBadgeByName(t1.badges, InitialBadges[k].name).value;
      assert t1.badges[id].name == InitialBadges[k].name;
    }
    assert t1.(badges := AddMissing(t1.badges, InitialBadges)) == t1;
  }
}
