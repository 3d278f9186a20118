/**
 * Ledger, badge-award and reward-redemption operations of the core API: each is a
 * specification function from the tables before to the tables after (with its result) and
 * a method on the `Database` that performs the same steps in place.
 */
module Crud {
  import opened Common
  import opened Text
  import opened Models

  /** Errors raised by the storage layer. */
  datatype DbError = ForeignKeyViolation | UniqueViolation | WriteFailed

  // ---------------------------------------------------------------- users and profiles

  /** `create_gamification_profile`: a fresh profile for an existing user without one. */
  function CreateProfileSpec(t: Tables, userId: int): (Tables, Result<Profile, DbError>) {
    if !(0 <= userId < |t.users|) then (t, Err(ForeignKeyViolation))
    else if userId in t.profiles then (t, Err(UniqueViolation))
    else
      var p := NewProfile(t.nextProfileId);
      (t.(profiles := t.profiles[userId := p], nextProfileId := t.nextProfileId + 1), Ok(p))
  }

  method CreateGamificationProfile(db: Database, userId: int) returns (r: Result<Profile, DbError>)
    modifies db
    ensures (db.Snapshot(), r) == CreateProfileSpec(old(db.Snapshot()), userId)
  {
    if !(0 <= userId < |db.users|) {
      return Err(ForeignKeyViolation);
    }
    if userId in db.profiles {
      return Err(UniqueViolation);
    }
    var p := NewProfile(db.nextProfileId);
    db.profiles := db.profiles[userId := p];
    db.nextProfileId := db.nextProfileId + 1;
    r := Ok(p);
  }

  /** A profile is created at its defaults, keeps the schema valid, and a second one for the same user is refused. */
  lemma CreateProfileProperties(t: Tables, userId: int)
    requires Valid(t)
    ensures var (t1, r) := CreateProfileSpec(t, userId);
      && Valid(t1)
      && (r.Ok? <==> 0 <= userId < |t.users| && userId !in t.profiles)
      && (r.Ok? ==> t1.profiles[userId] == r.value && r.value.contributionPoints == 0
                    && r.value.totalEarnedPoints == 0 && r.value.level == 1)
      && (r.Err? ==> t1 == t)
      && CreateProfileSpec(t1, userId).1.Err?
  {
  }

  /** `create_user`: fails on a taken email (unique column); a profile is created iff the user is not an owner. */
  function CreateUserSpec(t: Tables, email: string, isOwner: bool): (Tables, Result<int, DbError>) {
    if exists i :: 0 <= i < |t.users| && t.users[i].email == email then (t, Err(UniqueViolation))
    else
      var id := |t.users|;
      var t1 := t.(users := t.users + [User(email, isOwner)]);
      if isOwner then (t1, Ok(id)) else (CreateProfileSpec(t1, id).0, Ok(id))
  }

  method CreateUser(db: Database, email: string, isOwner: bool) returns (r: Result<int, DbError>)
    modifies db
    ensures (db.Snapshot(), r) == CreateUserSpec(old(db.Snapshot()), email, isOwner)
  {
    var i := 0;
    while i < |db.users|
      invariant 0 <= i <= |db.users|
      invariant forall k :: 0 <= k < i ==> db.users[k].email != email
    {
      if db.users[i].email == email {
        return Err(UniqueViolation);
      }
      i := i + 1;
    }
    var id := |db.users|;
    db.users := db.users + [User(email, isOwner)];
    if !isOwner {
      var _ := CreateGamificationProfile(db, id);
    }
    r := Ok(id);
  }

  lemma CreateUserProperties(t: Tables, email: string, isOwner: bool)
    requires Valid(t)
    ensures var (t1, r) := CreateUserSpec(t, email, isOwner);
      && Valid(t1)
      && (r.Ok? <==> forall i :: 0 <= i < |t.users| ==> t.users[i].email != email)
      && (r.Ok? ==> r.value == |t.users| && t1.users == t.users + [User(email, isOwner)]
                    && (r.value in t1.profiles <==> !isOwner)
                    && (!isOwner ==> t1.profiles[r.value] == NewProfile(t.nextProfileId)))
      && (r.Err? ==> t1 == t)
  {
    var (t1, r) := CreateUserSpec(t, email, isOwner);
    if r.Ok? {
      var u := t.(users := t.users + [User(email, isOwner)]);
      assert |t.users| !in t.profiles;
      CreateProfileProperties(u, |t.users|);
    }
  }

  /** `get_user_by_email`: the `.first()` user with that email. */
  function FindUserByEmail(users: seq<User>, email: string): (r: Option<nat>)
    ensures r.Some? ==> r.value < |users| && users[r.value].email == email
    ensures r.None? ==> forall k :: 0 <= k < |users| ==> users[k].email != email
  {
    if users == [] then None
    else if users[0].email == email then Some(0)
    else
      var rest := FindUserByEmail(users[1..], email);
      if rest.Some? then Some(rest.value + 1)
      else
        assert forall k :: 1 <= k < |users| ==> users[k] == users[1..][k - 1];
        None
  }

  // ---------------------------------------------------------------- receipts

  /** `create_receipt`: the receipt row (dated by the server clock) with its line items; the user must exist. */
  function CreateReceiptSpec(t: Tables, userId: int, supplierName: Option<string>, totalAmount: Option<int>,
                             storeId: Option<int>, items: seq<ReceiptItem>, now: int): (Tables, Result<nat, DbError>)
  {
    if !(0 <= userId < |t.users|) then (t, Err(ForeignKeyViolation))
    else (t.(receipts := t.receipts + [Receipt(userId, storeId, supplierName, totalAmount, now, now, items)]), Ok(|t.receipts|))
  }

  method CreateReceipt(db: Database, userId: int, supplierName: Option<string>, totalAmount: Option<int>,
                       storeId: Option<int>, items: seq<ReceiptItem>, now: int) returns (r: Result<nat, DbError>)
    modifies db
    ensures (db.Snapshot(), r) == CreateReceiptSpec(old(db.Snapshot()), userId, supplierName, totalAmount, storeId, items, now)
  {
    if !(0 <= userId < |db.users|) {
      return Err(ForeignKeyViolation);
    }
    r := Ok(|db.receipts|);
    db.receipts := db.receipts + [Receipt(userId, storeId, supplierName, totalAmount, now, now, items)];
  }

  /** A receipt of an existing user is appended as the last row, which is its id; a missing user writes nothing; no other table changes. */
  lemma CreateReceiptProperties(t: Tables, userId: int, supplierName: Option<string>, totalAmount: Option<int>,
                                storeId: Option<int>, items: seq<ReceiptItem>, now: int)
    requires Valid(t) && LedgerBalanced(t)
    ensures var (t1, r) := CreateReceiptSpec(t, userId, supplierName, totalAmount, storeId, items, now);
      && Valid(t1) && LedgerBalanced(t1)
      && (r.Ok? <==> 0 <= userId < |t.users|)
      && (r.Ok? ==> r.value == |t.receipts| && t1.receipts[r.value] == Receipt(userId, storeId, supplierName, totalAmount, now, now, items)
                    && t1 == t.(receipts := t.receipts + [t1.receipts[r.value]]))
      && (r.Err? ==> t1 == t)
  {
  }

  // ---------------------------------------------------------------- the point ledger

  /** The profile of a user, created on first use as `update_user_points` and `award_badge` do. */
  function EnsureProfileSpec(t: Tables, userId: int): (Tables, Result<Profile, DbError>) {
    if userId in t.profiles then (t, Ok(t.profiles[userId])) else CreateProfileSpec(t, userId)
  }

  /** The signed ledger row `update_user_points` records: `+points` for "earn", `-points` for any other type. */
  function SignedPoints(kind: TxType, points: int): int {
    if kind == Earn then points else -points
  }

  /** `update_user_points`: no balance check; "earn" raises both counters, "redeem" lowers the balance, other types change nothing. */
  function UpdatePointsSpec(t: Tables, userId: int, points: int, kind: TxType, description: Option<string>,
                            metadata: TxMetadata, faults: set<Fault>): (Tables, Result<Profile, DbError>)
  {
    var (t1, got) := EnsureProfileSpec(t, userId);
    if got.Err? then (t1, got)
    else if LedgerWrite in faults then (t1, Err(WriteFailed))
    else
      var p := got.value;
      var p1 :=
        if kind == Earn then p.(contributionPoints := p.contributionPoints + points,
                                totalEarnedPoints := p.totalEarnedPoints + points)
        else if kind == Redeem then p.(contributionPoints := p.contributionPoints - points)
        else p;
      var tx := PointTransaction(p.id, kind, SignedPoints(kind, points), description, metadata);
      (t1.(profiles := t1.profiles[userId := p1], transactions := t1.transactions + [tx]), Ok(p1))
  }

  method UpdateUserPoints(db: Database, userId: int, points: int, kind: TxType, description: Option<string>,
                          metadata: TxMetadata, faults: set<Fault>) returns (r: Result<Profile, DbError>)
    modifies db
    ensures (db.Snapshot(), r) == UpdatePointsSpec(old(db.Snapshot()), userId, points, kind, description, metadata, faults)
  {
    if userId !in db.profiles {
      var created := CreateGamificationProfile(db, userId);
      if created.Err? {
        return created;
      }
    }
    if LedgerWrite in faults {
      return Err(WriteFailed);
    }
    var profile := db.profiles[userId];
    if kind == Earn {
      profile := profile.(contributionPoints := profile.contributionPoints + points,
                          totalEarnedPoints := profile.totalEarnedPoints + points);
    } else if kind == Redeem {
      profile := profile.(contributionPoints := profile.contributionPoints - points);
    }
    var tx := PointTransaction(db.profiles[userId].id, kind, SignedPoints(kind, points), description, metadata);
    db.transactions := db.transactions + [tx];
    db.profiles := db.profiles[userId := profile];
    r := Ok(profile);
  }

  /** The signed sum of a profile's ledger rows. */
  function LedgerSum(txs: seq<PointTransaction>, profileId: int): int {
    if txs == [] then 0
    else LedgerSum(txs[..|txs| - 1], profileId)
         + (if txs[|txs| - 1].profileId == profileId then txs[|txs| - 1].points else 0)
  }

  /** The ledger invariant: every balance equals the signed sum of that profile's transactions. */
  predicate LedgerBalanced(t: Tables) {
    forall u :: u in t.profiles ==> t.profiles[u].contributionPoints == LedgerSum(t.transactions, t.profiles[u].id)
  }

  lemma {:induction false} LedgerSumNoRows(txs: seq<PointTransaction>, profileId: int)
    requires forall i :: 0 <= i < |txs| ==> txs[i].profileId != profileId
    ensures LedgerSum(txs, profileId) == 0
  {
    if txs != [] {
      LedgerSumNoRows(txs[..|txs| - 1], profileId);
    }
  }

  lemma LedgerSumAppend(txs: seq<PointTransaction>, tx: PointTransaction, profileId: int)
    ensures LedgerSum(txs + [tx], profileId) == LedgerSum(txs, profileId) + (if tx.profileId == profileId then tx.points else 0)
  {
    assert (txs + [tx])[..|txs|] == txs;
  }

  /** Creating a profile keeps the ledger balanced: the new id has no transactions yet. */
  lemma EnsureProfileKeepsLedger(t: Tables, userId: int)
    requires Valid(t) && LedgerBalanced(t)
    ensures Valid(EnsureProfileSpec(t, userId).0) && LedgerBalanced(EnsureProfileSpec(t, userId).0)
    ensures EnsureProfileSpec(t, userId).0.transactions == t.transactions
    ensures EnsureProfileSpec(t, userId).1.Ok? ==>
              (userId in EnsureProfileSpec(t, userId).0.profiles
               && EnsureProfileSpec(t, userId).0.profiles[userId] == EnsureProfileSpec(t, userId).1.value)
  {
    if userId !in t.profiles {
      CreateProfileProperties(t, userId);
      if 0 <= userId < |t.users| {
        LedgerSumNoRows(t.transactions, t.nextProfileId);
      }
    }
  }

  /** "earn" and "redeem" keep every balance equal to its signed transaction sum, and keep the schema valid. */
  lemma {:induction false} UpdatePointsKeepsLedger(t: Tables, userId: int, points: int, kind: TxType,
                                                    description: Option<string>, metadata: TxMetadata, faults: set<Fault>)
    requires Valid(t) && LedgerBalanced(t)
    requires kind == Earn || kind == Redeem
    ensures Valid(UpdatePointsSpec(t, userId, points, kind, description, metadata, faults).0)
    ensures LedgerBalanced(UpdatePointsSpec(t, userId, points, kind, description, metadata, faults).0)
  {
    var (t1, got) := EnsureProfileSpec(t, userId);
    assert Valid(t1) && LedgerBalanced(t1) && (got.Ok? ==> userId in t1.profiles && t1.profiles[userId] == got.value) by {
      EnsureProfileKeepsLedger(t, userId);
    }
    if got.Ok? && LedgerWrite !in faults {
      var p := got.value;
      var p1 :=
        if kind == Earn then p.(contributionPoints := p.contributionPoints + points,
                                totalEarnedPoints := p.totalEarnedPoints + points)
        else if kind == Redeem then p.(contributionPoints := p.contributionPoints - points)
        else p;
      var tx := PointTransaction(p.id, kind, SignedPoints(kind, points), description, metadata);
      var t2 := t1.(profiles := t1.profiles[userId := p1], transactions := t1.transactions + [tx]);
      assert UpdatePointsSpec(t, userId, points, kind, description, metadata, faults).0 == t2;
      assert p1.contributionPoints == p.contributionPoints + tx.points;
      assert Valid(t2) && LedgerBalanced(t2) by {
        LedgerRowKeepsValid(t1, userId, p1, tx);
        LedgerRowKeepsBalanced(t1, userId, p1, tx);
      }
    } else {
      assert UpdatePointsSpec(t, userId, points, kind, description, metadata, faults).0 == t1;
    }
  }

  /** Appending a profile's transaction while moving its balance by the same amount keeps every balance equal to its ledger sum. */
  lemma LedgerRowKeepsBalanced(t: Tables, userId: int, p: Profile, tx: PointTransaction)
    requires Valid(t) && LedgerBalanced(t) && userId in t.profiles
    requires p.id == t.profiles[userId].id && tx.profileId == p.id
    requires p.contributionPoints == t.profiles[userId].contributionPoints + tx.points
    ensures LedgerBalanced(t.(profiles := t.profiles[userId := p], transactions := t.transactions + [tx]))
  {
    var t2 := t.(profiles := t.profiles[userId := p], transactions := t.transactions + [tx]);
    forall u | u in t2.profiles
      ensures t2.profiles[u].contributionPoints == LedgerSum(t2.transactions, t2.profiles[u].id)
    {
      LedgerSumAppend(t.transactions, tx, t2.profiles[u].id);
      if u != userId {
        assert t.profiles[u].id != p.id;
      }
    }
  }

  /** Any point update keeps the schema valid and touches only profiles and the ledger. */
  lemma UpdatePointsKeepsValid(t: Tables, userId: int, points: int, kind: TxType,
                               description: Option<string>, metadata: TxMetadata, faults: set<Fault>)
    requires Valid(t)
    ensures var t1 := UpdatePointsSpec(t, userId, points, kind, description, metadata, faults).0;
      && Valid(t1) && t1.users == t.users && t1.receipts == t.receipts && t1.badges == t.badges
      && t1.userBadges == t.userBadges && t1.rewards == t.rewards && t1.userRewards == t.userRewards
  {
    var (t1, got) := EnsureProfileSpec(t, userId);
    assert Valid(t1) && t1.(profiles := t.profiles, nextProfileId := t.nextProfileId) == t
        && (got.Ok? ==> userId in t1.profiles && t1.profiles[userId] == got.value) by {
      EnsureProfileSpecValid(t, userId);
    }
    if got.Ok? && LedgerWrite !in faults {
      var p := got.value;
      var p1 :=
        if kind == Earn then p.(contributionPoints := p.contributionPoints + points,
                                totalEarnedPoints := p.totalEarnedPoints + points)
        else if kind == Redeem then p.(contributionPoints := p.contributionPoints - points)
        else p;
      var tx := PointTransaction(p.id, kind, SignedPoints(kind, points), description, metadata);
      var t2 := t1.(profiles := t1.profiles[userId := p1], transactions := t1.transactions + [tx]);
      assert UpdatePointsSpec(t, userId, points, kind, description, metadata, faults).0 == t2;
      assert Valid(t2) by {
        LedgerRowKeepsValid(t1, userId, p1, tx);
      }
    } else {
      assert UpdatePointsSpec(t, userId, points, kind, description, metadata, faults).0 == t1;
    }
  }

  /** Rewriting a profile's counters and appending one of its transactions keeps the schema valid. */
  lemma LedgerRowKeepsValid(t: Tables, userId: int, p: Profile, tx: PointTransaction)
    requires Valid(t) && userId in t.profiles && p.id == t.profiles[userId].id && tx.profileId == p.id
    ensures Valid(t.(profiles := t.profiles[userId := p], transactions := t.transactions + [tx]))
  {
    var t2 := t.(profiles := t.profiles[userId := p], transactions := t.transactions + [tx]);
    assert forall u :: u in t2.profiles ==> u in t.profiles && t2.profiles[u].id == t.profiles[u].id;
  }

  /** Any other transaction type records `-points` without touching the balance, so a non-zero amount unbalances the ledger. */
  lemma OtherTypeBreaksLedger(t: Tables, userId: int, points: int, name: string,
                              description: Option<string>, metadata: TxMetadata)
    requires Valid(t) && LedgerBalanced(t) && userId in t.profiles && points != 0
    ensures var (t1, r) := UpdatePointsSpec(t, userId, points, OtherType(name), description, metadata, {});
      && r == Ok(t.profiles[userId])
      && t1.transactions == t.transactions + [PointTransaction(t.profiles[userId].id, OtherType(name), -points, description, metadata)]
      && !LedgerBalanced(t1)
  {
    var p := t.profiles[userId];
    var tx := PointTransaction(p.id, OtherType(name), -points, description, metadata);
    var t1 := t.(profiles := t.profiles[userId := p], transactions := t.transactions + [tx]);
    assert UpdatePointsSpec(t, userId, points, OtherType(name), description, metadata, {}).0 == t1;
    LedgerSumAppend(t.transactions, tx, p.id);
    assert t1.profiles[userId].contributionPoints != LedgerSum(t1.transactions, t1.profiles[userId].id);
  }

  /** "earn" of p adds p to both counters and records +p; "redeem" lowers only the balance and records -p; nothing else changes. */
  lemma UpdatePointsEffect(t: Tables, userId: int, points: int, kind: TxType,
                           description: Option<string>, metadata: TxMetadata)
    requires Valid(t) && 0 <= userId < |t.users|
    ensures var (t1, r) := UpdatePointsSpec(t, userId, points, kind, description, metadata, {});
      var before := if userId in t.profiles then t.profiles[userId] else NewProfile(t.nextProfileId);
      && r.Ok? && t1.profiles[userId] == r.value && r.value.id == before.id
      && r.value.contributionPoints == before.contributionPoints
           + (if kind == Earn then points else if kind == Redeem then -points else 0)
      && r.value.totalEarnedPoints == before.totalEarnedPoints + (if kind == Earn then points else 0)
      && t1.transactions == t.transactions + [PointTransaction(before.id, kind, SignedPoints(kind, points), description, metadata)]
      && (forall u :: u in t.profiles && u != userId ==> u in t1.profiles && t1.profiles[u] == t.profiles[u])
      && t1.users == t.users && t1.receipts == t.receipts && t1.badges == t.badges
      && t1.userBadges == t.userBadges && t1.rewards == t.rewards && t1.userRewards == t.userRewards
  {
  }

  /** The manual redemption endpoint: the caller-side guard refuses a missing profile or a balance below the amount. */
  function ManualRedeemSpec(t: Tables, userId: int, points: int, description: string): (Tables, Result<Profile, RedeemError>) {
    if userId !in t.profiles || t.profiles[userId].contributionPoints < points then (t, Err(InsufficientPoints))
    else
      var (t1, r) := UpdatePointsSpec(t, userId, points, Redeem, Some(description), ManualRedeem, {});
      (t1, if r.Ok? then Ok(r.value) else Err(InsufficientPoints))
  }

  method ManualRedeemPoints(db: Database, userId: int, points: int, description: string) returns (r: Result<Profile, RedeemError>)
    modifies db
    ensures (db.Snapshot(), r) == ManualRedeemSpec(old(db.Snapshot()), userId, points, description)
  {
    if userId !in db.profiles || db.profiles[userId].contributionPoints < points {
      return Err(InsufficientPoints);
    }
    var updated := UpdateUserPoints(db, userId, points, Redeem, Some(description), ManualRedeem, {});
    r := if updated.Ok? then Ok(updated.value) else Err(InsufficientPoints);
  }

  /** Behind the guard a redemption never drives the balance negative, and it keeps the ledger balanced. */
  lemma ManualRedeemProperties(t: Tables, userId: int, points: int, description: string)
    requires Valid(t) && LedgerBalanced(t)
    ensures var (t1, r) := ManualRedeemSpec(t, userId, points, description);
      && Valid(t1) && LedgerBalanced(t1)
      && (r.Ok? <==> userId in t.profiles && t.profiles[userId].contributionPoints >= points)
      && (r.Ok? ==> r.value.contributionPoints == t.profiles[userId].contributionPoints - points
                    && (t.profiles[userId].contributionPoints >= 0 ==> r.value.contributionPoints >= 0))
      && (r.Err? ==> t1 == t)
  {
    UpdatePointsKeepsLedger(t, userId, points, Redeem, Some(description), ManualRedeem, {});
  }

  // ---------------------------------------------------------------- badges

  /** The first held-badge row for a (profile, badge) pair: the `existing` query of `award_badge`. */
  function FindAward(rows: seq<UserBadge>, profileId: int, badgeId: int): (r: Option<nat>)
    ensures r.Some? ==> r.value < |rows| && rows[r.value] == UserBadge(profileId, badgeId)
    ensures r.Some? ==> forall k :: 0 <= k < r.value ==> rows[k] != UserBadge(profileId, badgeId)
    ensures r.None? ==> forall k :: 0 <= k < |rows| ==> rows[k] != UserBadge(profileId, badgeId)
  {
    if rows == [] then None
    else if rows[0] == UserBadge(profileId, badgeId) then Some(0)
    else
      var rest := FindAward(rows[1..], profileId, badgeId);
      if rest.Some? then Some(rest.value + 1) else None
  }

  /** `award_badge`: returns the existing row for the pair, or inserts one; the profile is created first if missing. */
  function AwardBadgeSpec(t: Tables, userId: int, badgeId: int): (Tables, Result<nat, DbError>) {
    var (t1, got) := EnsureProfileSpec(t, userId);
    if got.Err? then (t1, Err(got.error))
    else
      var found := FindAward(t1.userBadges, got.value.id, badgeId);
      if found.Some? then (t1, Ok(found.value))
      else if !(0 <= badgeId < |t1.badges|) then (t1, Err(ForeignKeyViolation))
      else (t1.(userBadges := t1.userBadges + [UserBadge(got.value.id, badgeId)]), Ok(|t1.userBadges|))
  }

  method AwardBadge(db: Database, userId: int, badgeId: int) returns (r: Result<nat, DbError>)
    modifies db
    ensures (db.Snapshot(), r) == AwardBadgeSpec(old(db.Snapshot()), userId, badgeId)
  {
    if userId !in db.profiles {
      var created := CreateGamificationProfile(db, userId);
      if created.Err? {
        return Err(created.error);
      }
    }
    var profileId := db.profiles[userId].id;
    var i := 0;
    while i < |db.userBadges|
      invariant 0 <= i <= |db.userBadges|
      invariant forall k :: 0 <= k < i ==> db.userBadges[k] != UserBadge(profileId, badgeId)
    {
      if db.userBadges[i] == UserBadge(profileId, badgeId) {
        FindAwardFirst(db.userBadges, profileId, badgeId, i);
        return Ok(i);
      }
      i := i + 1;
    }
    if !(0 <= badgeId < |db.badges|) {
      return Err(ForeignKeyViolation);
    }
    r := Ok(|db.userBadges|);
    db.userBadges := db.userBadges + [UserBadge(profileId, badgeId)];
  }

  /** The first matching row is the one FindAward returns. */
  lemma FindAwardFirst(rows: seq<UserBadge>, profileId: int, badgeId: int, i: nat)
    requires i < |rows| && rows[i] == UserBadge(profileId, badgeId)
    requires forall k :: 0 <= k < i ==> rows[k] != UserBadge(profileId, badgeId)
    ensures FindAward(rows, profileId, badgeId) == Some(i)
  {
    var f := FindAward(rows, profileId, badgeId);
    assert f.Some?;
  }

  /**
   * Awarding keeps the schema valid (so each pair has at most one row), the badge is then held,
   * and awarding the same badge again inserts nothing.
   */
  lemma AwardBadgeProperties(t: Tables, userId: int, badgeId: int)
    requires Valid(t)
    ensures var (t1, r) := AwardBadgeSpec(t, userId, badgeId);
      && Valid(t1)
      && (r.Ok? <==> 0 <= userId < |t.users| && (0 <= badgeId < |t.badges| || badgeId in HeldBadgeIds(t, userId)))
      && (r.Ok? ==> userId in t1.profiles && badgeId in HeldBadgeIds(t1, userId)
                    && t1.userBadges[r.value] == UserBadge(t1.profiles[userId].id, badgeId))
      && |t1.userBadges| <= |t.userBadges| + 1
      && t.userBadges <= t1.userBadges
      && t1.transactions == t.transactions && t1.badges == t.badges && t1.receipts == t.receipts
      && AwardBadgeSpec(t1, userId, badgeId).0 == t1
  {
    EnsureProfileSpecValid(t, userId);
    var (t0, got) := EnsureProfileSpec(t, userId);
    if got.Ok? {
      var pid := got.value.id;
      assert HeldBadgeIds(t, userId) == HeldBadgeIds(t0, userId) by {
        if userId !in t.profiles {
          assert forall k :: 0 <= k < |t.userBadges| ==> t.userBadges[k].profileId != pid;
        }
      }
      AwardWithProfile(t0, userId, badgeId);
      assert AwardBadgeSpec(t, userId, badgeId) == AwardBadgeSpec(t0, userId, badgeId);
    }
  }

  /** `award_badge` once the profile exists: the pair's row is found or appended, and a second call finds it. */
  lemma AwardWithProfile(t: Tables, userId: int, badgeId: int)
    requires Valid(t) && userId in t.profiles
    ensures var (t1, r) := AwardBadgeSpec(t, userId, badgeId);
      var row := UserBadge(t.profiles[userId].id, badgeId);
      && Valid(t1)
      && (r.Ok? <==> 0 <= badgeId < |t.badges| || badgeId in HeldBadgeIds(t, userId))
      && (r.Ok? ==> badgeId in HeldBadgeIds(t1, userId) && r.value < |t1.userBadges| && t1.userBadges[r.value] == row)
      && (t1 == t || t1 == t.(userBadges := t.userBadges + [row]))
      && AwardBadgeSpec(t1, userId, badgeId).0 == t1
  {
    var pid := t.profiles[userId].id;
    var row := UserBadge(pid, badgeId);
    var found := FindAward(t.userBadges, pid, badgeId);
    HeldIff(t, userId, badgeId);
    if found.None? && 0 <= badgeId < |t.badges| {
      var t1 := t.(userBadges := t.userBadges + [row]);
      assert t1.userBadges[|t.userBadges|] == row;
      assert Valid(t1) by {
        AppendAwardKeepsValid(t, row);
      }
      HeldIff(t1, userId, badgeId);
      var again := FindAward(t1.userBadges, pid, badgeId);
      assert again.Some?;
    }
  }

  /** Appending a row for a new pair keeps the schema valid. */
  lemma AppendAwardKeepsValid(t: Tables, row: UserBadge)
    requires Valid(t) && 0 <= row.badgeId < |t.badges| && 0 <= row.profileId < t.nextProfileId
    requires forall k :: 0 <= k < |t.userBadges| ==> t.userBadges[k] != row
    ensures Valid(t.(userBadges := t.userBadges + [row]))
  {
    var rows := t.userBadges + [row];
    assert forall k :: 0 <= k < |rows| ==> rows[k] == if k < |t.userBadges| then t.userBadges[k] else row;
  }

  lemma EnsureProfileSpecValid(t: Tables, userId: int)
    requires Valid(t)
    ensures var (t1, r) := EnsureProfileSpec(t, userId);
      && Valid(t1)
      && t1.transactions == t.transactions && t1.badges == t.badges && t1.receipts == t.receipts
      && t1.userBadges == t.userBadges && t1.users == t.users && t1.rewards == t.rewards && t1.userRewards == t.userRewards
      && (r.Ok? <==> 0 <= userId < |t.users|)
      && (r.Ok? ==> userId in t1.profiles && t1.profiles[userId] == r.value)
      && (forall u :: u in t.profiles ==> u in t1.profiles && t1.profiles[u] == t.profiles[u])
      && (r.Err? ==> t1 == t)
  {
    if userId !in t.profiles {
      CreateProfileProperties(t, userId);
    }
  }

  /** Held badges are exactly the badge ids of the profile's rows. */
  lemma HeldIff(t: Tables, userId: int, badgeId: int)
    requires userId in t.profiles
    ensures (badgeId in HeldBadgeIds(t, userId)) == FindAward(t.userBadges, t.profiles[userId].id, badgeId).Some?
  {
    var pid := t.profiles[userId].id;
    if badgeId in HeldBadgeIds(t, userId) {
      var i :| 0 <= i < |t.userBadges| && t.userBadges[i].profileId == pid && t.userBadges[i].badgeId == badgeId;
      assert t.userBadges[i] == UserBadge(pid, badgeId);
    }
    var f := FindAward(t.userBadges, pid, badgeId);
    if f.Some? {
      assert t.userBadges[f.value].profileId == pid;
    }
  }

  // ---------------------------------------------------------------- rewards

  /** `create_reward`: the available stock starts at the stock quantity. */
  function CreateRewardSpec(t: Tables, title: string, requiredPoints: int, stockQuantity: Option<int>,
                            isActive: bool, validDays: int): (Tables, nat)
  {
    (t.(rewards := t.rewards + [Reward(title, requiredPoints, stockQuantity, stockQuantity, isActive, validDays)]), |t.rewards|)
  }

  method CreateReward(db: Database, title: string, requiredPoints: int, stockQuantity: Option<int>,
                      isActive: bool, validDays: int) returns (id: nat)
    modifies db
    ensures (db.Snapshot(), id) == CreateRewardSpec(old(db.Snapshot()), title, requiredPoints, stockQuantity, isActive, validDays)
  {
    id := |db.rewards|;
    db.rewards := db.rewards + [Reward(title, requiredPoints, stockQuantity, stockQuantity, isActive, validDays)];
  }

  lemma CreateRewardProperties(t: Tables, title: string, requiredPoints: int, stockQuantity: Option<int>,
                               isActive: bool, validDays: int)
    requires Valid(t)
    ensures var (t1, id) := CreateRewardSpec(t, title, requiredPoints, stockQuantity, isActive, validDays);
      && Valid(t1) && id == |t.rewards| && |t1.rewards| == id + 1
      && t1.rewards[id].availableStock == t1.rewards[id].stockQuantity == stockQuantity
      && t1.rewards[..id] == t.rewards && t1.userRewards == t.userRewards && t1.profiles == t.profiles
  {
  }

  /** `string.ascii_uppercase + string.digits`. */
  const CouponAlphabet: string := "ABCDEFGHIJKLMNOPQRSTUVWXYZ0123456789"
  const CouponPrefix: string := "EZ-GEN-"

  /** `random_part` from six `secrets.choice` draws, each given as a position in the alphabet. */
  function RandomPart(picks: seq<int>): (r: string)
    requires forall i :: 0 <= i < |picks| ==> 0 <= picks[i] < |CouponAlphabet|
    ensures |r| == |picks|
    ensures forall i :: 0 <= i < |r| ==> r[i] == CouponAlphabet[picks[i]]
  {
    if picks == [] then [] else [CouponAlphabet[picks[0]]] + RandomPart(picks[1..])
  }

  /** `generate_coupon_code`: `EZ-GEN-` followed by the six drawn characters. */
  function GenerateCouponCode(picks: seq<int>): string
    requires |picks| == 6 && forall i :: 0 <= i < 6 ==> 0 <= picks[i] < |CouponAlphabet|
  {
    CouponPrefix + RandomPart(picks)
  }

  lemma AlphabetDistinct()
    ensures forall i, j :: 0 <= i < j < |CouponAlphabet| ==> CouponAlphabet[i] != CouponAlphabet[j]
  {
    forall i | 0 <= i < |CouponAlphabet| ensures AlphabetPosition(CouponAlphabet[i]) == i {
    }
  }

  /** Where a character sits in the coupon alphabet: letters first, then digits. */
  function AlphabetPosition(c: char): int {
    if 'A' <= c <= 'Z' then c as int - 'A' as int else c as int - '0' as int + 26
  }

  /** A code has 13 characters, starts with `EZ-GEN-`, ends in six alphabet characters, and distinct draws give distinct codes. */
  lemma CouponCodeShape(picks: seq<int>, other: seq<int>)
    requires |picks| == 6 && forall i :: 0 <= i < 6 ==> 0 <= picks[i] < |CouponAlphabet|
    requires |other| == 6 && forall i :: 0 <= i < 6 ==> 0 <= other[i] < |CouponAlphabet|
    ensures |GenerateCouponCode(picks)| == 13
    ensures StartsWith(GenerateCouponCode(picks), "EZ-GEN-")
    ensures forall i :: 7 <= i < 13 ==> GenerateCouponCode(picks)[i] in CouponAlphabet
    ensures GenerateCouponCode(picks) == GenerateCouponCode(other) <==> picks == other
  {
    var a, b := GenerateCouponCode(picks), GenerateCouponCode(other);
    assert a[..7] == CouponPrefix;
    if a == b {
      AlphabetDistinct();
      forall i | 0 <= i < 6 ensures picks[i] == other[i] {
        assert a[7 + i] == CouponAlphabet[picks[i]];
        assert b[7 + i] == CouponAlphabet[other[i]];
      }
    }
  }

  /** Why `redeem_reward` and the manual redemption refuse. */
  datatype RedeemError = RewardUnavailable | OutOfStock | InsufficientPoints | CouponCodeTaken

  /** Whether the coupon code is already used by an issued coupon (the unique constraint). */
  predicate CouponTaken(rows: seq<UserReward>, code: string) {
    exists i :: 0 <= i < |rows| && rows[i].couponCode == code
  }

  /**
   * `redeem_reward`: checks availability, stock and balance, in that order, before any write;
   * then issues an active coupon, debits the points and consumes one unit of finite stock.
   */
  function RedeemRewardSpec(t: Tables, userId: int, rewardId: int, picks: seq<int>, now: int): (Tables, Result<nat, RedeemError>)
    requires |picks| == 6 && forall i :: 0 <= i < 6 ==> 0 <= picks[i] < |CouponAlphabet|
  {
    if !(0 <= rewardId < |t.rewards|) || !t.rewards[rewardId].isActive then (t, Err(RewardUnavailable))
    else
      var reward := t.rewards[rewardId];
      if reward.stockQuantity.Some? && OrZero(reward.availableStock) <= 0 then (t, Err(OutOfStock))
      else if userId !in t.profiles || t.profiles[userId].contributionPoints < reward.requiredPoints then (t, Err(InsufficientPoints))
      else
        var code := GenerateCouponCode(picks);
        if CouponTaken(t.userRewards, code) then (t, Err(CouponCodeTaken))
        else
          var issued := UserReward(userId, rewardId, code, reward.requiredPoints, Active,
                                   Some(now + Days(reward.validDays)), None, None);
          var t1 := t.(userRewards := t.userRewards + [issued]);
          var t2 := UpdatePointsSpec(t1, userId, reward.requiredPoints, Redeem, Some("特典交換: " + reward.title),
                                     RewardExchange(rewardId, code), {}).0;
          var t3 := if reward.stockQuantity.Some?
                    then t2.(rewards := t2.rewards[rewardId := reward.(availableStock := Some(OrZero(reward.availableStock) - 1))])
                    else t2;
          (t3, Ok(|t.userRewards|))
  }

  method RedeemReward(db: Database, userId: int, rewardId: int, picks: seq<int>, now: int) returns (r: Result<nat, RedeemError>)
    requires |picks| == 6 && forall i :: 0 <= i < 6 ==> 0 <= picks[i] < |CouponAlphabet|
    modifies db
    ensures (db.Snapshot(), r) == RedeemRewardSpec(old(db.Snapshot()), userId, rewardId, picks, now)
  {
    if !(0 <= rewardId < |db.rewards|) || !db.rewards[rewardId].isActive {
      return Err(RewardUnavailable);
    }
    var reward := db.rewards[rewardId];
    if reward.stockQuantity.Some? && OrZero(reward.availableStock) <= 0 {
      return Err(OutOfStock);
    }
    if userId !in db.profiles || db.profiles[userId].contributionPoints < reward.requiredPoints {
      return Err(InsufficientPoints);
    }
    var code := GenerateCouponCode(picks);
    var i := 0;
    while i < |db.userRewards|
      invariant 0 <= i <= |db.userRewards|
      invariant forall k :: 0 <= k < i ==> db.userRewards[k].couponCode != code
    {
      if db.userRewards[i].couponCode == code {
        return Err(CouponCodeTaken);
      }
      i := i + 1;
    }
    r := Ok(|db.userRewards|);
    db.userRewards := db.userRewards + [UserReward(userId, rewardId, code, reward.requiredPoints, Active,
                                                   Some(now + Days(reward.validDays)), None, None)];
    var _ := UpdateUserPoints(db, userId, reward.requiredPoints, Redeem, Some("特典交換: " + reward.title),
                              RewardExchange(rewardId, code), {});
    if reward.stockQuantity.Some? {
      db.rewards := db.rewards[rewardId := reward.(availableStock := Some(OrZero(reward.availableStock) - 1))];
    }
  }

  /** A refused redemption writes nothing; the refusals come in the source's order. */
  lemma RedeemRewardErrors(t: Tables, userId: int, rewardId: int, picks: seq<int>, now: int)
    requires |picks| == 6 && forall i :: 0 <= i < 6 ==> 0 <= picks[i] < |CouponAlphabet|
    ensures var (t1, r) := RedeemRewardSpec(t, userId, rewardId, picks, now);
      && (r.Err? ==> t1 == t)
      && (r == Err(RewardUnavailable) <==> !(0 <= rewardId < |t.rewards|) || !t.rewards[rewardId].isActive)
      && (r == Err(OutOfStock) <==>
            (0 <= rewardId < |t.rewards| && t.rewards[rewardId].isActive
             && t.rewards[rewardId].stockQuantity.Some? && OrZero(t.rewards[rewardId].availableStock) <= 0))
      && (r.Ok? ==> userId in t.profiles && t.profiles[userId].contributionPoints >= t.rewards[rewardId].requiredPoints
                    && !CouponTaken(t.userRewards, GenerateCouponCode(picks)))
  {
  }

  /** The coupon row a successful redemption issues. */
  function IssuedCoupon(t: Tables, userId: int, rewardId: int, picks: seq<int>, now: int): UserReward
    requires |picks| == 6 && forall i :: 0 <= i < 6 ==> 0 <= picks[i] < |CouponAlphabet|
    requires 0 <= rewardId < |t.rewards|
  {
    UserReward(userId, rewardId, GenerateCouponCode(picks), t.rewards[rewardId].requiredPoints, Active,
               Some(now + Days(t.rewards[rewardId].validDays)), None, None)
  }

  /** A redemption keeps the schema valid (coupon codes stay unique) and the ledger balanced. */
  lemma RedeemRewardKeepsInvariants(t: Tables, userId: int, rewardId: int, picks: seq<int>, now: int)
    requires |picks| == 6 && forall i :: 0 <= i < 6 ==> 0 <= picks[i] < |CouponAlphabet|
    requires Valid(t) && LedgerBalanced(t)
    ensures Valid(RedeemRewardSpec(t, userId, rewardId, picks, now).0)
    ensures LedgerBalanced(RedeemRewardSpec(t, userId, rewardId, picks, now).0)
  {
    var (t1, r) := RedeemRewardSpec(t, userId, rewardId, picks, now);
    if r.Ok? {
      var reward := t.rewards[rewardId];
      var code := GenerateCouponCode(picks);
      var ta := t.(userRewards := t.userRewards + [IssuedCoupon(t, userId, rewardId, picks, now)]);
      assert Valid(ta) by {
        forall i, j | 0 <= i < j < |ta.userRewards| ensures ta.userRewards[i].couponCode != ta.userRewards[j].couponCode {
          if j == |t.userRewards| {
            assert t.userRewards[i].couponCode != code;
          }
        }
      }
      UpdatePointsKeepsLedger(ta, userId, reward.requiredPoints, Redeem, Some("特典交換: " + reward.title),
                              RewardExchange(rewardId, code), {});
    }
  }

  /**
   * A successful redemption issues one active coupon worth the required points that expires
   * `valid_days` later, lowers the balance by the required points and leaves the total earned
   * alone, and consumes one unit of stock iff the stock is finite.
   */
  lemma RedeemRewardSuccess(t: Tables, userId: int, rewardId: int, picks: seq<int>, now: int)
    requires |picks| == 6 && forall i :: 0 <= i < 6 ==> 0 <= picks[i] < |CouponAlphabet|
    requires Valid(t)
    ensures var (t1, r) := RedeemRewardSpec(t, userId, rewardId, picks, now);
      r.Ok? ==>
        var reward := t.rewards[rewardId];
        && r.value == |t.userRewards| && t1.userRewards == t.userRewards + [IssuedCoupon(t, userId, rewardId, picks, now)]
        && userId in t1.profiles
        && t1.profiles[userId].contributionPoints == t.profiles[userId].contributionPoints - reward.requiredPoints
        && t1.profiles[userId].totalEarnedPoints == t.profiles[userId].totalEarnedPoints
        && |t1.rewards| == |t.rewards|
        && (reward.stockQuantity.Some? ==> t1.rewards[rewardId].availableStock == Some(OrZero(reward.availableStock) - 1))
        && (reward.stockQuantity.None? ==> t1.rewards == t.rewards)
        && (forall k :: 0 <= k < |t.rewards| && k != rewardId ==> t1.rewards[k] == t.rewards[k])
        && t1.transactions == t.transactions + [PointTransaction(t.profiles[userId].id, Redeem, -reward.requiredPoints,
                                                                 Some("特典交換: " + reward.title),
                                                                 RewardExchange(rewardId, GenerateCouponCode(picks)))]
        && t1.profiles.Keys == t.profiles.Keys
        && (forall u :: u in t.profiles && u != userId ==> t1.profiles[u] == t.profiles[u])
        && t1.users == t.users && t1.receipts == t.receipts && t1.badges == t.badges && t1.userBadges == t.userBadges
  {
    var (t1, r) := RedeemRewardSpec(t, userId, rewardId, picks, now);
    if r.Ok? {
      var reward := t.rewards[rewardId];
      var code := GenerateCouponCode(picks);
      var ta := t.(userRewards := t.userRewards + [IssuedCoupon(t, userId, rewardId, picks, now)]);
      UpdatePointsEffect(ta, userId, reward.requiredPoints, Redeem, Some("特典交換: " + reward.title), RewardExchange(rewardId, code));
    }
  }

  /** The balance check makes the debit safe: after a successful redemption the balance is never negative. */
  lemma RedeemRewardBalanceNonNegative(t: Tables, userId: int, rewardId: int, picks: seq<int>, now: int)
    requires |picks| == 6 && forall i :: 0 <= i < 6 ==> 0 <= picks[i] < |CouponAlphabet|
    requires Valid(t)
    ensures var (t1, r) := RedeemRewardSpec(t, userId, rewardId, picks, now);
      r.Ok? ==> t1.profiles[userId].contributionPoints >= 0
  {
    RedeemRewardSuccess(t, userId, rewardId, picks, now);
  }

  // ---------------------------------------------------------------- coupons

  /** The first issued coupon with the given code. */
  function FindCoupon(rows: seq<UserReward>, code: string): (r: Option<nat>)
    ensures r.Some? ==> r.value < |rows| && rows[r.value].couponCode == code
    ensures r.None? ==> !CouponTaken(rows, code)
  {
    if rows == [] then None
    else if rows[0].couponCode == code then Some(0)
    else
      var rest := FindCoupon(rows[1..], code);
      if rest.Some? then Some(rest.value + 1)
      else
        assert forall i :: 1 <= i < |rows| ==> rows[i] == rows[1..][i - 1];
        None
  }

  datatype CouponError = CouponNotFound | CouponNotActive | CouponExpired

  /**
   * `use_coupon`: an unknown code or a coupon that is not active is refused without change;
   * a coupon past its expiry becomes expired and is refused; otherwise it becomes used.
   */
  function UseCouponSpec(t: Tables, code: string, storeId: Option<int>, now: int): (Tables, Result<nat, CouponError>) {
    var found := FindCoupon(t.userRewards, code);
    if found.None? then (t, Err(CouponNotFound))
    else
      var i := found.value;
      var ur := t.userRewards[i];
      if ur.status != Active then (t, Err(CouponNotActive))
      else if ur.expiresAt.Some? && ur.expiresAt.value < now then
        (t.(userRewards := t.userRewards[i := ur.(status := Expired)]), Err(CouponExpired))
      else
        var used := ur.(status := Used, usedAt := Some(now), usedStoreId := if TruthyInt(storeId) then storeId else ur.usedStoreId);
        (t.(userRewards := t.userRewards[i := used]), Ok(i))
  }

  method UseCoupon(db: Database, code: string, storeId: Option<int>, now: int) returns (r: Result<nat, CouponError>)
    modifies db
    ensures (db.Snapshot(), r) == UseCouponSpec(old(db.Snapshot()), code, storeId, now)
  {
    var found := FindCoupon(db.userRewards, code);
    if found.None? {
      return Err(CouponNotFound);
    }
    var i := found.value;
    var ur := db.userRewards[i];
    if ur.status != Active {
      return Err(CouponNotActive);
    }
    if ur.expiresAt.Some? && ur.expiresAt.value < now {
      db.userRewards := db.userRewards[i := ur.(status := Expired)];
      return Err(CouponExpired);
    }
    ur := ur.(status := Used, usedAt := Some(now));
    if TruthyInt(storeId) {
      ur := ur.(usedStoreId := storeId);
    }
    db.userRewards := db.userRewards[i := ur];
    r := Ok(i);
  }

  /**
   * Coupons move only from active to used or from active to expired: exactly one row changes,
   * and only its status, use time and store; codes stay unique.
   */
  lemma UseCouponProperties(t: Tables, code: string, storeId: Option<int>, now: int)
    requires Valid(t)
    ensures var (t1, r) := UseCouponSpec(t, code, storeId, now);
      && Valid(t1)
      && |t1.userRewards| == |t.userRewards|
      && t1.profiles == t.profiles && t1.transactions == t.transactions && t1.rewards == t.rewards
      && t1.users == t.users && t1.receipts == t.receipts && t1.badges == t.badges && t1.userBadges == t.userBadges
      && (r == Err(CouponNotFound) <==> !CouponTaken(t.userRewards, code))
      && (forall k :: 0 <= k < |t.userRewards| ==>
            t1.userRewards[k] == t.userRewards[k]
            || (t.userRewards[k].couponCode == code && t.userRewards[k].status == Active
                && t1.userRewards[k].status in {Used, Expired}
                && t1.userRewards[k].couponCode == code && t1.userRewards[k].expiresAt == t.userRewards[k].expiresAt))
      && (r.Ok? ==> t1.userRewards[r.value].couponCode == code && t1.userRewards[r.value].status == Used
                    && t1.userRewards[r.value].usedAt == Some(now)
                    && (TruthyInt(storeId) ==> t1.userRewards[r.value].usedStoreId == storeId)
                    && (!TruthyInt(storeId) ==> t1.userRewards[r.value].usedStoreId == t.userRewards[r.value].usedStoreId)
                    && t.userRewards[r.value].status == Active
                    && (t.userRewards[r.value].expiresAt.None? || now <= t.userRewards[r.value].expiresAt.value))
      && (r == Err(CouponExpired) ==>
            (exists k :: 0 <= k < |t.userRewards| && t.userRewards[k].couponCode == code && t1.userRewards[k].status == Expired))
      && (r == Err(CouponNotActive) || r == Err(CouponNotFound) ==> t1 == t)
  {
    var found := FindCoupon(t.userRewards, code);
    if found.Some? {
      var i := found.value;
      var ur := t.userRewards[i];
      if ur.status == Active {
        var ur1 := if ur.expiresAt.Some? && ur.expiresAt.value < now then ur.(status := Expired)
          else ur.(status := Used, usedAt := Some(now), usedStoreId := if TruthyInt(storeId) then storeId else ur.usedStoreId);
        assert UseCouponSpec(t, code, storeId, now).0 == t.(userRewards := t.userRewards[i := ur1]);
        assert Valid(t.(userRewards := t.userRewards[i := ur1])) by {
          ReplaceCouponKeepsValid(t, i, ur1);
        }
      }
    }
  }

  /** Rewriting one coupon row without touching its code keeps the schema's constraints. */
  lemma ReplaceCouponKeepsValid(t: Tables, i: nat, ur: UserReward)
    requires Valid(t) && i < |t.userRewards| && ur.couponCode == t.userRewards[i].couponCode
    ensures Valid(t.(userRewards := t.userRewards[i := ur]))
  {
    var rows := t.userRewards[i := ur];
    forall a, b | 0 <= a < b < |rows| ensures rows[a].couponCode != rows[b].couponCode {
      assert rows[a].couponCode == t.userRewards[a].couponCode;
      assert rows[b].couponCode == t.userRewards[b].couponCode;
    }
  }
}
