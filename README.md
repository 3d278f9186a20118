# e-zuka-connect loyalty core in Dafny

This project models the loyalty backend of e-zuka-connect and proves properties of the model. In that backend, customers upload shop receipts, earn contribution points and badges, and exchange points for reward coupons. The main part is the **receipt reward pipeline** of the core API:

* **Duplicate gate.** A receipt with the same supplier and total, dated within 30 minutes, is refused.
* **Point calculation engine.** Base points plus six bonus rules are given in a fixed order: amount tier, consecutive-day streak, first upload, weather, time or weekend, and store. A fixed fallback is used when a rule raises.
* **Badge evaluation engine.** Milestone tables are checked against the user's history: receipt count, 30-day streak, cumulative amount and largest purchase. A badge is awarded only if it is not already held.
* **Ledger and redemption operations.** These are the point updates, badge awards, reward redemption, coupon codes and coupon use.
* **Upload orchestration.** It runs the gate, save, credit and badge steps. A failure after the save leaves the receipt in place.

Beside the pipeline, four smaller cores are modelled:

* the password strength validator;
* the mapping from Japan Meteorological Agency forecasts to WMO weather interpretation codes (WMO Code Table 4677), with the per-date merge of a forecast;
* the amount normaliser and entity folding of the OCR service;
* the advice-line classifier of the AI advisor.

**Modules.** Each module follows one source file:

* `Common`: Option and Result, Python truthiness, the clock arithmetic.
* `Text`: Python's string operations.
* `Models`: the tables and their constraints, and the `Database` class standing in for the SQL session.
* `Crud`, `PointEngine`, `BadgeEngine`, `Receipts`, `PasswordValidator`, `Weather`, `OcrProcessor`, `LlmAdvisor`.

**How state is modelled.**

* Every state-changing operation is a method on a `Database`. It is proved equal to a pure specification over a snapshot of all tables: `(db.Snapshot(), r) == XSpec(old(db.Snapshot()), ...)`.
* The properties are lemmas about those specifications. They are stated for sequential runs, from a state that satisfies the schema constraints (`Models.Valid`) and the ledger invariant (`Crud.LedgerBalanced`). The ledger invariant says that every balance equals the signed sum of that profile's transactions.
* Loops of the source are `while` loops with invariants.

**Inputs that the source takes from its surroundings** are parameters here:

* the clock, as integer minutes since 1970-01-01, with dates as day numbers;
* the random coupon draws, as positions in the alphabet;
* storage failures inside the source's `try` blocks, as a set of `Models.Fault` values;
* the OCR reply, the Document AI entities, the JMA forecast series and the LLM text, as data.

**Where the code differs from what a reader might expect, the model follows the code:**

* A `None` total, or a `None` supplier that reaches the keyword test, makes the whole point calculation fall back to 10 points, not to base 5.
* The streak counts back from the most recent upload date, not from today.
* `update_user_points` does no balance check. The balance guard lives in the callers: the manual-redemption endpoint and `redeem_reward`.
* The thunder branch of the JMA code mapping is dead.
* In the text mapping, "partly cloudy" cannot be produced from text.
* The cap of the strength score never applies.

## Model

| member | source | states |
|---|---|---|
| Common.HourOf | services/core-api/app/gamification/point_engine.py:268 | The hour of an upload time is always between 0 and 23, as `datetime.hour` is. |
| Common.WeekdayOf | services/core-api/app/gamification/point_engine.py:289 | The weekday is always between 0 (Monday) and 6 (Sunday), as `datetime.weekday()` is. |
| Text.ContainsAt | services/core-api/app/routers/weather.py:28 | A block found at some position makes `t in s` true. |
| Text.ContainsWitness | services/core-api/app/routers/weather.py:28 | Conversely, `t in s` yields a position where `t` occurs. |
| Text.ContainsTrans | services/core-api/app/routers/weather.py:33 | Containment is transitive, so a text holding "時々晴" also holds "晴". |
| Text.NotContainsMissingChar | services/core-api/app/routers/weather.py:39 | A text that lacks one character of a keyword does not contain the keyword. |
| Text.Lower | services/core-api/app/security/password_validator.py:76 | Lowercasing keeps the length, and each character is its ASCII lowercase. |
| Text.LowerIdempotent | services/core-api/app/routers/weather.py:25 | Lowercasing twice is the same as lowercasing once. |
| Text.LowerKeepsContains | services/core-api/app/routers/weather.py:25 | A keyword without ASCII capitals is still found after `lower()`, so Japanese keywords are unaffected by it. |
| Text.DigitValue | services/ocr-processor/app/main.py:31 | Every digit that `int()` accepts has a value below 10. |
| Text.AsciiDigit | services/ocr-processor/app/main.py:31 | The ASCII digit for a value below 10 reads back as that value. |
| Text.NatToString | services/core-api/app/routers/weather.py:95 | `str(n)` of a natural number is a non-empty string of ASCII digits. |
| Text.IntToString | services/core-api/app/routers/weather.py:95 | `str(i)` of any integer holds only '-' and ASCII digits. |
| Text.NatToStringRoundTrip | services/ocr-processor/app/main.py:31 | `int(str(n)) == n` for every natural number. |
| Text.KeepDigits | services/ocr-processor/app/main.py:29 | Deleting the non-digits leaves only digits, is never longer than the input, and is empty exactly when the input has no digit. |
| Text.KeepDigitsOfDigits | services/ocr-processor/app/main.py:29 | Deleting non-digits from a string of digits changes nothing. |
| Text.KeepDigitsConcat | services/ocr-processor/app/main.py:29 | Deleting non-digits distributes over concatenation. |
| Text.TrimStart | services/ai-advisor/app/llm_advisor.py:168 | Only leading whitespace is removed, and what remains does not start with whitespace. |
| Text.TrimEnd | services/ai-advisor/app/llm_advisor.py:168 | Only trailing whitespace is removed, and what remains does not end with whitespace. |
| Text.Strip | services/ai-advisor/app/llm_advisor.py:168 | A stripped line has no whitespace at either end. |
| Text.Split | services/ai-advisor/app/llm_advisor.py:162 | `split` always yields at least one piece. |
| Text.SplitJoin | services/ai-advisor/app/llm_advisor.py:162 | Joining the pieces of `split` with the separator gives the text back, and no piece holds the separator. |
| Models.EmptyTables | services/core-api/app/models.py:101-152 | The empty database satisfies every constraint `Valid` holds. These are: each profile belongs to an existing user; profile ids are distinct and below the next id; held badges point to an existing badge and an issued profile id; transactions point to an issued profile id; badge names, held-badge pairs and coupon codes are unique. |
| Models.Database.constructor | services/core-api/app/models.py:101-152 | A new store holds empty tables. |
| Crud.FindUserByEmail | services/core-api/app/crud.py:9-10 | The user found has the email, and none is found only when no user has it. |
| Crud.CreateUser | services/core-api/app/crud.py:15-36 | The new tables and result are those of the `create_user` specification. |
| Crud.CreateUserProperties | services/core-api/app/crud.py:15-36 | Creation succeeds iff the email is free. The user becomes the last row, and a default profile is created iff the user is not an owner. A refusal writes nothing, and the schema stays valid. |
| Crud.CreateReceipt | services/core-api/app/crud.py:39-53 | The new tables and result are those of the `create_receipt` specification. |
| Crud.CreateReceiptProperties | services/core-api/app/crud.py:39-53 | The receipt of an existing user is appended with server-clock dates, and its id is its position. A missing user writes nothing. No other table changes, and the schema and ledger invariants are kept. |
| Crud.CreateGamificationProfile | services/core-api/app/crud.py:63-68 | The new tables and result are those of the `create_gamification_profile` specification. |
| Crud.CreateProfileProperties | services/core-api/app/crud.py:63-68 | A profile is created iff the user exists and has none. It starts at 0 points, 0 earned and level 1, and a second creation for the same user is refused. A refusal writes nothing. |
| Crud.EnsureProfileSpecValid | services/core-api/app/crud.py:74-76 | Lazy profile creation succeeds iff the user exists and changes no other table or profile. |
| Crud.EnsureProfileKeepsLedger | services/core-api/app/crud.py:74-76 | Lazy profile creation keeps the ledger balanced, because the new profile id has no transactions. |
| Crud.UpdateUserPoints | services/core-api/app/crud.py:70-98 | The new tables and result are those of the `update_user_points` specification. |
| Crud.UpdatePointsEffect | services/core-api/app/crud.py:74-92 | "earn" adds p to the balance and to the total earned. "redeem" subtracts p from the balance only, with no balance check. Any other type changes neither counter. A signed row is appended, and nothing else changes. |
| Crud.UpdatePointsKeepsLedger | services/core-api/app/crud.py:78-92 | "earn" and "redeem" keep every balance equal to the signed sum of that profile's transactions. |
| Crud.LedgerRowKeepsBalanced | services/core-api/app/crud.py:79-92 | Moving a balance by a row's points while appending that row keeps every balance equal to its ledger sum. |
| Crud.UpdatePointsKeepsValid | services/core-api/app/crud.py:70-98 | Any point update keeps the schema valid and writes only profiles and the ledger. |
| Crud.LedgerSumNoRows | services/core-api/app/crud.py:86-92 | A profile without transactions sums to 0. |
| Crud.LedgerSumAppend | services/core-api/app/crud.py:86-92 | Appending a transaction adds its signed points to its own profile's sum only. |
| Crud.LedgerRowKeepsValid | services/core-api/app/crud.py:79-92 | Rewriting a profile's counters and appending one of its rows keeps the schema valid. |
| Crud.OtherTypeBreaksLedger | services/core-api/app/crud.py:78-92 | A type other than "earn" or "redeem" records -p without touching the balance, so a non-zero amount unbalances the ledger. |
| Crud.ManualRedeemPoints | services/core-api/app/routers/gamification.py:66-80 | The new tables and result are those of the manual-redemption specification. |
| Crud.ManualRedeemProperties | services/core-api/app/routers/gamification.py:66-71 | The endpoint succeeds iff the profile exists and holds at least the amount. Its debit never makes a non-negative balance negative, and a refusal writes nothing. The ledger stays balanced. |
| Crud.FindAward | services/core-api/app/crud.py:116-119 | The row found is the first one for the (profile, badge) pair, and none is found only when no row has the pair. |
| Crud.FindAwardFirst | services/core-api/app/crud.py:116-119 | The first matching row is the one found. |
| Crud.AwardBadge | services/core-api/app/crud.py:107-132 | The new tables and result are those of the `award_badge` specification. |
| Crud.AwardBadgeProperties | services/core-api/app/crud.py:107-132 | Awarding keeps at most one row per pair. The badge is held afterwards, and rows are only added, at most one. A repeated award changes nothing, and transactions, catalog and receipts are untouched. |
| Crud.AwardWithProfile | services/core-api/app/crud.py:116-132 | For a user who has a profile, the award succeeds iff the badge exists or is already held. On success the badge is held and its row is the one returned. Either nothing changes or exactly that row is appended, and a second award changes nothing. |
| Crud.HeldIff | services/core-api/app/gamification/badge_engine.py:62-66 | The held-badge set of a profile contains a badge exactly when the `existing` query of `award_badge` finds it. |
| Crud.CreateReward | services/core-api/app/crud.py:245-254 | The new tables and id are those of the `create_reward` specification. |
| Crud.CreateRewardProperties | services/core-api/app/crud.py:245-254 | A new reward is appended with its available stock equal to its stock quantity, and other rewards, coupons and profiles are untouched. |
| Crud.RandomPart | services/core-api/app/crud.py:262 | Each drawn character is the alphabet character at the drawn position. |
| Crud.AlphabetDistinct | services/core-api/app/crud.py:262 | The 36 characters of `ascii_uppercase + digits` are distinct. |
| Crud.CouponCodeShape | services/core-api/app/crud.py:256-267 | A coupon code has 13 characters: "EZ-GEN-" and six alphabet characters. Distinct draws give distinct codes. |
| Crud.RedeemReward | services/core-api/app/crud.py:269-320 | The new tables and result are those of the `redeem_reward` specification. |
| Crud.RedeemRewardErrors | services/core-api/app/crud.py:274-285 | A refusal writes nothing. A missing or inactive reward, finite stock with no units left, and a low or missing balance are refused in that order. A success had the balance and an unused code. The refusal of a code already issued stands for the unique-constraint failure of the commit. |
| Crud.RedeemRewardSuccess | services/core-api/app/crud.py:288-315 | A success issues one active coupon: the required points are its cost, and it expires `valid_days` later. The balance drops by the required points, and the total earned is unchanged. One unit of stock is consumed iff stock is finite, and other rewards are untouched. Exactly one ledger row is appended: a redeem row of minus the required points for the user's profile, described "特典交換: " plus the title, with the reward id and coupon code. Users, receipts, badges, held badges and every other profile are unchanged. |
| Crud.RedeemRewardBalanceNonNegative | services/core-api/app/crud.py:284-311 | After a successful redemption the balance is never negative. |
| Crud.RedeemRewardKeepsInvariants | services/core-api/app/crud.py:269-320 | A redemption keeps coupon codes unique, the schema valid and the ledger balanced. |
| Crud.FindCoupon | services/core-api/app/crud.py:328-332 | The coupon found carries the code, and none is found only when no coupon carries it. |
| Crud.UseCoupon | services/core-api/app/crud.py:334-358 | The new tables and result are those of the `use_coupon` specification. |
| Crud.UseCouponProperties | services/core-api/app/crud.py:334-358 | An unknown code and an inactive coupon are refused without change. Only the coupon with the code can change, and only from active to used or expired. A used coupon records the time, and the store only when one is given. Use requires an active coupon that is not past expiry, and codes stay unique. Only the coupon table changes. |
| PointEngine.AmountBonusFor | services/core-api/app/gamification/point_engine.py:105-142 | An amount bonus entry carries the receipt total and positive points. |
| PointEngine.AmountTiers | services/core-api/app/gamification/point_engine.py:105-142 | The tiers are exclusive: 50, 20, 10 or 5 points from 3000, 1000, 500 or 100 yen. None is given below 100, and a larger total never earns less. |
| PointEngine.RecentReceiptsMembers | services/core-api/app/gamification/point_engine.py:148-152 | Exactly the user's receipts created in the trailing 30 days are kept. |
| PointEngine.NonEmptyHasElement | services/core-api/app/gamification/point_engine.py:197 | A non-empty set of dates has an element. |
| PointEngine.Largest | services/core-api/app/gamification/point_engine.py:197 | The largest date is in the set and bounds every date. |
| PointEngine.MaxOf | services/core-api/app/gamification/point_engine.py:197 | `max` of the dates is a date of the set and bounds every date. |
| PointEngine.SortDesc | services/core-api/app/gamification/point_engine.py:194-197 | The sorted dates are the set's dates, each once, in strictly decreasing order. |
| PointEngine.SortDescHead | services/core-api/app/gamification/point_engine.py:197-200 | The first sorted date is the most recent one. |
| PointEngine.RunExactly | services/core-api/app/gamification/point_engine.py:199-207 | A block of n present dates ending at d, with the date before it absent, is a run of exactly n. |
| PointEngine.RunShape | services/core-api/app/gamification/point_engine.py:199-207 | The run counted from d has every date present and stops at the first absent date, and it is no longer than the set. |
| PointEngine.StreakProperties | services/core-api/app/gamification/point_engine.py:188-209 | The streak is 0 iff there are no dates, and otherwise between 1 and the number of distinct dates. It counts back from the most recent date, not from today, and stops at the first gap. |
| PointEngine.GapAfterWalk | services/core-api/app/gamification/point_engine.py:202-207 | When the walk stops, the date just below the run is absent. |
| PointEngine.SortedWalkIsStreak | services/core-api/app/gamification/point_engine.py:199-207 | Walking the sorted dates until the first gap counts exactly the streak. |
| PointEngine.CountConsecutiveDays | services/core-api/app/gamification/point_engine.py:188-209 | The loop returns the streak of the receipts' distinct creation dates, so same-day uploads count once. |
| PointEngine.ConsecutiveBonusFor | services/core-api/app/gamification/point_engine.py:160-182 | A streak bonus entry carries the streak length and positive points. |
| PointEngine.CalculateConsecutiveBonus | services/core-api/app/gamification/point_engine.py:144-186 | The method returns the streak bonus over the user's recent receipts. A failed query gives nothing. |
| PointEngine.FirstTimeBonusSpec | services/core-api/app/gamification/point_engine.py:211-231 | The first-upload bonus is 50 points, and it is given iff the count query works and the user has exactly one stored receipt. |
| PointEngine.WeatherBonusFor | services/core-api/app/gamification/point_engine.py:233-259 | A weather bonus entry has positive points. |
| PointEngine.WeatherBonusRules | services/core-api/app/gamification/point_engine.py:233-259 | A missing or zero code earns 0, snow codes 25, rain codes (51-67, 80-82) 15, and others 0. No code is both snow and rain. |
| PointEngine.TimeBonusFor | services/core-api/app/gamification/point_engine.py:261-297 | A time bonus entry is a time or weekend entry with positive points. |
| PointEngine.TimeBonusRules | services/core-api/app/gamification/point_engine.py:261-297 | Hours 6-8 earn 10, otherwise hours 18-20 earn 5, otherwise Saturday and Sunday earn 5. Only one of these is given, and a weekend entry means neither time window applied. No upload time earns nothing. |
| PointEngine.StoreBonusFor | services/core-api/app/gamification/point_engine.py:299-333 | A store bonus entry has positive points. |
| PointEngine.SumAppend | services/core-api/app/gamification/point_engine.py:48-50 | Appending an entry adds its points to the sum of the breakdown. |
| PointEngine.AddIfEarned | services/core-api/app/gamification/point_engine.py:48-50 | An earned bonus is appended, and the running total stays the sum of the listed points. |
| PointEngine.CalculatePoints | services/core-api/app/gamification/point_engine.py:24-95 | The step-by-step accumulation equals the `calculate_points` specification. |
| PointEngine.EarnedBonuses | services/core-api/app/gamification/point_engine.py:47-71 | The amount, streak, first-upload, weather and time rules are appended in that order, each only when it earns points, and the running total is the sum of what was appended. |
| PointEngine.Extend | services/core-api/app/gamification/point_engine.py:43-76 | Appending a bonus of the next rank keeps the breakdown in order. |
| PointEngine.SumOfPositive | services/core-api/app/gamification/point_engine.py:43-76 | A breakdown of positive entries has a non-negative sum. |
| PointEngine.BreakdownOrdered | services/core-api/app/gamification/point_engine.py:43-76 | The breakdown lists amount, consecutive, first-time, weather, time and store bonuses in that order, each at most once and each positive. |
| PointEngine.PointsShape | services/core-api/app/gamification/point_engine.py:41-95 | The total is base plus bonus, and the bonus is the sum of the listed entries. The result is the fallback, or the receipt's base points with an ordered breakdown of positive entries. The total is at least 5. |
| PointEngine.FallbackCases | services/core-api/app/gamification/point_engine.py:87-95 | A `None` total, or a `None` supplier that reaches the keyword test, yields the fallback: 10 points and one error entry. With both fields present the base points are the receipt's own. |
| PointEngine.FirstTimeIffSingleReceipt | services/core-api/app/gamification/point_engine.py:57-60 | Outside the fallback, the first-upload bonus is listed iff the user's stored receipt count is exactly 1. |
| PointEngine.BreakdownMembers | services/core-api/app/gamification/point_engine.py:43-76 | The breakdown holds exactly the bonuses that apply. |
| PointEngine.NoContextNoWeatherOrTime | services/core-api/app/gamification/point_engine.py:62-71 | Without an upload context no weather or time bonus is listed. |
| PointEngine.FindDuplicate | services/core-api/app/gamification/point_engine.py:353-363 | The receipt found matches user, supplier, total and a receipt date within 30 minutes either side, and none is found only when no receipt matches. |
| PointEngine.IsDuplicateReceipt | services/core-api/app/gamification/point_engine.py:335-369 | A receipt is a duplicate iff supplier and total are truthy, a date is given, the lookup works, and a matching receipt exists. |
| PointEngine.DuplicateWindowEnds | services/core-api/app/gamification/point_engine.py:353-362 | The window is inclusive: 30 minutes away matches, 31 minutes away does not. |
| PointEngine.FirstSnowyMorningReceipt | services/core-api/app/gamification/point_engine.py:24-95 | A first receipt of 3200 yen uploaded at 07:00 on a weekday under snow earns base 10 plus 135 bonus (amount, first-upload, snow, morning), so 145 points. |
| PointEngine.SumOfFour | services/core-api/app/gamification/point_engine.py:43-76 | A four-entry breakdown sums its entries. |
| BadgeEngine.GrowsTrans | services/core-api/app/gamification/badge_engine.py:23-53 | The engine's "only adds rows" relation is transitive. |
| BadgeEngine.HeldMonotone | services/core-api/app/crud.py:116-132 | A badge once held stays held while the engine runs. |
| BadgeEngine.HoldsMonotone | services/core-api/app/crud.py:116-132 | A badge held by name stays held by name. |
| BadgeEngine.FindBadgeByName | services/core-api/app/gamification/badge_engine.py:236-238 | The badge found is the first with the name, and none is found only when no badge has it. |
| BadgeEngine.FindBadgeUnique | services/core-api/app/models.py:121 | With unique names, the badge found by name is the only one with it. |
| BadgeEngine.EnsureBadgeExists | services/core-api/app/gamification/badge_engine.py:232-262 | The new tables and id are those of the `_ensure_badge_exists` specification. |
| BadgeEngine.EnsureBadgeProperties | services/core-api/app/gamification/badge_engine.py:232-262 | Afterwards a badge of the name exists. An existing one is reused without change; otherwise one active badge with criteria `{type, ">=", value}` is appended. Names stay unique. |
| BadgeEngine.AwardBadgeToUser | services/core-api/app/gamification/badge_engine.py:275-292 | The new tables and result are those of the `_award_badge_to_user` specification. |
| BadgeEngine.AwardToUserProperties | services/core-api/app/gamification/badge_engine.py:275-292 | A reported award is marked new and the badge is then held. An existing user always gets a catalog badge. An already-held badge is reported again without change. Rows are only added. |
| BadgeEngine.EvaluateMilestones | services/core-api/app/gamification/badge_engine.py:91-102 | The loop over a milestone table equals the table-evaluation specification. |
| BadgeEngine.SoundAwardsGrow | services/core-api/app/gamification/badge_engine.py:91-102 | Sound awards stay sound while rows are only added. |
| BadgeEngine.SoundAwardsPrefix | services/core-api/app/gamification/badge_engine.py:91-102 | Awards sound for a prefix of a table are sound for the table. |
| BadgeEngine.EvalStepSound | services/core-api/app/gamification/badge_engine.py:92-102 | One iteration keeps the schema valid, only adds rows, and keeps every award sound. |
| BadgeEngine.EvalMilestonesSound | services/core-api/app/gamification/badge_engine.py:91-102 | Each award of a table evaluation is new, for a badge outside the held set, reached by the measure, and held afterwards. |
| BadgeEngine.EvalStepComplete | services/core-api/app/gamification/badge_engine.py:92-102 | For an existing user, one iteration on a reached milestone leaves its badge held. |
| BadgeEngine.EvalMilestonesComplete | services/core-api/app/gamification/badge_engine.py:91-102 | For an existing user, every milestone the measure reaches has its badge held after the loop, not only the highest one. |
| BadgeEngine.EvalMilestonesQuiet | services/core-api/app/gamification/badge_engine.py:99 | With a truthful held set and every reached badge held, a loop awards nothing and writes nothing. |
| BadgeEngine.MaxOrZero | services/core-api/app/gamification/badge_engine.py:183 | `max(xs or [0])` is 0 for no receipts, and otherwise is an element that bounds them all. |
| BadgeEngine.GetUserBadgeIds | services/core-api/app/gamification/badge_engine.py:55-70 | The method returns the profile's held badge ids, or none without a profile or when the query fails. |
| BadgeEngine.EvaluateAndAwardBadges | services/core-api/app/gamification/badge_engine.py:23-53 | The method equals the evaluation specification: the held set is read once, then the activity, streak and amount categories run in order. |
| BadgeEngine.SoundToEvaluation | services/core-api/app/gamification/badge_engine.py:23-49 | A category's sound awards are sound for the whole evaluation. |
| BadgeEngine.ActivitySound | services/core-api/app/gamification/badge_engine.py:72-108 | The receipt-count category keeps the schema, only adds rows, and awards only reached, unheld badges. |
| BadgeEngine.StreakSound | services/core-api/app/gamification/badge_engine.py:110-148 | The 30-day streak category keeps the schema, only adds rows, and awards only reached, unheld badges. |
| BadgeEngine.AmountSound | services/core-api/app/gamification/badge_engine.py:150-207 | The cumulative and single-purchase tables, sharing one failure, award only badges their measure reaches. |
| BadgeEngine.AllReachedHeldGrows | services/core-api/app/gamification/badge_engine.py:23-49 | "Every reached badge is held" survives further row additions. |
| BadgeEngine.EvaluateSound | services/core-api/app/gamification/badge_engine.py:23-49 | The evaluation keeps the schema and only adds catalog badges, held rows and possibly the profile. Every award it reports is new, outside the held set read at the start, reached by the receipts, and held afterwards. |
| BadgeEngine.EvaluateComplete | services/core-api/app/gamification/badge_engine.py:33-49 | For an existing user with every query working, every badge the receipts reach is held afterwards. |
| BadgeEngine.EvaluateIdempotent | services/core-api/app/gamification/badge_engine.py:37 | Evaluating again without new receipts awards nothing and changes nothing. |
| BadgeEngine.CreateInitialBadges | services/core-api/app/gamification/badge_engine.py:294-345 | The new tables and flag are those of the `create_initial_badges` specification. |
| BadgeEngine.AddMissingBadges | services/core-api/app/gamification/badge_engine.py:328-335 | The loop appends, in order, each initial badge whose name the catalog does not yet hold, and changes no other table. |
| BadgeEngine.AddMissingProperties | services/core-api/app/gamification/badge_engine.py:329-336 | Adding missing badges keeps names unique and the old catalog as a prefix, adds at most one badge per entry, and leaves every entry's name present. |
| BadgeEngine.AddMissingAllPresent | services/core-api/app/gamification/badge_engine.py:329-336 | When every name is present nothing is added. |
| BadgeEngine.CreateInitialBadgesProperties | services/core-api/app/gamification/badge_engine.py:294-340 | The run succeeds and keeps the schema and every existing badge. It adds at most four badges, after which each initial name is present, and a second run changes nothing. |
| Receipts.UploadReceipt | services/core-api/app/routers/receipts.py:33-145 | The method equals the upload specification: look up the user, gate, save, credit, evaluate badges, respond. |
| Receipts.ReceiptCountAppend | services/core-api/app/routers/receipts.py:82 | Saving a receipt raises its owner's receipt count by one and nobody else's. |
| Receipts.UploadErrors | services/core-api/app/routers/receipts.py:33-71 | An unknown email gives 404, and a duplicate gives 400; each is decided before any write. A found user's save never fails. |
| Receipts.DuplicateGateAtUploadTime | services/core-api/app/routers/receipts.py:59-71 | The gate fires iff the user has a receipt with the same truthy supplier and non-zero total, dated within 30 minutes of now. |
| Receipts.CreditEffect | services/core-api/app/routers/receipts.py:98-111 | A positive total is credited as one "earn" transaction, with the receipt id and breakdown. It raises both counters by the total, and a failed write adds no transaction. |
| Receipts.UploadSavesReceipt | services/core-api/app/routers/receipts.py:73-82 | A successful upload saves the receipt as the newest row, dated now, with no store. |
| Receipts.UploadOutcome | services/core-api/app/routers/receipts.py:84-145 | After the save, the engine's points for the saved state are credited. Then badges are evaluated and returned with the points, or a failed credit gives the zero response. |
| Receipts.UploadContextPoints | services/core-api/app/routers/receipts.py:84-95 | The upload's points total base plus bonus, at least 5. There is never a weather bonus, and any store bonus is the 15-point keyword bonus for the OCR supplier. |
| Receipts.BreakdownWithoutWeather | services/core-api/app/routers/receipts.py:86-89 | Without a weather entry the breakdown has no weather bonus, and its only store bonus is the store entry. |
| Receipts.KeywordOnlyStoreBonus | services/core-api/app/routers/receipts.py:61-65 | Without a store id only the supplier-name keyword bonus can apply. |
| Receipts.UploadPoints | services/core-api/app/routers/receipts.py:117-131 | A credited response reports the engine's points with the guarantees above. |
| Receipts.UploadFirstTime | services/core-api/app/routers/receipts.py:82-95 | The first-upload bonus is listed iff the user had no receipt before this one, because the count includes the new receipt. |
| Receipts.UploadCredits | services/core-api/app/routers/receipts.py:98-111 | A credited upload appends exactly one "earn" row of the points earned, with the receipt id and breakdown, and raises the balance and total earned by that amount. |
| Receipts.UploadDegraded | services/core-api/app/routers/receipts.py:133-145 | A failed ledger write returns the saved receipt with 0 points, no breakdown and no badges, and adds no transaction or badge. |
| Receipts.UploadBadgesSound | services/core-api/app/routers/receipts.py:113-131 | Every badge in the response is new, reached by the receipts including the one just saved, and held afterwards. |
| Receipts.CreditKeepsBadgeInputs | services/core-api/app/routers/receipts.py:98-111 | The credit writes only profiles and the ledger. |
| Receipts.EarnedByReceipts | services/core-api/app/routers/receipts.py:113-115 | Which milestones are earned depends only on the receipts. |
| Receipts.GrowsKeepsLedger | services/core-api/app/routers/receipts.py:113-115 | The badge stage keeps the ledger balanced. |
| Receipts.UploadKeepsInvariants | services/core-api/app/routers/receipts.py:59-145 | Every upload keeps the schema valid and every balance equal to its signed transaction sum. |
| PasswordValidator.HasSequentialChars | services/core-api/app/security/password_validator.py:78-99 | The scan finds a run iff some four characters ascend by one code point after lowercasing, or four digits ascend by one in value. |
| PasswordValidator.HasRepeatedChars | services/core-api/app/security/password_validator.py:101-108 | The scan finds a repeat iff three identical characters occur in a row. |
| PasswordValidator.FailedAmongMembers | services/core-api/app/security/password_validator.py:26-61 | Filtering keeps exactly the listed rules that fail. |
| PasswordValidator.FailedAmongOrdered | services/core-api/app/security/password_validator.py:26-61 | Filtering keeps the rules in check order. |
| PasswordValidator.FailedAmongSnoc | services/core-api/app/security/password_validator.py:26-61 | Checking one more rule appends it if it fails. |
| PasswordValidator.Messages | services/core-api/app/security/password_validator.py:26-61 | There is one message per failed rule, that rule's own. |
| PasswordValidator.MessagesDistinct | services/core-api/app/security/password_validator.py:28-61 | No two rules share a message. |
| PasswordValidator.FailedRulesMembers | services/core-api/app/security/password_validator.py:26-61 | The failed rules are exactly the rules that fail, each once, in check order. |
| PasswordValidator.ValidateProperties | services/core-api/app/security/password_validator.py:19-63 | A password is valid iff there are no errors, iff it has 8-128 characters, every character class, no blacklist match, no run and no repeat. The errors are the failed rules' messages in order. |
| PasswordValidator.NoFailureIffAllPass | services/core-api/app/security/password_validator.py:26-63 | No rule fails iff every requirement is met. |
| PasswordValidator.ValidateOrRaise | services/core-api/app/security/password_validator.py:110-122 | A 400 carrying the error list is raised iff the password is invalid, and the list is then non-empty. |
| PasswordValidator.CheckRule | services/core-api/app/security/password_validator.py:26-61 | Checking one more rule appends its message when it fails. |
| PasswordValidator.RulesInOrder | services/core-api/app/security/password_validator.py:26-61 | The messages come check by check in the order the rules are written. |
| PasswordValidator.ChecksInOrder | services/core-api/app/security/password_validator.py:26-61 | The same, with each verdict read from its own check. |
| PasswordValidator.RunChecks | services/core-api/app/security/password_validator.py:29-61 | The nine checks give the verdicts of the rules. |
| PasswordValidator.Report | services/core-api/app/security/password_validator.py:30 | `errors.append` adds the message exactly when the check failed. |
| PasswordValidator.ValidatePasswordChecks | services/core-api/app/security/password_validator.py:19-63 | The method returns what `validate_password` specifies: validity and the messages of the failed checks in order. |
| PasswordValidator.ReportFailures | services/core-api/app/security/password_validator.py:27-61 | The nine appends produce the messages of exactly the failed rules, in rule order. |
| PasswordValidator.StrengthScore | services/core-api/app/security/password_validator.py:124-156 | The score is between 0 and 100 and never above the sum of its components. |
| PasswordValidator.AddPoints | services/core-api/app/security/password_validator.py:131-154 | `score += n` adds n exactly when the component holds. |
| PasswordValidator.GetStrengthScore | services/core-api/app/security/password_validator.py:124-156 | The method adds the components one by one and returns the capped score. |
| PasswordValidator.AddLengthPoints | services/core-api/app/security/password_validator.py:130-136 | The length checks add 20 from 8 characters, 10 more from 12 and 10 more from 16. |
| PasswordValidator.AddClassPoints | services/core-api/app/security/password_validator.py:138-146 | The character-class checks add 10 for each of lowercase, uppercase, digit and special character present. |
| PasswordValidator.AddComplexityPoints | services/core-api/app/security/password_validator.py:148-154 | The complexity checks add 10 off the blacklist, 5 without an ascending run and 5 without a triple. |
| PasswordValidator.CapNeverApplies | services/core-api/app/security/password_validator.py:156 | The components add up to at most 100, so the cap never changes the score. |
| PasswordValidator.ValidScore | services/core-api/app/security/password_validator.py:128-154 | A valid password scores 80, or 90 from 12 characters, or 100 from 16. |
| PasswordValidator.ShortScore | services/core-api/app/security/password_validator.py:131-136 | A password shorter than 8 characters scores at most 70. |
| PasswordValidator.UppercaseBlacklisted | services/core-api/app/security/password_validator.py:65-76 | "PASSWORD" is blacklisted, because the comparison uses the lowercased password. |
| PasswordValidator.RunExamples | services/core-api/app/security/password_validator.py:78-99 | "xabcd" has an ascending run, and the descending "dcba" and the broken "abce" do not. |
| PasswordValidator.MixedDigitRun | services/core-api/app/security/password_validator.py:92-97 | Mixed ASCII and full-width digits "1２3４" have no code-point run, but the digit scan flags them. |
| Weather.MapWeatherText | services/core-api/app/routers/weather.py:21-66 | The text mapping returns one of the WMO codes 0, 1, 2, 3, 45, 61, 63, 65, 68, 71, 75, 95. |
| Weather.SunnyTextFirst | services/core-api/app/routers/weather.py:28-29 | Any text holding "晴" maps to clear sky (0). |
| Weather.TextNeverPartlyCloudy | services/core-api/app/routers/weather.py:32-34 | Partly cloudy (2) is unreachable from text, since both of its phrases hold "晴". |
| Weather.Lacks | services/core-api/app/routers/weather.py:39 | A text lacking a keyword's first character does not contain it. |
| Weather.RainBeforeSnow | services/core-api/app/routers/weather.py:39-45 | Rain is tested before snow, so "雨か雪" is light rain (61). |
| Weather.RainTiers | services/core-api/app/routers/weather.py:39-45 | A lowercased text with rain but no sun or cloud gives one of the rain codes. It is heavy rain (65) iff "大雨" or "激しい雨" is named; otherwise moderate rain (63) iff "強い雨" is named; otherwise light rain (61). |
| Weather.SnowTiers | services/core-api/app/routers/weather.py:48-54 | A lowercased text with snow but no sun, cloud or rain gives one of the snow codes. It is heavy snow (75) iff "大雪" is named; otherwise sleet (68) iff "みぞれ" is named; otherwise snow (71). |
| Weather.SnowAndSleet | services/core-api/app/routers/weather.py:48-52 | "雪かみぞれ" is sleet (68). |
| Weather.SleetAloneIsOvercast | services/core-api/app/routers/weather.py:48-66 | "みぞれ" without "雪" is overcast (3). |
| Weather.CloudyThenSunny | services/core-api/app/routers/weather.py:28-34 | "曇時々晴" is clear sky, not partly cloudy. |
| Weather.ParseInt | services/core-api/app/routers/weather.py:72-75 | `int()` accepts only text with something left after stripping. |
| Weather.StripSigned | services/core-api/app/routers/weather.py:72-73 | A signed decimal is its own strip. |
| Weather.ParseIntRoundTrip | services/core-api/app/routers/weather.py:72-75 | `int(str(n)) == n` for every integer. |
| Weather.NoThunderInDigits | services/core-api/app/routers/weather.py:95 | The decimal form of a number never holds "雷". |
| Weather.JmaCodeTable | services/core-api/app/routers/weather.py:68-98 | 100/101 map to 0, 110/111 to 1, 200/201 to 2, 210/211 to 3, 300/301 to 61, 311/313 to 63, the rest of 300-350 to 65, and 400-450 to 71. Every other code maps to 3. |
| Weather.JmaCodeNeverThunder | services/core-api/app/routers/weather.py:95-96 | No JMA code maps to thunderstorm (95): the branch at line 95 is dead. |
| Weather.ParsedNeverThunder | services/core-api/app/routers/weather.py:78-98 | No parsed integer code reaches thunderstorm (95), because the decimal digits never hold "雷". |
| Weather.JmaCodeFallbacks | services/core-api/app/routers/weather.py:72-75 | A missing, empty or non-numeric code is overcast (3). |
| Weather.NonNumericCode | services/core-api/app/routers/weather.py:72-75 | Any stripped code whose first character is neither a sign nor a digit fails to parse and is overcast (3). |
| Weather.SeriesItems | services/core-api/app/routers/weather.py:173-186 | Each time define is paired with the code and text at its index, when present. |
| Weather.IndexWeatherByDate | services/core-api/app/routers/weather.py:171-188 | The nested loops build the first-entry-wins index of the series. |
| Weather.FirstWinsProperty | services/core-api/app/routers/weather.py:177-186 | A date is indexed iff some entry carries it, and it keeps its first entry. |
| Weather.FetchAndStoreWeatherCodes | services/core-api/app/routers/weather.py:141-231 | The method returns the merge specification: 404 without a Fukuoka weather area, otherwise a code per date. |
| Weather.MergeProperties | services/core-api/app/routers/weather.py:219-231 | Every date of either series gets a code. The first weather entry decides it, code preferred over text, and a date only the temperatures carry is overcast (3). |
| OcrProcessor.CleanAndConvertAmount | services/ocr-processor/app/main.py:23-34 | No amount comes out exactly when the text has no digit, so an empty text gives none. |
| OcrProcessor.CleanDecimal | services/ocr-processor/app/main.py:29-31 | A plain decimal number reads back as itself. |
| OcrProcessor.CleanIgnoresNonDigit | services/ocr-processor/app/main.py:29 | A non-digit anywhere in the text does not change the amount. |
| OcrProcessor.CleanYen | services/ocr-processor/app/main.py:29-31 | "¥1,234" is 1234. |
| OcrProcessor.ExtractFields | services/ocr-processor/app/main.py:85-102 | The entity loop equals the fold of the entities. |
| OcrProcessor.ApplyEntityFields | services/ocr-processor/app/main.py:86-92 | An entity changes only the field its type names, to its cleaned amount or its text. |
| OcrProcessor.LastEntityWins | services/ocr-processor/app/main.py:85-92 | The last entity of each type decides the total, the supplier name and the phone. |
| OcrProcessor.AbsentEntityKind | services/ocr-processor/app/main.py:80-82 | Without an entity of a type the field stays empty. |
| OcrProcessor.LastPropertyWins | services/ocr-processor/app/main.py:95-99 | Within a line item the last description and the last amount decide. |
| OcrProcessor.AbsentPropertyKind | services/ocr-processor/app/main.py:94-99 | A line item without a description or amount property leaves that key out. |
| OcrProcessor.LineItemsKept | services/ocr-processor/app/main.py:93-101 | Every item has a description or an amount, and there are no more items than entities. |
| OcrProcessor.OneMoreEntity | services/ocr-processor/app/main.py:93-101 | One more entity adds an item exactly when it is a line item with a description or amount property. |
| OcrProcessor.ItemNamed | services/ocr-processor/app/main.py:94-101 | A line item dictionary is non-empty exactly when some property is a description or an amount. |
| OcrProcessor.LastIndexOf | services/ocr-processor/app/main.py:95-99 | A property of a type has a last one of that type at or after it. |
| OcrProcessor.ProcessReceiptEntities | services/ocr-processor/app/main.py:80-114 | The method returns the processing specification. |
| OcrProcessor.ProcessOutcome | services/ocr-processor/app/main.py:103-114 | The request fails, always with 500, exactly when the total is falsy (0 counts), the supplier is missing and there are no items. Otherwise it returns the fields. |
| OcrProcessor.ProcessExamples | services/ocr-processor/app/main.py:103-111 | No entities fail, and one non-empty supplier is enough. |
| LlmAdvisor.BucketLines | services/ai-advisor/app/llm_advisor.py:167-182 | The loop fills each bucket with exactly the lines that specification sends there. |
| LlmAdvisor.BucketLine | services/ai-advisor/app/llm_advisor.py:167-181 | One pass adds a stripped line to exactly the bucket it lands in: none for blank lines, headings and non-list lines, otherwise the bucket its first matching keyword group names. |
| LlmAdvisor.ClassifyPrecedence | services/ai-advisor/app/llm_advisor.py:174-182 | Product keywords win, then customer, then weather keywords, and otherwise the line is a product promotion, in both directions. |
| LlmAdvisor.PickedClassified | services/ai-advisor/app/llm_advisor.py:167-182 | Every bucket line is a classified advice line of that bucket. |
| LlmAdvisor.PickedFromInput | services/ai-advisor/app/llm_advisor.py:167-175 | Every bucket line is a stripped input line, and no bucket is longer than the input. |
| LlmAdvisor.CustomerBucketKeywords | services/ai-advisor/app/llm_advisor.py:176-177 | Customer lines lack product keywords and name a customer keyword. |
| LlmAdvisor.WeatherBucketKeywords | services/ai-advisor/app/llm_advisor.py:178-179 | Weather lines name a weather keyword and no product or customer keyword. |
| LlmAdvisor.PickedPartition | services/ai-advisor/app/llm_advisor.py:172-182 | Each advice line lands in exactly one bucket. |
| LlmAdvisor.ParseAdviceResponse | services/ai-advisor/app/llm_advisor.py:147-208 | The method returns the parsing specification. |
| LlmAdvisor.ParseAdviceProperties | services/ai-advisor/app/llm_advisor.py:158-193 | The summary and generated advice are the whole text. Without advice lines the text is the one product promotion. An empty weather strategy falls back to the recommendation, or "". |
| LlmAdvisor.ExampleAdviceLine | services/ai-advisor/app/llm_advisor.py:172-175 | A bullet naming a product is a product promotion even when it names rain. |
| LlmAdvisor.ExampleHeading | services/ai-advisor/app/llm_advisor.py:169-170 | A "【" heading is never classified. |
| LlmAdvisor.TrendToJapanese | services/ai-advisor/app/llm_advisor.py:210-219 | The label is "不明" exactly for keys other than the four known trends. |
| LlmAdvisor.TrendLabelsDistinct | services/ai-advisor/app/llm_advisor.py:213-218 | Distinct known trends have distinct labels. |

## Left out

- Models.Valid does not hold three foreign keys of the schema: receipt to user (models.py line 31), and coupon to user and to reward (models.py lines 281-282). The upload takes its user from the authenticated session, and redemption checks both ids before it writes, so the model never breaks them. They are not proved as invariants, however.
- Crud.RedeemRewardSpec: a freshly drawn code that is already issued is refused with `CouponCodeTaken`. In the source the collision breaks the unique constraint of `coupon_code` (models.py line 283). The commit then raises, and the router answers 500 (gamification.py lines 122-126). The model writes nothing in that case, so it does not model the rollback.
- Receipts.UploadSpec: one `now` stands for several clock reads. These are the `receipt_date` of the duplicate gate (receipts.py line 63), the server defaults `receipt_date` and `created_at` of the saved row (models.py lines 35 and 39), and `upload_time` (receipts.py line 87). The model ignores the time that passes between them.
- Network and cloud I/O is not modelled; its results are inputs. This covers the GCS upload and the OCR HTTP call of the upload endpoint, Document AI and the storage clients of the OCR service, the JMA forecast fetch and the Gemini calls of the AI advisor.
- SQL session mechanics are not modelled: intermediate commits, `refresh`, rollback and a session left unusable after a failed commit. Each operation is one sequential atomic step. Concurrent requests are out of scope, and so are the races of the check-then-insert patterns in `award_badge` and `_ensure_badge_exists`.
- Receipts.UploadReceipt: the only failure modelled inside steps 5–7 is a failed ledger write (`Fault.LedgerWrite`). The rest of those steps cannot raise in the model, because the engines catch their own failures.
- Storage failures are independent choices given as a set of faults. The model does not relate one failing query to another.
- Commit failures in `_ensure_badge_exists` and `create_initial_badges`, which return `None` or `False` in the source, are not modelled. The model only runs them successfully.
- `_award_badge_to_user`: its `except` branch is not modelled; the model's award fails only for a missing user or badge.
- The top-level `except` of `evaluate_and_award_badges` (badge_engine.py lines 51-53) has no counterpart. Every category and the held-badge query catch their own failures, so nothing reaches it.
- `_count_consecutive_days` exists twice, in the point engine and the badge engine, with the same body. It is modelled once, as `PointEngine.CountConsecutiveDays`.
- BadgeEngine.EvaluateSound does not prove that the reported awards are pairwise distinct.
- Time zones are not modelled. Every timestamp is a local-time minute count, and `date()`, `hour` and `weekday()` are integer arithmetic on it.
- `datetime.fromisoformat` on JMA time defines is not modelled. The dates arrive already parsed, with `None` for a rejected string.
- Temperatures are not modelled; they are floats in the source. The merge records only which dates the temperature series carries.
- The per-date upsert, `stored_count`, `processed_dates` and the sorted visiting order of the merge are not modelled. The result is a map from date to code.
- Text.Lower lowercases ASCII letters only. Python's `str.lower()` of other scripts is not modelled. The keywords of every model are Japanese or lower-case ASCII, so only other-script capitals matter.
- PasswordValidator.HasSequentialChars: the digit set of `isdigit()` and `int()` is ASCII plus full-width digits. Other Unicode digits are not modelled. Characters such as '²', which pass `isdigit()` but make `int()` raise, count as non-digits in the model, although the source would raise.
- OcrProcessor.CleanAndConvertAmount: `\d` is ASCII plus full-width digits here, and other Unicode decimal digits are not modelled. The input is always a string, because Document AI `mention_text` is never `None`.
- Weather.ParseInt: only surrounding whitespace, an optional sign and decimal digits are accepted. Underscore separators and JMA codes given as JSON numbers rather than strings are not modelled. Its contract states only a necessary condition; its partners are ParseIntRoundTrip and JmaCodeFallbacks.
- LlmAdvisor.ParseAdviceProperties: a `recommendation` key that is present with the value `None`, which the source would return as `[None]`, is not distinguished from a missing key. The analytics dictionaries the source echoes back unchanged are not modelled.
- LlmAdvisor.IsAdviceLine: `line[0].isdigit()` uses the same ASCII and full-width digit set.
- Messages and logging are not modelled: `print`, structlog, user-facing message text beyond the rule messages, and the HTTP detail strings.
- `create_badge`, `get_user_badges`, `get_rewards`, `create_initial_rewards` and the other read-only CRUD helpers are outside the modelled core.
