/**
 * The password-health screen: a per-password strength score, the three issue
 * lists (weak, reused, old) computed over every vault item, the overall security
 * score, and the rating and colour bands the score card shows.
 */
module Health {
  import opened Wrappers
  import opened Text
  import opened Collections
  import Entities

  type VaultItem = Entities.VaultItem

  /** An item is weak below this strength. */
  const WEAK_THRESHOLD := 40
  /** Ninety days in milliseconds: 7,776,000,000. */
  const NINETY_DAYS_MS := 90 * 24 * 60 * 60 * 1000

  // ---------------------------------------------------------------------------
  // Strength of one password
  // ---------------------------------------------------------------------------

  /** The length tier: 30 from 16 characters, 20 from 12, 10 from 8, else nothing. */
  function LengthPoints(n: nat): (points: int)
    ensures points in {0, 10, 20, 30}
    ensures points == 30 <==> n >= 16
  {
    if n >= 16 then 30 else if n >= 12 then 20 else if n >= 8 then 10 else 0
  }

  function Points(present: bool, points: int): int {
    if present then points else 0
  }

  /** The sum before the final `coerceIn(0, 100)`. */
  function RawStrength(password: string): (raw: int)
    ensures 0 <= raw <= 100
  {
    LengthPoints(|password|)
      + Points(HasUpper(password), 15) + Points(HasLower(password), 15)
      + Points(HasDigit(password), 15) + Points(HasSpecial(password), 25)
  }

  /** `calculatePasswordStrength`: 0 for the empty password, else the clamped sum. */
  function Strength(password: string): (score: int)
    ensures 0 <= score <= 100
    ensures password == "" ==> score == 0
  {
    if password == "" then 0 else Clamp(RawStrength(password), 0, 100)
  }

  function Clamp(x: int, lo: int, hi: int): int
    requires lo <= hi
  {
    if x < lo then lo else if x > hi then hi else x
  }

  /** The strength as the source computes it, accumulating into a mutable score. */
  method CalculatePasswordStrength(password: string) returns (score: int)
    ensures score == Strength(password)
    ensures 0 <= score <= 100
  {
    if |password| == 0 {
      return 0;
    }
    score := 0;
    if |password| >= 16 {
      score := score + 30;
    } else if |password| >= 12 {
      score := score + 20;
    } else if |password| >= 8 {
      score := score + 10;
    }
    if HasUpper(password) { score := score + 15; }
    if HasLower(password) { score := score + 15; }
    if HasDigit(password) { score := score + 15; }
    if HasSpecial(password) { score := score + 25; }
    score := Clamp(score, 0, 100);
  }

  /**
   * The points sum to exactly 100 at most, so the clamp never bites; the top score
   * needs every tier: 16 characters and all four character classes.
   */
  lemma StrengthIsPerfect(password: string)
    ensures Strength(password) == RawStrength(password)
    ensures Strength(password) == 100 <==>
      |password| >= 16 && HasUpper(password) && HasLower(password)
      && HasDigit(password) && HasSpecial(password)
  {
  }

  /** The maximum is reached. */
  lemma PerfectPasswordExists()
    ensures Strength("Aa1!Aa1!Aa1!Aa1!") == 100
  {
    var p := "Aa1!Aa1!Aa1!Aa1!";
    assert p[0] == 'A' && p[1] == 'a' && p[2] == '1' && p[3] == '!';
    assert 'A' in p && 'a' in p && '1' in p && '!' in p;
    assert HasUpper(p) && HasLower(p) && HasDigit(p) && HasSpecial(p);
  }

  /**
   * A password below 16 characters that lacks a special character scores at most
   * 20 + 45 = 65; with a single character class and fewer than 12 characters it
   * is weak.
   */
  lemma ShortPlainPasswordIsWeak(password: string)
    requires |password| < 12 && !HasSpecial(password)
    requires !(HasUpper(password) && HasLower(password))
    requires !(HasUpper(password) && HasDigit(password))
    requires !(HasLower(password) && HasDigit(password))
    ensures Strength(password) < WEAK_THRESHOLD
  {
  }

  // ---------------------------------------------------------------------------
  // The three issue lists
  // ---------------------------------------------------------------------------

  predicate IsWeak(item: VaultItem) {
    Strength(item.password) < WEAK_THRESHOLD
  }

  /** `item.modifiedAt < ninetyDaysAgo` with `ninetyDaysAgo = now - 90 days`. */
  predicate IsOld(item: VaultItem, now: int) {
    item.modifiedAt < now - NINETY_DAYS_MS
  }

  function OldAt(now: int): VaultItem -> bool {
    (item: VaultItem) => IsOld(item, now)
  }

  function HasPassword(password: string): VaultItem -> bool {
    (item: VaultItem) => item.password == password
  }

  /** The items that would land in the same `groupBy { it.password }` group as `password`. */
  function Group(items: seq<VaultItem>, password: string): seq<VaultItem> {
    Filter(items, HasPassword(password))
  }

  /** The keys of `groupBy { it.password }`, in order of first appearance. */
  function GroupKeys(items: seq<VaultItem>): (keys: seq<string>)
    ensures forall k :: k in keys <==> exists item :: item in items && item.password == k
    ensures forall i, j :: 0 <= i < j < |keys| ==> keys[i] != keys[j]
  {
    if items == [] then []
    else
      var init := GroupKeys(items[..|items| - 1]);
      var last := items[|items| - 1];
      assert forall x :: x in items <==> x in items[..|items| - 1] || x == last;
      if last.password in init then init else init + [last.password]
  }

  /** A group is reused when it has more than one item and its password is not empty. */
  predicate ReusedGroup(items: seq<VaultItem>, password: string) {
    |Group(items, password)| > 1 && password != ""
  }

  /** The groups for `keys`, in order, each added whole when it is reused. */
  function ReusedFrom(items: seq<VaultItem>, keys: seq<string>): seq<VaultItem> {
    if keys == [] then []
    else
      var k := keys[|keys| - 1];
      ReusedFrom(items, keys[..|keys| - 1]) + (if ReusedGroup(items, k) then Group(items, k) else [])
  }

  /** `reusedPasswords` before `distinctBy { it.id }`: what the score counts. */
  function ReusedRaw(items: seq<VaultItem>): seq<VaultItem> {
    ReusedFrom(items, GroupKeys(items))
  }

  /** An item is in the raw reused list exactly when its group is reused. */
  lemma {:induction false} ReusedFromMembership(items: seq<VaultItem>, keys: seq<string>, x: VaultItem)
    ensures x in ReusedFrom(items, keys) <==>
      x in items && x.password in keys && ReusedGroup(items, x.password)
  {
    if keys != [] {
      var init := keys[..|keys| - 1];
      var k := keys[|keys| - 1];
      ReusedFromMembership(items, init, x);
      assert x.password in keys <==> x.password in init || x.password == k;
      assert x in Group(items, k) <==> x in items && x.password == k;
    }
  }

  /**
   * The reused list holds exactly the items whose non-empty password is shared
   * with another item; an item with an empty password is never reused.
   */
  lemma ReusedMembership(items: seq<VaultItem>, x: VaultItem)
    ensures x in ReusedRaw(items) <==>
      x in items && x.password != "" && Count(items, HasPassword(x.password)) > 1
  {
    ReusedFromMembership(items, GroupKeys(items), x);
  }

  // ---------------------------------------------------------------------------
  // Security score
  // ---------------------------------------------------------------------------

  /** Kotlin's `Float.toInt()`: truncation toward zero. */
  function Truncate(r: real): int {
    if r >= 0.0 then r.Floor else -((-r).Floor)
  }

  /**
   * `((1 - totalIssues / totalPasswords) * 100).toInt().coerceIn(0, 100)` with
   * `totalPasswords = count.coerceAtLeast(1)`, in exact arithmetic.
   */
  function SecurityScore(issues: nat, count: nat): (score: int)
    ensures 0 <= score <= 100
  {
    var total := if count < 1 then 1 else count;
    var ratio := issues as real / total as real;
    Clamp(Truncate((1.0 - ratio) * 100.0), 0, 100)
  }

  lemma LeQuotient(y: real, a: real, b: real)
    requires b > 0.0 && y * b <= a
    ensures y <= a / b
  {
    assert a / b * b == a;
  }

  lemma QuotientLt(y: real, a: real, b: real)
    requires b > 0.0 && a < y * b
    ensures a / b < y
  {
    assert a / b * b == a;
  }

  /** For `a >= 0` and `b > 0` the floor of the real quotient is the integer quotient. */
  lemma FloorOfQuotient(a: int, b: int)
    requires a >= 0 && b > 0
    ensures (a as real / b as real).Floor == a / b
  {
    var q := a / b;
    assert q * b <= a < (q + 1) * b;
    assert (q * b) as real == q as real * b as real;
    assert ((q + 1) * b) as real == (q as real + 1.0) * b as real;
    LeQuotient(q as real, a as real, b as real);
    QuotientLt(q as real + 1.0, a as real, b as real);
  }

  /**
   * The score in integer terms: 0 once the issues reach the (at least 1) item count,
   * otherwise the integer share `100 * (total - issues) / total`.
   */
  lemma SecurityScoreInIntegers(issues: nat, count: nat)
    ensures var total := if count < 1 then 1 else count;
      SecurityScore(issues, count) == if issues >= total then 0 else 100 * (total - issues) / total
  {
    var total := if count < 1 then 1 else count;
    var ratio := issues as real / total as real;
    var v := (1.0 - ratio) * 100.0;
    assert v == (100 * (total - issues)) as real / total as real;
    if issues >= total {
      assert v <= 0.0;
    } else {
      FloorOfQuotient(100 * (total - issues), total);
      assert 100 * (total - issues) / total <= 100;
    }
  }

  /** A perfect score means no issues at all. */
  lemma PerfectScoreIffNoIssues(issues: nat, count: nat)
    ensures SecurityScore(issues, count) == 100 <==> issues == 0
  {
    SecurityScoreInIntegers(issues, count);
    var total := if count < 1 then 1 else count;
    if 0 < issues < total {
      assert 100 * (total - issues) < 100 * total;
      assert 100 * (total - issues) / total < 100;
    }
  }

  /** More issues never raise the score. */
  lemma SecurityScoreAntitone(i: nat, j: nat, count: nat)
    requires i <= j
    ensures SecurityScore(j, count) <= SecurityScore(i, count)
  {
    SecurityScoreInIntegers(i, count);
    SecurityScoreInIntegers(j, count);
    var total := if count < 1 then 1 else count;
    if j < total {
      DivMonotone(100 * (total - j), 100 * (total - i), total);
    }
  }

  lemma DivMonotone(a: nat, b: nat, d: nat)
    requires a <= b && d > 0
    ensures a / d <= b / d
  {
    var qa, qb := a / d, b / d;
    assert d * qa <= a && b < d * qb + d;
    if qa > qb {
      MulLe(d, qb + 1, qa);
    }
  }

  lemma MulLe(d: nat, x: int, y: int)
    requires x <= y
    ensures d * x <= d * y
  {
    assert d * y - d * x == d * (y - x);
  }

  // ---------------------------------------------------------------------------
  // The analysis
  // ---------------------------------------------------------------------------

  /** `PasswordHealthState`. */
  datatype PasswordHealthState = PasswordHealthState(
    isLoading: bool,
    totalPasswords: int,
    weakPasswords: seq<VaultItem>,
    reusedPasswords: seq<VaultItem>,
    oldPasswords: seq<VaultItem>,
    securityScore: int,
    errorMessage: Option<string>)

  const DefaultHealthState := PasswordHealthState(false, 0, [], [], [], 100, None)

  function ItemId(item: VaultItem): int { item.id }

  /**
   * The state `analyzePasswords` leaves after reading `items` at time `now`: the
   * error message and anything else not listed keep their previous value.
   */
  function Analysis(prior: PasswordHealthState, items: seq<VaultItem>, now: int): PasswordHealthState {
    var weak := Filter(items, IsWeak);
    var reused := ReusedRaw(items);
    var stale := Filter(items, OldAt(now));
    prior.(
      isLoading := false,
      totalPasswords := |items|,
      weakPasswords := weak,
      reusedPasswords := DistinctBy(reused, ItemId),
      oldPasswords := stale,
      securityScore := SecurityScore(|weak| + |reused| + |stale|, |items|))
  }

  /** `IssueType`: the three lists the screen shows. */
  datatype IssueType = Weak | Reused | Old

  /** The list the screen renders for each issue type. */
  function IssuesOf(state: PasswordHealthState, issue: IssueType): seq<VaultItem> {
    match issue
    case Weak => state.weakPasswords
    case Reused => state.reusedPasswords
    case Old => state.oldPasswords
  }

  /** What it means for an item of `items` to have each issue at time `now`. */
  predicate HasIssue(items: seq<VaultItem>, now: int, item: VaultItem, issue: IssueType) {
    match issue
    case Weak => Strength(item.password) < WEAK_THRESHOLD
    case Reused => item.password != "" && Count(items, HasPassword(item.password)) > 1
    case Old => item.modifiedAt < now - NINETY_DAYS_MS
  }

  /**
   * Every listed item is a vault item with that issue, and every vault item with
   * an issue is listed (for reuse, an item with its id is listed).
   */
  lemma AnalysisListsIssues(prior: PasswordHealthState, items: seq<VaultItem>, now: int, issue: IssueType)
    ensures var listed := IssuesOf(Analysis(prior, items, now), issue);
      && (forall x :: x in listed ==> x in items && HasIssue(items, now, x, issue))
      && (forall x :: x in items && HasIssue(items, now, x, issue) ==>
            exists y :: y in listed && y.id == x.id)
  {
    var listed := IssuesOf(Analysis(prior, items, now), issue);
    if issue == Reused {
      var raw := ReusedRaw(items);
      DistinctByProperties(raw, ItemId);
      forall x | x in listed
        ensures x in items && HasIssue(items, now, x, issue)
      {
        var i :| 0 <= i < |listed| && listed[i] == x;
        var j :| 0 <= j < |raw| && listed[i] == raw[j];
        ReusedMembership(items, x);
      }
      forall x | x in items && HasIssue(items, now, x, issue)
        ensures exists y :: y in listed && y.id == x.id
      {
        ReusedMembership(items, x);
        var j :| 0 <= j < |raw| && raw[j] == x;
        assert HasKey(listed, ItemId, ItemId(raw[j]));
        var k :| 0 <= k < |listed| && ItemId(listed[k]) == ItemId(raw[j]);
        assert listed[k] in listed;
      }
    }
  }

  /** The score and count the analysis reports. */
  lemma AnalysisScore(prior: PasswordHealthState, items: seq<VaultItem>, now: int)
    ensures var s := Analysis(prior, items, now);
      && s.totalPasswords == |items|
      && 0 <= s.securityScore <= 100
      && (s.securityScore == 100 <==>
            s.weakPasswords == [] && s.reusedPasswords == [] && s.oldPasswords == [])
  {
    var s := Analysis(prior, items, now);
    var raw := ReusedRaw(items);
    PerfectScoreIffNoIssues(|s.weakPasswords| + |raw| + |s.oldPasswords|, |items|);
    DistinctByProperties(raw, ItemId);
    if raw != [] {
      assert HasKey(s.reusedPasswords, ItemId, ItemId(raw[0]));
    }
  }

  /** An item with an empty password is always weak and never reused. */
  lemma EmptyPasswordIsWeakNotReused(prior: PasswordHealthState, items: seq<VaultItem>, now: int, x: VaultItem)
    requires x in items && x.password == ""
    ensures var s := Analysis(prior, items, now);
      x in s.weakPasswords && x !in s.reusedPasswords
  {
    AnalysisListsIssues(prior, items, now, Reused);
  }

  /** The view model holding the health screen's state. */
  class PasswordHealthViewModel {
    var state: PasswordHealthState

    constructor ()
      ensures state == DefaultHealthState
    {
      state := DefaultHealthState;
    }

    /**
     * `analyzePasswords`: `loaded` is what `repository.getAllItems().first()`
     * produced, either the items or the exception's (nullable) message, and `now`
     * the clock reading.
     */
    method AnalyzePasswords(loaded: Result<seq<VaultItem>, Option<string>>, now: int)
      modifies this
      ensures loaded.Ok? ==> state == Analysis(old(state), loaded.value, now)
      ensures loaded.Err? ==> state == old(state).(isLoading := false, errorMessage := loaded.error)
    {
      state := state.(isLoading := true);
      if loaded.Err? {
        state := state.(isLoading := false, errorMessage := loaded.error);
        return;
      }
      var items := loaded.value;
      var weak := CollectWeak(items);
      var reused := CollectReused(items);
      var stale := CollectOld(items, now);
      var score := SecurityScore(|weak| + |reused| + |stale|, |items|);
      state := state.(
        isLoading := false,
        totalPasswords := |items|,
        weakPasswords := weak,
        reusedPasswords := DistinctBy(reused, ItemId),
        oldPasswords := stale,
        securityScore := score);
    }
  }

  /** The weak-password loop: every item whose strength is below 40, in order. */
  method CollectWeak(items: seq<VaultItem>) returns (weak: seq<VaultItem>)
    ensures weak == Filter(items, IsWeak)
  {
    weak := [];
    for i := 0 to |items|
      invariant weak == Filter(items[..i], IsWeak)
    {
      var strength := CalculatePasswordStrength(items[i].password);
      FilterSnoc(items, i, IsWeak);
      if strength < WEAK_THRESHOLD {
        weak := weak + [items[i]];
      }
    }
    assert items[..|items|] == items;
  }

  /** The reused-password loop over the password groups, adding each reused group whole. */
  method CollectReused(items: seq<VaultItem>) returns (reused: seq<VaultItem>)
    ensures reused == ReusedRaw(items)
  {
    reused := [];
    var keys := GroupKeys(items);
    for i := 0 to |keys|
      invariant reused == ReusedFrom(items, keys[..i])
    {
      assert keys[..i + 1][..i] == keys[..i];
      var group := Group(items, keys[i]);
      if |group| > 1 && keys[i] != "" {
        reused := reused + group;
      }
    }
    assert keys[..|keys|] == keys;
  }

  /** The old-password loop: every item last modified more than 90 days before `now`. */
  method CollectOld(items: seq<VaultItem>, now: int) returns (stale: seq<VaultItem>)
    ensures stale == Filter(items, OldAt(now))
  {
    var ninetyDaysAgo := now - NINETY_DAYS_MS;
    stale := [];
    for i := 0 to |items|
      invariant stale == Filter(items[..i], OldAt(now))
    {
      FilterSnoc(items, i, OldAt(now));
      if items[i].modifiedAt < ninetyDaysAgo {
        stale := stale + [items[i]];
      }
    }
    assert items[..|items|] == items;
  }

  // ---------------------------------------------------------------------------
  // Score card bands
  // ---------------------------------------------------------------------------

  /** How many of the thresholds 20, 40, 60, 80 the score reaches. */
  function Band(score: int): (b: nat)
    ensures b <= 4
  {
    (if score >= 20 then 1 else 0) + (if score >= 40 then 1 else 0)
      + (if score >= 60 then 1 else 0) + (if score >= 80 then 1 else 0)
  }

  const RATINGS: seq<string> := ["Very Weak", "Weak", "Fair", "Good", "Excellent"]
  const COLOURS: seq<int> := [0xFFE53935, 0xFFFF9800, 0xFFFFC107, 0xFF8BC34A, 0xFF4CAF50]

  /** The rating text of `SecurityScoreCard`. */
  function Rating(score: int): string {
    if score >= 80 then "Excellent"
    else if score >= 60 then "Good"
    else if score >= 40 then "Fair"
    else if score >= 20 then "Weak"
    else "Very Weak"
  }

  /** The ARGB colour of `SecurityScoreCard`. */
  function Colour(score: int): int {
    if score >= 80 then 0xFF4CAF50
    else if score >= 60 then 0xFF8BC34A
    else if score >= 40 then 0xFFFFC107
    else if score >= 20 then 0xFFFF9800
    else 0xFFE53935
  }

  /** Rating and colour are both read off the band, so they always agree. */
  lemma RatingAndColourFollowBand(score: int)
    ensures Rating(score) == RATINGS[Band(score)]
    ensures Colour(score) == COLOURS[Band(score)]
  {
  }

  /** Two scores get the same rating exactly when they get the same colour. */
  lemma RatingAgreesWithColour(a: int, b: int)
    ensures Rating(a) == Rating(b) <==> Colour(a) == Colour(b)
  {
    RatingAndColourFollowBand(a);
    RatingAndColourFollowBand(b);
    assert forall i, j :: 0 <= i < j < 5 ==> RATINGS[i] != RATINGS[j] && COLOURS[i] != COLOURS[j];
  }

  /** A higher score never gets a lower rating. */
  lemma RatingMonotone(a: int, b: int)
    requires a <= b
    ensures Band(a) <= Band(b)
    ensures RATINGS[Band(b)] == Rating(b) && RATINGS[Band(a)] == Rating(a)
  {
  }
}
