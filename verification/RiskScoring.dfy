/** The incident risk score. Confidences are in hundredths, as the column stores them. */
module RiskScoring {
  import opened Totals

  datatype Alert = Alert(severity: string, ruleId: string, confidence: int)

  datatype Settings = Settings(high: int, medium: int, low: int, multiplier: int, combo: int, supporting: int) {
    function Weight(severity: string): int {
      if severity == "critical" then high + 10
      else if severity == "high" then high
      else if severity == "medium" then medium
      else low
    }
  }

  const DEFAULTS := Settings(20, 10, 5, 20, 15, 10)

  /** Python's `int()` on a quotient: towards zero. */
  function Truncated(numerator: int, denominator: int): int
    requires denominator > 0
  {
    if numerator >= 0 then numerator / denominator else -(-numerator / denominator)
  }

  function Clamp(raw: int): int {
    if raw > 100 then 100 else if raw < 0 then 0 else raw
  }

  function SeverityFromScore(score: int): string {
    if score >= 85 then "critical" else if score >= 65 then "high" else if score >= 35 then "medium" else "low"
  }

  function Weighing(settings: Settings): Alert -> int {
    (a: Alert) => settings.Weight(a.severity)
  }

  function Confiding(): Alert -> int {
    (a: Alert) => a.confidence
  }

  function RuleIds(alerts: seq<Alert>): set<string> {
    set a | a in alerts :: a.ruleId
  }

  function Bonus(rules: set<string>, settings: Settings): int {
    (if "rule_005_login_after_failures" in rules && ("rule_001_brute_force" in rules || "rule_002_password_spray" in rules)
     then settings.combo else 0)
    + (if "rule_003_suspicious_privilege_change" in rules || "rule_004_large_download" in rules
       then settings.supporting else 0)
  }

  /** Points for the average confidence of at least one alert. */
  function ConfidencePoints(total: int, count: nat, multiplier: int): int
    requires count > 0
  {
    Truncated(total * multiplier, 100 * count)
  }

  function RawScore(alerts: seq<Alert>, settings: Settings): int
    requires alerts != []
  {
    Total(alerts, Weighing(settings)) + ConfidencePoints(Total(alerts, Confiding()), |alerts|, settings.multiplier)
    + Bonus(RuleIds(alerts), settings)
  }

  function ScoreOf(alerts: seq<Alert>, settings: Settings): int {
    if alerts == [] then 0 else Clamp(RawScore(alerts, settings))
  }

  class RiskScoringEngine {
    const settings: Settings

    constructor (settings: Settings)
      ensures this.settings == settings
    {
      this.settings := settings;
    }

    method Score(alerts: seq<Alert>) returns (score: int)
      ensures score == ScoreOf(alerts, settings) && 0 <= score <= 100
    {
      if alerts == [] {
        return 0;
      }
      var severityScore, confidences := 0, 0;
      var ruleIds := set a | a in alerts :: a.ruleId;
      for i := 0 to |alerts|
        invariant severityScore == Total(alerts[..i], Weighing(settings))
        invariant confidences == Total(alerts[..i], Confiding())
      {
        assert alerts[..i + 1][..i] == alerts[..i];
        severityScore := severityScore + settings.Weight(alerts[i].severity);
        confidences := confidences + alerts[i].confidence;
      }
      assert alerts[..|alerts|] == alerts;
      var confidenceScore := Truncated(confidences * settings.multiplier, 100 * |alerts|);
      var comboBonus := 0;
      if "rule_005_login_after_failures" in ruleIds
        && ("rule_001_brute_force" in ruleIds || "rule_002_password_spray" in ruleIds) {
        comboBonus := comboBonus + settings.combo;
      }
      if "rule_003_suspicious_privilege_change" in ruleIds || "rule_004_large_download" in ruleIds {
        comboBonus := comboBonus + settings.supporting;
      }
      var raw := severityScore + confidenceScore + comboBonus;
      score := if raw > 100 then 100 else raw;
      if score < 0 {
        score := 0;
      }
    }
  }

  // ---------------------------------------------------------------- order does not matter

  lemma SameRules(a: seq<Alert>, b: seq<Alert>)
    requires multiset(a) <= multiset(b)
    ensures RuleIds(a) <= RuleIds(b)
  {
    forall x | x in a ensures x in b {
      assert x in multiset(a) && x in multiset(b);
    }
  }

  /** The score depends on the alerts, not on their order. */
  lemma OrderIndependent(a: seq<Alert>, b: seq<Alert>, settings: Settings)
    requires multiset(a) == multiset(b)
    ensures ScoreOf(a, settings) == ScoreOf(b, settings)
  {
    TotalOfMultiset(a, b, Weighing(settings));
    TotalOfMultiset(a, b, Confiding());
    SameRules(a, b);
    SameRules(b, a);
    assert |a| == |multiset(a)| && |b| == |multiset(b)|;
  }

  // ---------------------------------------------------------------- more alerts never lower it

  predicate Within(alerts: seq<Alert>, lo: int, hi: int) {
    forall a | a in alerts :: lo <= a.confidence <= hi
  }

  /** Settings that take nothing away. */
  predicate Fair(settings: Settings) {
    && 0 <= settings.low && 0 <= settings.medium && 0 <= settings.high
    && 0 <= settings.multiplier && 0 <= settings.combo && 0 <= settings.supporting
  }

  /** The severity with the smallest weight. */
  function Lightest(settings: Settings): string {
    if settings.low <= settings.medium && settings.low <= settings.high then "low"
    else if settings.medium <= settings.high then "medium"
    else "high"
  }

  function SmallestWeight(settings: Settings): int {
    settings.Weight(Lightest(settings))
  }

  /** What `n` alerts of weight `w` score whose confidences add up to `total`, without a bonus. */
  function LightScore(w: int, m: int, n: nat, total: int): int
    requires n > 0
  {
    Clamp(n * w + ConfidencePoints(total, n, m))
  }

  /** One more such alert, with the smallest confidence, does not lower that. */
  predicate LightHolds(w: int, m: int, lo: int, n: nat, total: int)
    requires n > 0
  {
    LightScore(w, m, n, total) <= LightScore(w, m, n + 1, total + lo)
  }

  ghost predicate LightNeverFalls(w: int, m: int, lo: int, hi: int) {
    forall n: nat, total: int | n > 0 && n * lo <= total <= n * hi :: LightHolds(w, m, lo, n, total)
  }

  ghost predicate MonotoneWithin(settings: Settings, lo: int, hi: int) {
    forall a: seq<Alert>, b: seq<Alert> | Within(b, lo, hi) && multiset(a) <= multiset(b) ::
      ScoreOf(a, settings) <= ScoreOf(b, settings)
  }

  // ---------------------------------------------------------------- light alerts decide

  lemma OneMoreTimes(n: int, x: int)
    ensures (n + 1) * x == n * x + x
  {
  }

  lemma {:induction false} TotalConfidence(alerts: seq<Alert>, lo: int, hi: int)
    requires Within(alerts, lo, hi)
    ensures |alerts| * lo <= Total(alerts, Confiding()) <= |alerts| * hi
    decreases |alerts|
  {
    if alerts != [] {
      var front, last := alerts[..|alerts| - 1], alerts[|alerts| - 1];
      assert last in alerts && forall a | a in front :: a in alerts;
      TotalConfidence(front, lo, hi);
      OneMoreTimes(|front|, lo);
      OneMoreTimes(|front|, hi);
    }
  }

  lemma NoSmallerWeight(settings: Settings, severity: string)
    requires Fair(settings)
    ensures 0 <= SmallestWeight(settings) <= settings.Weight(severity)
  {
  }

  lemma {:induction false} TotalWeight(alerts: seq<Alert>, settings: Settings)
    requires Fair(settings)
    ensures |alerts| * SmallestWeight(settings) <= Total(alerts, Weighing(settings))
    decreases |alerts|
  {
    if alerts != [] {
      TotalWeight(alerts[..|alerts| - 1], settings);
      NoSmallerWeight(settings, alerts[|alerts| - 1].severity);
      OneMoreTimes(|alerts| - 1, SmallestWeight(settings));
    }
  }

  lemma MultiplyKeepsOrder(a: int, b: int, d: int)
    requires a <= b && 0 <= d
    ensures a * d <= b * d
  {
  }

  lemma CancelFactor(a: int, b: int, d: int)
    requires d > 0 && a * d <= b * d
    ensures a <= b
  {
    if a > b {
      MultiplyKeepsOrder(b + 1, a, d);
    }
  }

  lemma QuotientAtLeast(x: int, d: int, k: int)
    requires d > 0 && x >= k * d
    ensures x / d >= k
  {
    if x / d < k {
      MultiplyKeepsOrder(x / d + 1, k, d);
    }
  }

  lemma QuotientTimes(x: int, d: int)
    requires d > 0
    ensures x / d * d <= x
  {
  }

  lemma QuotientBelow(x: int, d: int, k: int)
    requires d > 0 && x < k * d
    ensures x / d < k
  {
    if x / d >= k {
      QuotientTimes(x, d);
      MultiplyKeepsOrder(k, x / d, d);
    }
  }

  lemma QuotientKeepsOrder(x: int, y: int, d: int)
    requires d > 0 && x <= y
    ensures x / d <= y / d
  {
    QuotientTimes(x, d);
    QuotientAtLeast(y, d, x / d);
  }

  /** A larger confidence is worth as many points or more. */
  lemma MorePoints(total: int, c: int, lo: int, n: nat, m: int)
    requires n > 0 && 0 <= m && 0 <= total + lo && lo <= c
    ensures ConfidencePoints(total + lo, n, m) <= ConfidencePoints(total + c, n, m)
  {
    MultiplyKeepsOrder(0, total + lo, m);
    MultiplyKeepsOrder(total + lo, total + c, m);
    QuotientKeepsOrder((total + lo) * m, (total + c) * m, 100 * n);
  }

  lemma MoreRulesMoreBonus(a: set<string>, b: set<string>, settings: Settings)
    requires a <= b && 0 <= settings.combo && 0 <= settings.supporting
    ensures 0 <= Bonus(a, settings) <= Bonus(b, settings)
  {
  }

  lemma PointsAreNotNegative(total: int, n: nat, m: int)
    requires n > 0 && 0 <= total && 0 <= m
    ensures 0 <= total * m && 0 <= ConfidencePoints(total, n, m)
  {
    MultiplyKeepsOrder(0, total, m);
  }

  /** Heavier alerts and bonuses shift both scores alike, and the second by more. */
  lemma HeavierHolds(light: int, w: int, before: int, after: int, weight: int, more: int, bonus: int, bonusAfter: int)
    requires Clamp(light + before) <= Clamp(light + w + after)
    requires 0 <= light <= weight && 0 <= w <= more && 0 <= bonus <= bonusAfter && 0 <= before && 0 <= after
    ensures Clamp(weight + before + bonus) <= Clamp(weight + more + after + bonusAfter)
  {
  }

  lemma LightStep(w: int, m: int, lo: int, n: nat, total: int, totalAfter: int)
    requires n > 0 && 0 <= m && 0 <= lo && total + lo <= totalAfter && 0 <= total && LightHolds(w, m, lo, n, total)
    ensures Clamp(n * w + ConfidencePoints(total, n, m)) <= Clamp(n * w + w + ConfidencePoints(totalAfter, n + 1, m))
    ensures 0 <= ConfidencePoints(total, n, m) && 0 <= ConfidencePoints(totalAfter, n + 1, m)
  {
    OneMoreTimes(n, w);
    MorePoints(total, totalAfter - total, lo, n + 1, m);
    PointsAreNotNegative(total, n, m);
    PointsAreNotNegative(totalAfter, n + 1, m);
  }

  lemma OneMore(alerts: seq<Alert>, extra: Alert, settings: Settings)
    ensures var all := alerts + [extra];
      Total(all, Weighing(settings)) == Total(alerts, Weighing(settings)) + settings.Weight(extra.severity)
      && Total(all, Confiding()) == Total(alerts, Confiding()) + extra.confidence && RuleIds(alerts) <= RuleIds(all)
  {
    assert (alerts + [extra])[..|alerts|] == alerts;
  }

  /** One more alert in numbers: counts, total confidences, weights and bonuses before and after. */
  lemma OneMoreHolds(w: int, m: int, lo: int, hi: int, n: nat, total: int, totalAfter: int,
                     weight: int, weightAfter: int, bonus: int, bonusAfter: int)
    requires 0 <= w && 0 <= m && 0 <= lo && n > 0 && LightNeverFalls(w, m, lo, hi)
    requires n * lo <= total <= n * hi && total + lo <= totalAfter
    requires n * w <= weight && weight + w <= weightAfter && 0 <= bonus <= bonusAfter
    ensures Clamp(weight + ConfidencePoints(total, n, m) + bonus)
      <= Clamp(weightAfter + ConfidencePoints(totalAfter, n + 1, m) + bonusAfter)
  {
    MultiplyKeepsOrder(0, n, lo);
    MultiplyKeepsOrder(0, n, w);
    LightStep(w, m, lo, n, total, totalAfter);
    HeavierHolds(n * w, w, ConfidencePoints(total, n, m), ConfidencePoints(totalAfter, n + 1, m),
                 weight, weightAfter - weight, bonus, bonusAfter);
  }

  lemma OneMoreAlert(alerts: seq<Alert>, extra: Alert, settings: Settings, lo: int, hi: int)
    requires Fair(settings) && 0 <= lo && Within(alerts + [extra], lo, hi)
    requires LightNeverFalls(SmallestWeight(settings), settings.multiplier, lo, hi)
    ensures ScoreOf(alerts, settings) <= ScoreOf(alerts + [extra], settings)
  {
    if alerts != [] {
      var all := alerts + [extra];
      assert extra in all && forall a | a in alerts :: a in all;
      OneMore(alerts, extra, settings);
      TotalConfidence(alerts, lo, hi);
      TotalWeight(alerts, settings);
      NoSmallerWeight(settings, extra.severity);
      MoreRulesMoreBonus(RuleIds(alerts), RuleIds(all), settings);
      OneMoreHolds(SmallestWeight(settings), settings.multiplier, lo, hi, |alerts|,
        Total(alerts, Confiding()), Total(all, Confiding()),
        Total(alerts, Weighing(settings)), Total(all, Weighing(settings)),
        Bonus(RuleIds(alerts), settings), Bonus(RuleIds(all), settings));
    }
  }

  lemma {:induction false} MoreAlerts(alerts: seq<Alert>, extra: seq<Alert>, settings: Settings, lo: int, hi: int)
    requires Fair(settings) && 0 <= lo && Within(alerts + extra, lo, hi)
    requires LightNeverFalls(SmallestWeight(settings), settings.multiplier, lo, hi)
    ensures ScoreOf(alerts, settings) <= ScoreOf(alerts + extra, settings)
    decreases |extra|
  {
    if extra == [] {
      assert alerts + extra == alerts;
    } else {
      var front, last := extra[..|extra| - 1], extra[|extra| - 1];
      assert alerts + extra == alerts + front + [last];
      assert forall a | a in alerts + front :: a in alerts + extra;
      MoreAlerts(alerts, front, settings, lo, hi);
      OneMoreAlert(alerts + front, last, settings, lo, hi);
    }
  }

  lemma MultisetConcat(a: seq<Alert>, b: seq<Alert>)
    ensures multiset(a + b) == multiset(a) + multiset(b)
  {
  }

  function Rank(severity: string): nat {
    if severity == "critical" then 3 else if severity == "high" then 2 else if severity == "medium" then 1 else 0
  }

  lemma HigherScoreHigherRank(low: int, high: int)
    requires low <= high
    ensures Rank(SeverityFromScore(low)) <= Rank(SeverityFromScore(high))
  {
  }

  lemma MoreOfTheSame(a: seq<Alert>, b: seq<Alert>, settings: Settings, lo: int, hi: int)
    requires Fair(settings) && 0 <= lo && Within(b, lo, hi) && multiset(a) <= multiset(b)
    requires LightNeverFalls(SmallestWeight(settings), settings.multiplier, lo, hi)
    ensures ScoreOf(a, settings) <= ScoreOf(b, settings)
  {
    var rest := Remaining(a, b);
    MultisetConcat(a, rest);
    forall x | x in a + rest ensures x in b {
      assert x in multiset(a + rest);
      assert x in multiset(b);
    }
    MoreAlerts(a, rest, settings, lo, hi);
    OrderIndependent(a + rest, b, settings);
  }

  function LightAlert(settings: Settings, confidence: int): Alert {
    Alert(Lightest(settings), "r", confidence)
  }

  ghost predicate LightAlerts(alerts: seq<Alert>, settings: Settings, lo: int, hi: int) {
    Within(alerts, lo, hi) && forall a | a in alerts :: a.severity == Lightest(settings) && a.ruleId == "r"
  }

  /** A last confidence that leaves the others a total within the range. */
  lemma LightSplit(lo: int, hi: int, n: nat, total: int) returns (last: int)
    requires n > 0 && lo <= hi && n * lo <= total <= n * hi
    ensures lo <= last <= hi && (n - 1) * lo <= total - last <= (n - 1) * hi
  {
    OneMoreTimes(n - 1, lo);
    OneMoreTimes(n - 1, hi);
    MultiplyKeepsOrder(lo, hi, n - 1);
    last := if total - (n - 1) * lo <= hi then total - (n - 1) * lo else hi;
  }

  /** As many light alerts as one likes, whose confidences add up to any total within the range. */
  lemma {:induction false} LightList(settings: Settings, lo: int, hi: int, n: nat, total: int) returns (alerts: seq<Alert>)
    requires lo <= hi && n * lo <= total <= n * hi
    ensures |alerts| == n && LightAlerts(alerts, settings, lo, hi)
    ensures Total(alerts, Confiding()) == total && Total(alerts, Weighing(settings)) == n * SmallestWeight(settings)
    decreases n
  {
    if n == 0 {
      alerts := [];
    } else {
      OneMoreTimes(n - 1, SmallestWeight(settings));
      var last := LightSplit(lo, hi, n, total);
      var front := LightList(settings, lo, hi, n - 1, total - last);
      alerts := front + [LightAlert(settings, last)];
      assert alerts[..n - 1] == front;
    }
  }

  lemma LightListScores(alerts: seq<Alert>, settings: Settings, lo: int, hi: int)
    requires alerts != [] && LightAlerts(alerts, settings, lo, hi)
    requires Total(alerts, Weighing(settings)) == |alerts| * SmallestWeight(settings)
    ensures ScoreOf(alerts, settings)
      == LightScore(SmallestWeight(settings), settings.multiplier, |alerts|, Total(alerts, Confiding()))
  {
    forall rule | rule in RuleIds(alerts) ensures rule == "r" {
    }
  }

  lemma LightFallIsAFall(settings: Settings, lo: int, hi: int, n: nat, total: int)
    requires n > 0 && lo <= hi && n * lo <= total <= n * hi
    requires !LightHolds(SmallestWeight(settings), settings.multiplier, lo, n, total)
    ensures !MonotoneWithin(settings, lo, hi)
  {
    var alerts := LightList(settings, lo, hi, n, total);
    var more := alerts + [LightAlert(settings, lo)];
    OneMore(alerts, LightAlert(settings, lo), settings);
    OneMoreTimes(n, SmallestWeight(settings));
    LightListScores(alerts, settings, lo, hi);
    LightListScores(more, settings, lo, hi);
    assert multiset(alerts) <= multiset(more);
  }

  /**
   * For all settings that take nothing away: adding alerts with confidences in a range never lowers a score if and only
   * if one more light alert of the smallest confidence never lowers the score of light alerts.
   */
  lemma LightAlertsDecide(settings: Settings, lo: int, hi: int)
    requires Fair(settings) && 0 <= lo <= hi
    ensures MonotoneWithin(settings, lo, hi)
      <==> LightNeverFalls(SmallestWeight(settings), settings.multiplier, lo, hi)
  {
    var w, m := SmallestWeight(settings), settings.multiplier;
    if LightNeverFalls(w, m, lo, hi) {
      forall a: seq<Alert>, b: seq<Alert> | Within(b, lo, hi) && multiset(a) <= multiset(b)
        ensures ScoreOf(a, settings) <= ScoreOf(b, settings) {
        MoreOfTheSame(a, b, settings, lo, hi);
      }
    } else {
      var n: nat, total: int :| n > 0 && n * lo <= total <= n * hi && !LightHolds(w, m, lo, n, total);
      LightFallIsAFall(settings, lo, hi, n, total);
    }
  }

  /** A check over counts and totals: no more than a hundred alerts. */
  predicate FewNeverFall(w: int, m: int, lo: int, hi: int) {
    forall n: nat, total: int | 0 < n <= 100 && n * lo <= total <= n * hi :: LightHolds(w, m, lo, n, total)
  }

  lemma ManyScoreAll(w: int, m: int, lo: int, n: nat, total: int)
    requires 0 < w && 0 <= m && 0 <= lo && 0 <= total && 100 <= n
    ensures LightHolds(w, m, lo, n, total)
  {
    PointsAreNotNegative(total + lo, n + 1, m);
    MultiplyKeepsOrder(1, w, n + 1);
  }

  /** Where every alert has a weight, a hundred alerts score a hundred, so the check decides for all lists. */
  lemma FewAlertsDecide(settings: Settings, lo: int, hi: int)
    requires Fair(settings) && 0 <= lo <= hi && 0 < SmallestWeight(settings)
    ensures MonotoneWithin(settings, lo, hi)
      <==> FewNeverFall(SmallestWeight(settings), settings.multiplier, lo, hi)
  {
    var w, m := SmallestWeight(settings), settings.multiplier;
    LightAlertsDecide(settings, lo, hi);
    if FewNeverFall(w, m, lo, hi) {
      forall n: nat, total: int | n > 0 && n * lo <= total <= n * hi ensures LightHolds(w, m, lo, n, total) {
        if n > 100 {
          MultiplyKeepsOrder(0, n, lo);
          ManyScoreAll(w, m, lo, n, total);
        }
      }
    }
  }

  // ---------------------------------------------------------------- the condition in closed form

  /** The most points a confidence can be worth that one light alert still shows below a hundred. */
  function TopPoints(w: int, m: int, hi: int): int {
    if m * hi / 100 <= 100 - w then m * hi / 100 else if w <= 100 then 100 - w else 0
  }

  /** The least confidence worth so many points. */
  function Least(m: int, points: int): int
    requires 0 <= m
  {
    if m == 0 then 0 else (100 * points + m - 1) / m
  }

  /** That confidence is worth exactly so many points: true of every multiplier up to a hundred. */
  predicate Exact(m: int, points: int)
    requires 0 <= m
  {
    m * Least(m, points) < 100 * (points + 1)
  }

  /**
   * How wide a range may be. With a weight: the least confidence worth the top points and the smallest one together
   * are worth the points of two alerts that lack two weights. Without: the smallest confidence is worth the top.
   */
  predicate Narrow(w: int, m: int, lo: int, hi: int)
    requires 0 <= m
  {
    var top := TopPoints(w, m, hi);
    if w == 0 then m * lo >= 100 * top else m * Least(m, top) + m * lo >= 200 * (top - w)
  }

  lemma LeastIsLeast(m: int, points: int, total: int)
    requires 0 <= m && 0 <= points && 100 * points <= m * total
    ensures 100 * points <= m * Least(m, points) <= 100 * points + m
    ensures m > 0 ==> m * Least(m, points) < 100 * points + m && Least(m, points) <= total
  {
    if m > 0 {
      var x := 100 * points + m - 1;
      assert x / m * m + x % m == x && 0 <= x % m < m;
      assert Least(m, points) * m == m * Least(m, points) && (total + 1) * m == m * total + m;
      if Least(m, points) > total {
        MultiplyKeepsOrder(total + 1, Least(m, points), m);
      }
    }
  }

  lemma TopIsWorth(w: int, m: int, hi: int)
    requires 0 <= w && 0 <= m && 0 <= hi
    ensures var top := TopPoints(w, m, hi); 0 <= top <= m * hi / 100 && 100 * top <= m * hi
  {
    MultiplyKeepsOrder(0, hi, m);
    QuotientTimes(m * hi, 100);
  }

  lemma ExactUpToAHundred(m: int, points: int)
    requires 0 <= m <= 100 && 0 <= points
    ensures Exact(m, points)
  {
    if m > 0 {
      MultiplyKeepsOrder(1, m, 100 * points);
      LeastIsLeast(m, points, 100 * points);
    }
  }

  /** A truncated average is worth no more than the largest confidence. */
  lemma PointsAtMost(total: int, n: nat, m: int, hi: int)
    requires n > 0 && 0 <= total <= n * hi && 0 <= m
    ensures var points := (total * m) / (100 * n); points * (100 * n) <= total * m && points <= m * hi / 100
  {
    var points := (total * m) / (100 * n);
    QuotientTimes(total * m, 100 * n);
    MultiplyKeepsOrder(total, n * hi, m);
    assert n * hi * m == m * hi * n && points * (100 * n) == 100 * points * n;
    CancelFactor(100 * points, m * hi, n);
    QuotientAtLeast(m * hi, 100, points);
  }

  lemma Expand(points: int, w: int, n: nat)
    ensures (points - w) * (100 * (n + 1)) == points * (100 * n) + 100 * points - 100 * w - 100 * w * n
  {
  }

  /** In a narrow range the smallest confidence makes up for what the points so far are worth. */
  lemma NarrowMakesUp(w: int, m: int, lo: int, hi: int, n: nat, total: int, points: int)
    requires 0 <= w && 0 <= m && 0 <= lo <= hi && n > 0 && Narrow(w, m, lo, hi)
    requires w == 0 || Exact(m, TopPoints(w, m, hi))
    requires 0 <= points <= TopPoints(w, m, hi) && points * (100 * n) <= total * m
    ensures total * m - points * (100 * n) + m * lo >= 100 * points - 100 * w - 100 * w * n
  {
    var top := TopPoints(w, m, hi);
    TopIsWorth(w, m, hi);
    LeastIsLeast(m, top, hi);
    if w > 0 {
      if n > 1 {
        MultiplyKeepsOrder(2, n, 100 * w);
      } else if points == top && m > 0 {
        assert 100 * top <= m * total;
        LeastIsLeast(m, top, total);
        MultiplyKeepsOrder(Least(m, top), total, m);
      }
    }
  }

  /** In a narrow range one more alert lowers the points that count by at most its weight. */
  lemma AverageDropsLittle(w: int, m: int, lo: int, hi: int, n: nat, total: int, counting: int)
    requires 0 <= w && 0 <= m && 0 <= lo <= hi && n > 0 && n * lo <= total <= n * hi
    requires Narrow(w, m, lo, hi) && (w == 0 || Exact(m, TopPoints(w, m, hi)))
    requires 0 <= counting <= ConfidencePoints(total, n, m) && counting <= 100 - n * w
    ensures ConfidencePoints(total + lo, n + 1, m) >= counting - w
  {
    MultiplyKeepsOrder(0, n, lo);
    PointsAreNotNegative(total, n, m);
    PointsAreNotNegative(total + lo, n + 1, m);
    PointsAtMost(total, n, m, hi);
    MultiplyKeepsOrder(1, n, w);
    MultiplyKeepsOrder(counting, (total * m) / (100 * n), 100 * n);
    NarrowMakesUp(w, m, lo, hi, n, total, counting);
    Expand(counting, w, n);
    assert (total + lo) * m == total * m + m * lo;
    QuotientAtLeast((total + lo) * m, 100 * (n + 1), counting - w);
  }

  lemma NarrowHolds(w: int, m: int, lo: int, hi: int, n: nat, total: int)
    requires 0 <= w && 0 <= m && 0 <= lo <= hi && n > 0 && n * lo <= total <= n * hi
    requires Narrow(w, m, lo, hi) && (w == 0 || Exact(m, TopPoints(w, m, hi)))
    ensures LightHolds(w, m, lo, n, total)
  {
    var points := ConfidencePoints(total, n, m);
    MultiplyKeepsOrder(0, n, lo);
    PointsAreNotNegative(total, n, m);
    PointsAreNotNegative(total + lo, n + 1, m);
    OneMoreTimes(n, w);
    var counting := if n * w + points <= 100 then points else 100 - n * w;
    if counting >= 0 {
      AverageDropsLittle(w, m, lo, hi, n, total, counting);
    }
  }

  lemma SecondFalls(w: int, m: int, lo: int, total: int, top: int)
    requires 0 < w && 0 <= m && 0 <= lo && 0 <= total && w + top <= 100
    requires 100 * top <= m * total && m * total + m * lo < 200 * (top - w)
    ensures !LightHolds(w, m, lo, 1, total)
  {
    QuotientAtLeast(total * m, 100, top);
    assert (total + lo) * m == m * total + m * lo;
    QuotientBelow((total + lo) * m, 200, top - w);
    MultiplyKeepsOrder(0, total, m);
    MultiplyKeepsOrder(0, total + lo, m);
  }

  /** In a wide range an alert worth the top points scores more alone than with one of the smallest confidence. */
  lemma WideWithWeight(w: int, m: int, lo: int, hi: int)
    requires 0 < w && 0 <= m && 0 <= lo <= hi && !Narrow(w, m, lo, hi)
    ensures var total := Least(m, TopPoints(w, m, hi)); 1 * lo <= total <= 1 * hi && !LightHolds(w, m, lo, 1, total)
  {
    var top := TopPoints(w, m, hi);
    var total := Least(m, top);
    TopIsWorth(w, m, hi);
    LeastIsLeast(m, top, hi);
    MultiplyKeepsOrder(0, lo, m);
    assert m > 0;
    assert lo * m <= total * m;
    CancelFactor(lo, total, m);
    SecondFalls(w, m, lo, total, top);
  }

  /** Without a weight, alerts that are worth the top points on average to the last hundredth show the fall. */
  lemma WideWithoutWeight(m: int, lo: int, hi: int)
    requires 0 <= m && 0 <= lo <= hi && !Narrow(0, m, lo, hi)
    ensures var total := 100 * TopPoints(0, m, hi); 0 < m && m * lo <= total <= m * hi && !LightHolds(0, m, lo, m, total)
  {
    var top := TopPoints(0, m, hi);
    TopIsWorth(0, m, hi);
    var total := 100 * top;
    MultiplyKeepsOrder(0, lo, m);
    assert m > 0;
    assert total * m == top * (100 * m);
    QuotientAtLeast(total * m, 100 * m, top);
    assert (total + lo) * m == total * m + m * lo && top * (100 * (m + 1)) == top * (100 * m) + 100 * top;
    QuotientBelow((total + lo) * m, 100 * (m + 1), top);
    MultiplyKeepsOrder(0, total + lo, m);
    MultiplyKeepsOrder(0, total, m);
  }

  lemma NarrowIff(w: int, m: int, lo: int, hi: int)
    requires 0 <= w && 0 <= m && 0 <= lo <= hi && (w == 0 || Exact(m, TopPoints(w, m, hi)))
    ensures LightNeverFalls(w, m, lo, hi) <==> Narrow(w, m, lo, hi)
  {
    if Narrow(w, m, lo, hi) {
      forall n: nat, total: int | n > 0 && n * lo <= total <= n * hi ensures LightHolds(w, m, lo, n, total) {
        NarrowHolds(w, m, lo, hi, n, total);
      }
    } else if w > 0 {
      WideWithWeight(w, m, lo, hi);
    } else {
      WideWithoutWeight(m, lo, hi);
    }
  }

  /**
   * Exactly when adding alerts never lowers a score, for alerts with confidences in a range: when the range is narrow.
   */
  lemma MonotoneIff(settings: Settings, lo: int, hi: int)
    requires Fair(settings) && 0 <= lo <= hi
    requires var w, m := SmallestWeight(settings), settings.multiplier; w == 0 || Exact(m, TopPoints(w, m, hi))
    ensures MonotoneWithin(settings, lo, hi) <==> Narrow(SmallestWeight(settings), settings.multiplier, lo, hi)
  {
    LightAlertsDecide(settings, lo, hi);
    NarrowIff(SmallestWeight(settings), settings.multiplier, lo, hi);
  }

  /** For every multiplier up to a hundred, and without a weight for every multiplier, that needs no more. */
  lemma MonotoneIffUpToAHundred(settings: Settings, lo: int, hi: int)
    requires Fair(settings) && 0 <= lo <= hi && (settings.multiplier <= 100 || SmallestWeight(settings) == 0)
    ensures MonotoneWithin(settings, lo, hi) <==> Narrow(SmallestWeight(settings), settings.multiplier, lo, hi)
  {
    var w, m := SmallestWeight(settings), settings.multiplier;
    TopIsWorth(w, m, hi);
    if m <= 100 {
      ExactUpToAHundred(m, TopPoints(w, m, hi));
    }
    MonotoneIff(settings, lo, hi);
  }

  /** In a narrow range adding alerts lowers neither the score nor the severity. */
  lemma ScoreIsMonotone(a: seq<Alert>, b: seq<Alert>, settings: Settings, lo: int, hi: int)
    requires Fair(settings) && 0 <= lo <= hi && Within(b, lo, hi) && multiset(a) <= multiset(b)
    requires var w, m := SmallestWeight(settings), settings.multiplier;
      Narrow(w, m, lo, hi) && (w == 0 || Exact(m, TopPoints(w, m, hi)))
    ensures ScoreOf(a, settings) <= ScoreOf(b, settings)
    ensures Rank(SeverityFromScore(ScoreOf(a, settings))) <= Rank(SeverityFromScore(ScoreOf(b, settings)))
  {
    MonotoneIff(settings, lo, hi);
    HigherScoreHigherRank(ScoreOf(a, settings), ScoreOf(b, settings));
  }

  /**
   * With the default settings: when the confidences reach at most 0.50 below the largest, rounded down to a multiple of
   * 0.05. The detection rules report 0.60 to 0.90, so theirs do.
   */
  lemma DefaultsAreMonotoneIff(lo: int, hi: int)
    requires 0 <= lo <= hi <= 100
    ensures MonotoneWithin(DEFAULTS, lo, hi) <==> hi / 5 * 5 - lo <= 50
  {
    MonotoneIffUpToAHundred(DEFAULTS, lo, hi);
    assert 20 * hi / 100 == hi / 5;
  }
}
