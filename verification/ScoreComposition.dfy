/** What an incident's score is made of: alerts by severity, their average confidence, and the rules that fired. */
module ScoreComposition {
  import opened RiskScoring
  import opened Totals

  function OfSeverity(alerts: seq<Alert>, severity: string): set<int> {
    set i | 0 <= i < |alerts| && alerts[i].severity == severity
  }

  /** Every severity that is none of the three others counts as low. */
  function OfNone(alerts: seq<Alert>): set<int> {
    set i | 0 <= i < |alerts|
      && alerts[i].severity != "critical" && alerts[i].severity != "high" && alerts[i].severity != "medium"
  }

  ghost predicate Fired(alerts: seq<Alert>, rule: string) {
    exists i :: 0 <= i < |alerts| && alerts[i].ruleId == rule
  }

  // ---------------------------------------------------------------- weights

  lemma {:induction false} OneMoreOfSeverity(front: seq<Alert>, last: Alert, severity: string)
    ensures |OfSeverity(front + [last], severity)|
         == |OfSeverity(front, severity)| + (if last.severity == severity then 1 else 0)
  {
    var all, before := OfSeverity(front + [last], severity), OfSeverity(front, severity);
    assert all == if last.severity == severity then before + {|front|} else before;
  }

  lemma {:induction false} OneMoreOfNone(front: seq<Alert>, last: Alert)
    ensures |OfNone(front + [last])| == |OfNone(front)|
      + (if last.severity != "critical" && last.severity != "high" && last.severity != "medium" then 1 else 0)
  {
    var all, before := OfNone(front + [last]), OfNone(front);
    assert all == if last.severity != "critical" && last.severity != "high" && last.severity != "medium"
      then before + {|front|} else before;
  }

  /** The weights of so many alerts of each severity. */
  function Weights(critical: int, high: int, medium: int, low: int, settings: Settings): int {
    critical * (settings.high + 10) + high * settings.high + medium * settings.medium + low * settings.low
  }

  lemma Distributes(a: int, w: int)
    ensures (a + 1) * w == a * w + w
  {
  }

  lemma {:induction false} OneMoreWeight(c: int, h: int, m: int, l: int, severity: string, settings: Settings)
    ensures var w := settings.Weight(severity);
      if severity == "critical" then Weights(c + 1, h, m, l, settings) == Weights(c, h, m, l, settings) + w
      else if severity == "high" then Weights(c, h + 1, m, l, settings) == Weights(c, h, m, l, settings) + w
      else if severity == "medium" then Weights(c, h, m + 1, l, settings) == Weights(c, h, m, l, settings) + w
      else Weights(c, h, m, l + 1, settings) == Weights(c, h, m, l, settings) + w
  {
    Distributes(c, settings.high + 10);
    Distributes(h, settings.high);
    Distributes(m, settings.medium);
    Distributes(l, settings.low);
  }

  function WeightsOf(alerts: seq<Alert>, settings: Settings): int {
    Weights(|OfSeverity(alerts, "critical")|, |OfSeverity(alerts, "high")|, |OfSeverity(alerts, "medium")|,
            |OfNone(alerts)|, settings)
  }

  lemma {:induction false} WeightsCount(alerts: seq<Alert>, settings: Settings)
    ensures Total(alerts, Weighing(settings)) == WeightsOf(alerts, settings)
    decreases |alerts|
  {
    if alerts == [] {
      NoAlerts(alerts);
    } else {
      var front, last := alerts[..|alerts| - 1], alerts[|alerts| - 1];
      assert alerts == front + [last];
      WeightsCount(front, settings);
      OneMoreOfSeverity(front, last, "critical");
      OneMoreOfSeverity(front, last, "high");
      OneMoreOfSeverity(front, last, "medium");
      OneMoreOfNone(front, last);
      OneMoreWeight(|OfSeverity(front, "critical")|, |OfSeverity(front, "high")|, |OfSeverity(front, "medium")|,
                    |OfNone(front)|, last.severity, settings);
    }
  }

  lemma {:induction false} NoAlerts(alerts: seq<Alert>)
    requires |alerts| == 0
    ensures |OfNone(alerts)| == 0 && forall severity :: |OfSeverity(alerts, severity)| == 0
  {
    var none := OfNone(alerts);
    assert none == {};
    forall severity ensures |OfSeverity(alerts, severity)| == 0 {
      var some := OfSeverity(alerts, severity);
      assert some == {};
    }
  }

  // ---------------------------------------------------------------- bonuses

  /** A login after failures together with an attack on passwords. */
  ghost predicate Combination(alerts: seq<Alert>) {
    Fired(alerts, "rule_005_login_after_failures")
    && (Fired(alerts, "rule_001_brute_force") || Fired(alerts, "rule_002_password_spray"))
  }

  ghost predicate Support(alerts: seq<Alert>) {
    Fired(alerts, "rule_003_suspicious_privilege_change") || Fired(alerts, "rule_004_large_download")
  }

  lemma {:induction false} FiredIsListed(alerts: seq<Alert>, rule: string)
    ensures rule in RuleIds(alerts) <==> Fired(alerts, rule)
  {
    if rule in RuleIds(alerts) {
      var a :| a in alerts && a.ruleId == rule;
      var i :| 0 <= i < |alerts| && alerts[i] == a;
    }
  }

  lemma {:induction false} BonusFor(alerts: seq<Alert>, settings: Settings)
    ensures Bonus(RuleIds(alerts), settings)
      == (if Combination(alerts) then settings.combo else 0) + (if Support(alerts) then settings.supporting else 0)
  {
    FiredIsListed(alerts, "rule_001_brute_force");
    FiredIsListed(alerts, "rule_002_password_spray");
    FiredIsListed(alerts, "rule_003_suspicious_privilege_change");
    FiredIsListed(alerts, "rule_004_large_download");
    FiredIsListed(alerts, "rule_005_login_after_failures");
  }

  // ---------------------------------------------------------------- the score

  /** The whole number of points that an average is worth: not more than it, and less than one below it. */
  predicate WholePoints(points: int, total: int, count: int, multiplier: int) {
    points * (100 * count) <= total * multiplier < (points + 1) * (100 * count)
  }

  lemma {:induction false} PointsAreWhole(total: int, count: nat, multiplier: int)
    requires count > 0 && 0 <= total && 0 <= multiplier
    ensures WholePoints(ConfidencePoints(total, count, multiplier), total, count, multiplier)
  {
    PointsAreNotNegative(total, count, multiplier);
    var d, x := 100 * count, total * multiplier;
    assert x / d * d + x % d == x && 0 <= x % d < d;
    Distributes(x / d, d);
  }

  function Between(low: int, x: int, high: int): int {
    if x < low then low else if x > high then high else x
  }

  /**
   * The score of an incident with alerts: the weights of its alerts by severity, the whole points of their average
   * confidence, and the bonuses of the rules that fired, within 0 and 100.
   */
  lemma {:induction false} ScoreIsComposed(alerts: seq<Alert>, settings: Settings)
    requires alerts != [] && 0 <= settings.multiplier && forall a | a in alerts :: 0 <= a.confidence
    ensures exists points :: (WholePoints(points, Total(alerts, Confiding()), |alerts|, settings.multiplier)
      && ScoreOf(alerts, settings) == Between(0, WeightsOf(alerts, settings) + points
           + (if Combination(alerts) then settings.combo else 0) + (if Support(alerts) then settings.supporting else 0), 100))
  {
    WeightsCount(alerts, settings);
    BonusFor(alerts, settings);
    NonNegativeTotal(alerts);
    PointsAreWhole(Total(alerts, Confiding()), |alerts|, settings.multiplier);
    var points := ConfidencePoints(Total(alerts, Confiding()), |alerts|, settings.multiplier);
    assert WholePoints(points, Total(alerts, Confiding()), |alerts|, settings.multiplier);
  }

  lemma {:induction false} NonNegativeTotal(alerts: seq<Alert>)
    requires forall a | a in alerts :: 0 <= a.confidence
    ensures 0 <= Total(alerts, Confiding())
    decreases |alerts|
  {
    if alerts != [] {
      assert alerts[|alerts| - 1] in alerts && forall a | a in alerts[..|alerts| - 1] :: a in alerts;
      NonNegativeTotal(alerts[..|alerts| - 1]);
    }
  }

  /** With the default settings: 30, 20, 10 and 5 by severity, 20 for certainty, 15 and 10 for the rules. */
  lemma {:induction false} DefaultScore(alerts: seq<Alert>)
    requires alerts != [] && forall a | a in alerts :: 0 <= a.confidence
    ensures exists points :: (WholePoints(points, Total(alerts, Confiding()), |alerts|, 20)
      && ScoreOf(alerts, DEFAULTS) == Between(0,
           30 * |OfSeverity(alerts, "critical")| + 20 * |OfSeverity(alerts, "high")|
           + 10 * |OfSeverity(alerts, "medium")| + 5 * |OfNone(alerts)| + points
           + (if Combination(alerts) then 15 else 0) + (if Support(alerts) then 10 else 0), 100))
  {
    ScoreIsComposed(alerts, DEFAULTS);
  }

  function Reached(score: int, threshold: int): nat {
    if score >= threshold then 1 else 0
  }

  /** The severity rises by one rank at each of 35, 65 and 85. */
  lemma {:induction false} SeverityByThresholds(score: int)
    ensures Rank(SeverityFromScore(score)) == Reached(score, 35) + Reached(score, 65) + Reached(score, 85)
    ensures SeverityFromScore(score) in {"low", "medium", "high", "critical"}
  {
  }
}
