/**
 * The score interpreter of the dashboard: the three per-score captions
 * (Piotroski F-Score, Montier C-Score, Ohlson O-Score) and the overall
 * verdict banner with its background colour.
 *
 * Scores are `real`: the dashboard compares whatever numbers the spreadsheet
 * holds, so fractional values at the boundaries (a C-Score of 1.5 or 3.5)
 * are classified exactly as the dashboard's comparisons classify them.
 */
module Scores {

  /** Caption of the Piotroski F-Score card. */
  datatype Strength = Strong | Moderate | Weak {
    function Text(): string {
      match this
      case Strong => "Strong"
      case Moderate => "Moderate"
      case Weak => "Weak"
    }
  }

  /** Caption of the Montier C-Score card. */
  datatype Risk = LowRisk | ModerateRisk | HighRisk {
    function Text(): string {
      match this
      case LowRisk => "Low Risk"
      case ModerateRisk => "Moderate Risk"
      case HighRisk => "High Risk"
    }
  }

  /** Caption of the Ohlson O-Score card. */
  datatype Stability = Stable | AtRisk {
    function Text(): string {
      match this
      case Stable => "Stable"
      case AtRisk => "At Risk"
    }
  }

  /** The overall interpretation banner: its text (with its emoji) and its background colour. */
  datatype Verdict = Healthy | HighForensicRisk | Watchlist {
    function Text(): string {
      match this
      case Healthy => "\U{1F7E2} Financially Healthy"
      case HighForensicRisk => "\U{1F534} High Forensic Risk"
      case Watchlist => "\U{1F7E1} Watchlist Company"
    }

    function Colour(): string {
      match this
      case Healthy => "#1f7a1f"
      case HighForensicRisk => "#7a1f1f"
      case Watchlist => "#7a6a1f"
    }

    /** How alarming the banner is: Healthy < Watchlist < High Forensic Risk. */
    function Severity(): nat {
      match this
      case Healthy => 0
      case Watchlist => 1
      case HighForensicRisk => 2
    }
  }

  /** The F-Score caption: first match of `f >= 7`, `f >= 4`, otherwise Weak. */
  function FLabel(f: real): (l: Strength)
    ensures l == Strong <==> 7.0 <= f
    ensures l == Moderate <==> 4.0 <= f < 7.0
    ensures l == Weak <==> f < 4.0
  {
    if f >= 7.0 then Strong else if f >= 4.0 then Moderate else Weak
  }

  /** The C-Score caption: first match of `c <= 1`, `c <= 3`, otherwise High Risk. */
  function CLabel(c: real): (l: Risk)
    ensures l == LowRisk <==> c <= 1.0
    ensures l == ModerateRisk <==> 1.0 < c <= 3.0
    ensures l == HighRisk <==> 3.0 < c
  {
    if c <= 1.0 then LowRisk else if c <= 3.0 then ModerateRisk else HighRisk
  }

  /** The O-Score caption: Stable up to and including 1. */
  function OLabel(o: real): (l: Stability)
    ensures l == Stable <==> o <= 1.0
    ensures l == AtRisk <==> 1.0 < o
  {
    if o <= 1.0 then Stable else AtRisk
  }

  /** Guard of the first branch of the verdict chain. */
  predicate HealthyCondition(f: real, c: real, o: real) {
    f >= 7.0 && c <= 1.0 && o <= 1.0
  }

  /** Guard of the second branch of the verdict chain. */
  predicate RiskCondition(c: real, o: real) {
    c >= 4.0 || o >= 3.0
  }

  /**
   * The overall verdict: an ordered if / elif / else chain, first match wins.
   * The contract says which verdict each region of inputs gets, taking the
   * order of the branches into account.
   */
  function Overall(f: real, c: real, o: real): (v: Verdict)
    ensures v == Healthy <==> HealthyCondition(f, c, o)
    ensures v == HighForensicRisk <==> !HealthyCondition(f, c, o) && RiskCondition(c, o)
    ensures v == Watchlist <==> !HealthyCondition(f, c, o) && !RiskCondition(c, o)
  {
    if HealthyCondition(f, c, o) then Healthy
    else if RiskCondition(c, o) then HighForensicRisk
    else Watchlist
  }

  /** The first two branches can never both hold, so their order does not matter. */
  lemma BranchesExclusive(f: real, c: real, o: real)
    ensures !(HealthyCondition(f, c, o) && RiskCondition(c, o))
  {
  }

  /** Hence High Forensic Risk is given exactly when `c >= 4 or o >= 3`, whatever `f` is. */
  lemma RiskVerdictExactly(f: real, c: real, o: real)
    ensures Overall(f, c, o) == HighForensicRisk <==> RiskCondition(c, o)
  {
    BranchesExclusive(f, c, o);
  }

  /** The verdict banner always has one of three distinct colours, one per verdict. */
  lemma VerdictColourIdentifiesVerdict(v: Verdict, w: Verdict)
    ensures v.Colour() == w.Colour() <==> v == w
  {
    if v != w {
      assert v.Colour()[2] != w.Colour()[2] || v.Colour()[3] != w.Colour()[3];
    }
  }

  /** Healthy is given exactly when all three captions are the best ones. */
  lemma HealthyIffBestLabels(f: real, c: real, o: real)
    ensures Overall(f, c, o) == Healthy <==>
              FLabel(f) == Strong && CLabel(c) == LowRisk && OLabel(o) == Stable
  {
  }

  /** A High Forensic Risk verdict is always backed by a High Risk or an At Risk caption. */
  lemma RiskVerdictHasRiskLabel(f: real, c: real, o: real)
    requires Overall(f, c, o) == HighForensicRisk
    ensures CLabel(c) == HighRisk || OLabel(o) == AtRisk
  {
  }

  /**
   * The captions use `c > 3` and the verdict `c >= 4`. For a whole-number
   * C-Score the two agree: a High Risk caption forces a High Forensic Risk verdict.
   */
  lemma IntegralHighRiskForcesRiskVerdict(f: real, c: real, o: real)
    requires c == c.Floor as real
    requires CLabel(c) == HighRisk
    ensures Overall(f, c, o) == HighForensicRisk
  {
    assert 3 < c.Floor;
    RiskVerdictExactly(f, c, o);
  }

  /** For a fractional C-Score between 3 and 4 the two boundaries disagree. */
  lemma FractionalHighRiskMayBeWatchlist()
    ensures CLabel(3.5) == HighRisk && OLabel(0.0) == Stable
    ensures Overall(9.0, 3.5, 0.0) == Watchlist
  {
  }

  /** Boundary values and verdicts worked through by hand. */
  lemma BoundaryExamples()
    ensures FLabel(4.0) == Moderate && FLabel(3.999) == Weak && FLabel(7.0) == Strong
    ensures CLabel(1.0) == LowRisk && CLabel(1.5) == ModerateRisk && CLabel(3.0) == ModerateRisk
    ensures OLabel(1.0) == Stable && OLabel(1.0001) == AtRisk
    ensures Overall(7.0, 1.0, 1.0) == Healthy
    ensures Overall(7.0, 1.0, 3.0) == HighForensicRisk
    ensures Overall(5.0, 2.0, 0.5) == Watchlist
    ensures Overall(5.0, 2.0, 0.5).Text() == "\U{1F7E1} Watchlist Company"
  {
  }

  /**
   * Each caption is monotone in its score: a larger F-Score never gives a worse
   * caption, a larger C- or O-Score never a better one.
   */
  lemma LabelsMonotone(x: real, y: real)
    requires x <= y
    ensures FLabel(x) == Strong ==> FLabel(y) == Strong
    ensures FLabel(y) == Weak ==> FLabel(x) == Weak
    ensures CLabel(y) == LowRisk ==> CLabel(x) == LowRisk
    ensures CLabel(x) == HighRisk ==> CLabel(y) == HighRisk
    ensures OLabel(y) == Stable ==> OLabel(x) == Stable
  {
  }

  /**
   * The verdict is monotone: a higher F-Score, a lower C-Score and a lower
   * O-Score never make the banner more alarming.
   */
  lemma OverallMonotone(f1: real, c1: real, o1: real, f2: real, c2: real, o2: real)
    requires f1 <= f2 && c2 <= c1 && o2 <= o1
    ensures Overall(f2, c2, o2).Severity() <= Overall(f1, c1, o1).Severity()
  {
  }
}
