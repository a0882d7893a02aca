/**
 * One interaction of the dashboard, as a pure computation: given the uploaded
 * table and the selected company, pick the latest record and interpret it
 * (the three score captions, the verdict banner and the accrual card colour).
 */
module Dashboard {
  import opened Wrappers
  import opened Scores
  import opened Accruals
  import opened Records

  /** Everything the page derives from the scored record. */
  datatype Report = Report(
    strength: Strength,
    risk: Risk,
    stability: Stability,
    verdict: Verdict,
    zoneColour: string)

  /** Interprets one record: the captions, the verdict and the zone colour. */
  function Interpret(r: Record): (rep: Report)
    ensures rep.strength == FLabel(r.f) && rep.risk == CLabel(r.c) && rep.stability == OLabel(r.o)
    ensures rep.verdict == Overall(r.f, r.c, r.o)
    ensures rep.zoneColour == ZoneColour(r.zone)
    ensures rep.verdict == Healthy <==> HealthyCondition(r.f, r.c, r.o)
    ensures rep.verdict == Healthy <==>
              rep.strength == Strong && rep.risk == LowRisk && rep.stability == Stable
    ensures rep.verdict == HighForensicRisk ==> rep.risk == HighRisk || rep.stability == AtRisk
    ensures rep.verdict == HighForensicRisk <==> RiskCondition(r.c, r.o)
    ensures rep.zoneColour == Red <==> !NamedZone(r.zone)
  {
    HealthyIffBestLabels(r.f, r.c, r.o);
    RiskVerdictExactly(r.f, r.c, r.o);
    var v := Overall(r.f, r.c, r.o);
    Report(FLabel(r.f), CLabel(r.c), OLabel(r.o), v, ZoneColour(r.zone))
  }

  /**
   * The page for a selected company: None when the company has no rows,
   * otherwise the interpretation of one of its latest records.
   */
  function Page(rows: seq<Record>, company: string): (page: Option<Report>)
    ensures page.None? <==> forall x :: x in rows ==> x.company != company
    ensures page.Some? ==>
              exists r :: IsLatest(rows, company, r) && page.value == Interpret(r)
  {
    match LatestRecord(rows, company)
    case None => None
    case Some(r) => Some(Interpret(r))
  }

  /** A company offered by the selector always gets a page. */
  lemma SelectedCompanyGetsPage(rows: seq<Record>, company: string)
    requires company in Companies(rows)
    ensures Page(rows, company).Some?
  {
    SelectableCompanyHasLatest(rows, company);
  }

  /**
   * When a company's latest year is held by one row only, the page is fully
   * determined: it interprets that row.
   */
  lemma UniqueLatestDeterminesPage(rows: seq<Record>, company: string, r: Record)
    requires IsLatest(rows, company, r)
    requires forall x :: x in rows && x.company == company && x.year == r.year ==> x == r
    ensures Page(rows, company) == Some(Interpret(r))
  {
    assert r in rows;
    var page := Page(rows, company);
    var q :| IsLatest(rows, company, q) && page.value == Interpret(q);
    LatestYearsAgree(rows, company, q, r);
  }

  /**
   * A company with a healthy 2022 and a distressed 2023: the 2023 record is
   * scored, giving Weak / High Risk / At Risk and a High Forensic Risk banner.
   */
  lemma AcmeScenario()
    ensures
      var old22 := Record("Acme", 2022, 8.0, 0.0, 0.5, EarlyWarningZone);
      var new23 := Record("Acme", 2023, 3.0, 5.0, 3.2, EarlyWarningZone);
      var page := Page([old22, new23], "Acme");
      && page == Some(Report(Weak, HighRisk, AtRisk, HighForensicRisk, Amber))
      && page.value.verdict.Colour() == "#7a1f1f"
  {
    var old22 := Record("Acme", 2022, 8.0, 0.0, 0.5, EarlyWarningZone);
    var new23 := Record("Acme", 2023, 3.0, 5.0, 3.2, EarlyWarningZone);
    var rows := [old22, new23];
    assert IsLatest(rows, "Acme", new23);
    UniqueLatestDeterminesPage(rows, "Acme", new23);
  }
}
