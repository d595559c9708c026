/**
 Budget reports and the manager that collects them (packages/atlas-core/src/budget.rs).
 A report carries a severity and an observed value; the run summary is the worst report.
 */
module Budget {
  import opened Wrappers

  datatype HitBehavior = Clamp | Partial | FailClosed

  datatype Status = WithinBudget | OverrideClamped | PartialResult | Blocked {
    function Severity(): nat {
      match this
      case WithinBudget => 0
      case OverrideClamped => 1
      case PartialResult => 2
      case Blocked => 3
    }
  }

  datatype LimitRule = LimitRule(defaultLimit: nat, maxLimit: nat, hitBehavior: HitBehavior, safeToAnswerOnHit: bool)

  datatype Report = Report(
    status: Status, hit: bool, name: string, limit: nat, observed: nat, partial: bool, safeToAnswer: bool)
  {
    predicate IsWorseThan(other: Report) {
      || status.Severity() > other.status.Severity()
      || (status.Severity() == other.status.Severity() && observed > other.observed)
    }

    function Merge(other: Report): Report {
      if other.IsWorseThan(this) then other else this
    }
  }

  function WithinBudgetReport(name: string, limit: nat, observed: nat): Report {
    Report(WithinBudget, false, name, limit, observed, false, true)
  }

  function NotApplicable(): Report {
    WithinBudgetReport("none", 0, 0)
  }

  function OverrideClampedReport(name: string, limit: nat, observed: nat): Report {
    Report(OverrideClamped, true, name, limit, observed, false, true)
  }

  function PartialReport(name: string, limit: nat, observed: nat, safe: bool): Report {
    Report(PartialResult, true, name, limit, observed, true, safe)
  }

  function BlockedReport(name: string, limit: nat, observed: nat): Report {
    Report(Blocked, true, name, limit, observed, false, false)
  }

  /** The reports `record_usage` adds: none while usage is within the limit and complete. */
  function UsageReports(rule: LimitRule, name: string, limit: nat, observed: nat, partial: bool): seq<Report> {
    if observed <= limit && !partial then []
    else if rule.hitBehavior.FailClosed? then [BlockedReport(name, limit, observed)]
    else [PartialReport(name, limit, observed, rule.safeToAnswerOnHit)]
  }

  /** The report an over-large override leaves, by the rule's behaviour. */
  function ClampedReport(rule: LimitRule, name: string, observed: nat): Report {
    match rule.hitBehavior
    case Clamp => OverrideClampedReport(name, rule.maxLimit, observed)
    case Partial => PartialReport(name, rule.maxLimit, observed, rule.safeToAnswerOnHit)
    case FailClosed => BlockedReport(name, rule.maxLimit, observed)
  }

  /** The report says which limit was met, where it lies and what was seen; its flags follow from its status. */
  ghost predicate Says(r: Report, status: Status, name: string, limit: nat, observed: nat, safe: bool) {
    && r.status == status && r.name == name && r.limit == limit && r.observed == observed
    && r.hit == (status != WithinBudget) && r.partial == (status == PartialResult) && r.safeToAnswer == safe
  }

  /** Exceeding a limit, or being cut short by it, blocks under a fail-closed rule and is a partial result otherwise. */
  lemma UsageReportSays(rule: LimitRule, name: string, limit: nat, observed: nat, partial: bool)
    ensures var rs := UsageReports(rule, name, limit, observed, partial);
            if observed > limit || partial then
              |rs| == 1 && if rule.hitBehavior == FailClosed then Says(rs[0], Blocked, name, limit, observed, false)
                           else Says(rs[0], PartialResult, name, limit, observed, rule.safeToAnswerOnHit)
            else rs == []
  {}

  lemma ClampedReportSays(rule: LimitRule, name: string, observed: nat)
    ensures var r := ClampedReport(rule, name, observed);
            && (rule.hitBehavior == Clamp ==> Says(r, OverrideClamped, name, rule.maxLimit, observed, true))
            && (rule.hitBehavior == Partial ==>
                  Says(r, PartialResult, name, rule.maxLimit, observed, rule.safeToAnswerOnHit))
            && (rule.hitBehavior == FailClosed ==> Says(r, Blocked, name, rule.maxLimit, observed, false))
  {}

  /** `r` is at index `i` and nothing in `rs` is worse. */
  ghost predicate WorstAt(rs: seq<Report>, i: int) {
    0 <= i < |rs| && forall j :: 0 <= j < |rs| ==> !rs[j].IsWorseThan(rs[i])
  }

  ghost predicate LastWorstAt(rs: seq<Report>, i: int) {
    WorstAt(rs, i) && forall j :: i < j < |rs| ==> rs[i].IsWorseThan(rs[j])
  }

  ghost predicate FirstWorstAt(rs: seq<Report>, i: int) {
    WorstAt(rs, i) && forall j :: 0 <= j < i ==> rs[i].IsWorseThan(rs[j])
  }

  /** Left fold of `merge` over a report list. */
  function MergeAll(start: Report, rs: seq<Report>): Report {
    if rs == [] then start else MergeAll(start, rs[..|rs| - 1]).Merge(rs[|rs| - 1])
  }

  class BudgetManager {
    var reports: seq<Report>

    constructor ()
      ensures reports == []
    {
      reports := [];
    }

    method RecordUsage(rule: LimitRule, name: string, limit: nat, observed: nat, partial: bool)
      modifies this
      ensures reports == old(reports) + UsageReports(rule, name, limit, observed, partial)
    {
      if observed <= limit && !partial {
        return;
      }
      var report := if rule.hitBehavior.FailClosed? then BlockedReport(name, limit, observed)
                    else PartialReport(name, limit, observed, rule.safeToAnswerOnHit);
      reports := reports + [report];
    }

    method RecordReport(report: Report)
      modifies this
      ensures reports == old(reports) + (if report.hit then [report] else [])
    {
      if report.hit {
        reports := reports + [report];
      }
    }

    /** An over-large override is cut to the rule's maximum and leaves exactly one report behind. */
    method ResolveLimit(rule: LimitRule, name: string, requested: Option<nat>) returns (limit: nat)
      modifies this
      ensures var wanted := if requested.Some? then requested.value else rule.defaultLimit;
              && limit <= rule.maxLimit
              && (wanted <= rule.maxLimit ==> limit == wanted && reports == old(reports))
              && (wanted > rule.maxLimit ==>
                    limit == rule.maxLimit && reports == old(reports) + [ClampedReport(rule, name, wanted)])
    {
      var observed := if requested.Some? then requested.value else rule.defaultLimit;
      if observed <= rule.maxLimit {
        return observed;
      }
      reports := reports + [ClampedReport(rule, name, observed)];
      limit := rule.maxLimit;
    }

    /** The worst report; the last one among equally bad ones, as an iterator maximum keeps the last. */
    method Summary(defaultName: string, limit: nat, observed: nat) returns (worst: Report)
      ensures reports == [] ==> worst == WithinBudgetReport(defaultName, limit, observed)
      ensures reports != [] ==> exists i :: LastWorstAt(reports, i) && worst == reports[i]
    {
      if reports == [] {
        return WithinBudgetReport(defaultName, limit, observed);
      }
      var best := 0;
      for k := 1 to |reports|
        invariant best < k
        invariant LastWorstAt(reports[..k], best)
      {
        assert reports[..k + 1] == reports[..k] + [reports[k]];
        if !reports[best].IsWorseThan(reports[k]) {
          best := k;
        }
      }
      assert reports[..|reports|] == reports;
      worst := reports[best];
    }
  }

  /** Folding `merge` keeps the start unless something is worse, and then the FIRST of the worst reports. */
  lemma {:induction false} MergeAllPicksFirstWorst(start: Report, rs: seq<Report>)
    ensures forall j :: 0 <= j < |rs| ==> !rs[j].IsWorseThan(MergeAll(start, rs))
    ensures !start.IsWorseThan(MergeAll(start, rs))
    ensures MergeAll(start, rs) == start || exists i :: FirstWorstAt(rs, i) && rs[i] == MergeAll(start, rs)
  {
    if rs != [] {
      var n := |rs| - 1;
      var init := rs[..n];
      MergeAllPicksFirstWorst(start, init);
      var m := MergeAll(start, init);
      if rs[n].IsWorseThan(m) {
        assert FirstWorstAt(rs, n) by {
          forall j | 0 <= j < n ensures rs[n].IsWorseThan(rs[j]) { assert !init[j].IsWorseThan(m); }
        }
      } else {
        forall j | 0 <= j < |rs| ensures !rs[j].IsWorseThan(MergeAll(start, rs)) {
          if j < n { assert rs[j] == init[j]; }
        }
        if m != start {
          var i :| FirstWorstAt(init, i) && init[i] == m;
          assert FirstWorstAt(rs, i) by {
            forall j | 0 <= j < |rs| ensures !rs[j].IsWorseThan(rs[i]) { if j < n { assert rs[j] == init[j]; } }
            forall j | 0 <= j < i ensures rs[i].IsWorseThan(rs[j]) { assert rs[j] == init[j]; }
          }
        }
      }
    }
  }

  /** Summary and folded merge agree on severity and observed value for every list of hits. */
  lemma SummaryAgreesWithMerge(rs: seq<Report>, i: int)
    requires LastWorstAt(rs, i)
    requires forall j :: 0 <= j < |rs| ==> rs[j].status.Severity() > 0
    ensures MergeAll(NotApplicable(), rs).status == rs[i].status
    ensures MergeAll(NotApplicable(), rs).observed == rs[i].observed
  {
    MergeAllPicksFirstWorst(NotApplicable(), rs);
    assert rs[i].IsWorseThan(NotApplicable());
    var f :| FirstWorstAt(rs, f) && rs[f] == MergeAll(NotApplicable(), rs);
    assert !rs[f].IsWorseThan(rs[i]) && !rs[i].IsWorseThan(rs[f]);
  }

  lemma FirstWorstUnique(rs: seq<Report>, i: int, j: int)
    requires FirstWorstAt(rs, i) && FirstWorstAt(rs, j)
    ensures i == j
  {
    var forward, backward := rs[i].IsWorseThan(rs[j]), rs[j].IsWorseThan(rs[i]);
  }

  /** They return the very same report exactly when the first and the last worst entries are equal. */
  lemma SummaryEqualsMergeIff(rs: seq<Report>, first: int, last: int)
    requires FirstWorstAt(rs, first) && LastWorstAt(rs, last)
    requires forall j :: 0 <= j < |rs| ==> rs[j].status.Severity() > 0
    ensures MergeAll(NotApplicable(), rs) == rs[last] <==> rs[first] == rs[last]
  {
    var merged := MergeAll(NotApplicable(), rs);
    MergeAllPicksFirstWorst(NotApplicable(), rs);
    assert rs[last].IsWorseThan(NotApplicable());
    var f :| FirstWorstAt(rs, f) && rs[f] == merged;
    FirstWorstUnique(rs, f, first);
  }

  /** The two ways of picking one report give the same one. */
  ghost predicate PicksAgree(rs: seq<Report>) {
    forall i :: LastWorstAt(rs, i) ==> MergeAll(NotApplicable(), rs) == rs[i]
  }

  ghost predicate IsWorst(rs: seq<Report>, r: Report) {
    r in rs && forall s :: s in rs ==> !s.IsWorseThan(r)
  }

  /** No two different reports are both worst. */
  ghost predicate NoWorstTies(rs: seq<Report>) {
    forall a, b :: IsWorst(rs, a) && IsWorst(rs, b) ==> a == b
  }

  ghost predicate AreHits(rs: seq<Report>) {
    forall r :: r in rs ==> r.status.Severity() > 0
  }

  lemma AgreeWithoutTies(rs: seq<Report>)
    requires AreHits(rs) && NoWorstTies(rs)
    ensures PicksAgree(rs)
  {
    forall i | LastWorstAt(rs, i) ensures MergeAll(NotApplicable(), rs) == rs[i] {
      MergeAllPicksFirstWorst(NotApplicable(), rs);
      assert rs[i] in rs && rs[i].IsWorseThan(NotApplicable());
      var f :| FirstWorstAt(rs, f) && rs[f] == MergeAll(NotApplicable(), rs);
      assert IsWorst(rs, rs[f]) && IsWorst(rs, rs[i]);
    }
  }

  /** Two tied worst reports, one at each end. */
  lemma TiedEndsDisagree(rs: seq<Report>)
    requires AreHits(rs) && |rs| > 1 && IsWorst(rs, rs[0]) && IsWorst(rs, rs[|rs| - 1]) && rs[0] != rs[|rs| - 1]
    ensures !PicksAgree(rs)
  {
    var last := |rs| - 1;
    assert FirstWorstAt(rs, 0) && LastWorstAt(rs, last);
    SummaryEqualsMergeIff(rs, 0, last);
  }

  /** The reports without the ones at two positions, which go to the two ends. */
  lemma ToTheEnds(rs: seq<Report>, i: nat, j: nat) returns (moved: seq<Report>)
    requires i < j < |rs|
    ensures multiset(moved) == multiset(rs) && |moved| == |rs| && moved[0] == rs[i] && moved[|moved| - 1] == rs[j]
  {
    moved := [rs[i]] + rs[..i] + rs[i + 1..j] + rs[j + 1..] + [rs[j]];
    assert rs == rs[..i] + [rs[i]] + rs[i + 1..j] + [rs[j]] + rs[j + 1..];
  }

  lemma WorstIsOrderless(rs: seq<Report>, rs': seq<Report>, r: Report)
    requires multiset(rs) == multiset(rs')
    ensures IsWorst(rs, r) <==> IsWorst(rs', r)
  {
    assert forall s :: s in rs <==> s in multiset(rs);
    assert forall s :: s in rs' <==> s in multiset(rs');
  }

  lemma HitsAreOrderless(rs: seq<Report>, rs': seq<Report>)
    requires multiset(rs) == multiset(rs') && AreHits(rs)
    ensures AreHits(rs')
  {
    assert forall r :: r in rs' ==> r in multiset(rs');
    assert forall r :: r in multiset(rs) ==> r in rs;
  }

  /**
   `summary` keeps the last of the worst reports and `merge` the first, so in every order of recording they give the
   same report IF AND ONLY IF no two different reports tie at the worst severity and observed value.
   */
  lemma SummaryEqualsMergeInAnyOrderIff(rs: seq<Report>)
    requires AreHits(rs)
    ensures (forall rs' :: multiset(rs') == multiset(rs) ==> PicksAgree(rs')) <==> NoWorstTies(rs)
  {
    if NoWorstTies(rs) {
      forall rs' | multiset(rs') == multiset(rs) ensures PicksAgree(rs') {
        forall r ensures IsWorst(rs, r) <==> IsWorst(rs', r) { WorstIsOrderless(rs, rs', r); }
        HitsAreOrderless(rs, rs');
        AgreeWithoutTies(rs');
      }
    } else {
      var a, b :| IsWorst(rs, a) && IsWorst(rs, b) && a != b;
      var i: nat :| i < |rs| && rs[i] == a;
      var j: nat :| j < |rs| && rs[j] == b;
      var moved;
      if i < j { moved := ToTheEnds(rs, i, j); } else { moved := ToTheEnds(rs, j, i); }
      WorstIsOrderless(rs, moved, a);
      WorstIsOrderless(rs, moved, b);
      HitsAreOrderless(rs, moved);
      TiedEndsDisagree(moved);
    }
  }
}
