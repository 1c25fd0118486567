/** Severity counting, scanner health, the coverage scores and the release recommendation
    of the evidence bundle. */
module ReleaseGate {
  import opened Wrappers

  datatype Status = PASS | WARN | FAIL | SKIPPED

  datatype Scanner = Scanner(name: string, level: nat, flag: Option<string>)

  /** One report file of a scanner: the severities of its findings in upper case, and how
      many items it lists. */
  datatype Output = Output(severities: seq<string>, items: nat)

  /** The scanners recorded as skipped, the flags that were given, whether the log says no
      package sources were found, and how many manual items are pending. */
  datatype Context = Context(skipped: set<string>, requested: set<string>, noSources: bool, pending: nat)

  type Outputs = string -> seq<Output>

  datatype Record = Record(name: string, level: nat, status: Status)

  datatype Kind = Findings | Secrets | Severities(mediumWarns: bool) | Sbom | Viruses | Other

  function KindOf(name: string): Kind {
    if name == "semgrep" then Findings
    else if name == "gitleaks" then Secrets
    else if name in {"trivy-fs", "trivy-config", "trivy-image", "grype", "grype-image", "osv-scanner", "zap-baseline", "security-headers"}
    then Severities(true)
    else if name == "testssl" then Severities(false)
    else if name in {"syft", "syft-image"} then Sbom
    else if name == "clamav" then Viruses
    else Other
  }

  // ----- Counting --------------------------------------------------------------------------------

  const SEVERITIES := ["CRITICAL", "HIGH", "MEDIUM", "LOW", "UNKNOWN"]

  function Bucket(sev: string): string {
    if sev in SEVERITIES then sev else "UNKNOWN"
  }

  function CountOf(sevs: seq<string>, s: string): nat {
    if sevs == [] then 0
    else CountOf(sevs[..|sevs| - 1], s) + if Bucket(sevs[|sevs| - 1]) == s then 1 else 0
  }

  function Total(outs: seq<Output>, s: string): nat {
    if outs == [] then 0 else Total(outs[..|outs| - 1], s) + CountOf(outs[|outs| - 1].severities, s)
  }

  function Items(outs: seq<Output>): nat {
    if outs == [] then 0 else Items(outs[..|outs| - 1]) + outs[|outs| - 1].items
  }

  method CountSeverities(sevs: seq<string>) returns (counts: map<string, nat>)
    ensures forall s :: s in counts <==> s in SEVERITIES
    ensures forall s :: s in counts ==> counts[s] == CountOf(sevs, s)
  {
    counts := map s | s in SEVERITIES :: 0;
    for n := 0 to |sevs|
      invariant forall s :: s in counts <==> s in SEVERITIES
      invariant forall s :: s in counts ==> counts[s] == CountOf(sevs[..n], s)
    {
      assert sevs[..n + 1][..n] == sevs[..n];
      var b := Bucket(sevs[n]);
      assert "UNKNOWN" == SEVERITIES[4];
      counts := counts[b := counts[b] + 1];
    }
    assert sevs[..|sevs|] == sevs;
  }

  /** `add_counts` over the reports of one scanner. */
  method AddCounts(outs: seq<Output>) returns (sum: map<string, nat>)
    ensures forall s :: s in sum <==> s in SEVERITIES
    ensures forall s :: s in sum ==> sum[s] == Total(outs, s)
  {
    sum := map s | s in SEVERITIES :: 0;
    for n := 0 to |outs|
      invariant forall s :: s in sum <==> s in SEVERITIES
      invariant forall s :: s in sum ==> sum[s] == Total(outs[..n], s)
    {
      assert outs[..n + 1][..n] == outs[..n];
      var item := CountSeverities(outs[n].severities);
      sum := map s | s in sum :: sum[s] + item[s];
    }
    assert outs[..|outs|] == outs;
  }

  method SumItems(outs: seq<Output>) returns (n: nat)
    ensures n == Items(outs)
  {
    n := 0;
    for i := 0 to |outs|
      invariant n == Items(outs[..i])
    {
      assert outs[..i + 1][..i] == outs[..i];
      n := n + outs[i].items;
    }
    assert outs[..|outs|] == outs;
  }

  /** Every finding is counted once, an unknown severity among the unknown. */
  lemma {:induction false} CountsConserve(sevs: seq<string>)
    ensures
      CountOf(sevs, "CRITICAL") + CountOf(sevs, "HIGH") + CountOf(sevs, "MEDIUM") + CountOf(sevs, "LOW")
      + CountOf(sevs, "UNKNOWN") == |sevs|
  {
    if sevs != [] {
      CountsConserve(sevs[..|sevs| - 1]);
      DistinctNames();
      assert Bucket(sevs[|sevs| - 1]) in SEVERITIES;
    }
  }

  lemma DistinctNames()
    ensures "CRITICAL" != "HIGH" && "CRITICAL" != "MEDIUM" && "CRITICAL" != "LOW" && "CRITICAL" != "UNKNOWN"
    ensures "HIGH" != "MEDIUM" && "HIGH" != "LOW" && "HIGH" != "UNKNOWN"
    ensures "MEDIUM" != "LOW" && "MEDIUM" != "UNKNOWN" && "LOW" != "UNKNOWN"
  {
    assert "CRITICAL"[0] == 'C' && "HIGH"[0] == 'H' && "MEDIUM"[0] == 'M' && "LOW"[0] == 'L' && "UNKNOWN"[0] == 'U';
  }

  // ----- Scanner health ---------------------------------------------------------------------------

  function Health(name: string, outs: seq<Output>, noSources: bool): Status {
    if outs == [] then (if name == "osv-scanner" && noSources then WARN else FAIL)
    else
      match KindOf(name)
      case Findings => if Items(outs) > 0 then WARN else PASS
      case Secrets => if Items(outs) > 0 then FAIL else PASS
      case Severities(mediumWarns) =>
        if Total(outs, "CRITICAL") > 0 then FAIL
        else if Total(outs, "HIGH") > 0 || (mediumWarns && Total(outs, "MEDIUM") > 0) then WARN
        else PASS
      case Sbom => if Items(outs) > 0 then PASS else WARN
      case Viruses => if Items(outs) > 0 then FAIL else PASS
      case Other => PASS
  }

  method ClassifyHealth(name: string, outs: seq<Output>, noSources: bool) returns (status: Status)
    ensures status == Health(name, outs, noSources)
  {
    if name == "osv-scanner" && outs == [] && noSources {
      return WARN;
    }
    if outs == [] {
      return FAIL;
    }
    match KindOf(name)
    case Severities(mediumWarns) =>
      var c := AddCounts(outs);
      assert SEVERITIES[0] in c && SEVERITIES[1] in c && SEVERITIES[2] in c;
      status := if c["CRITICAL"] > 0 then FAIL
                else if c["HIGH"] > 0 || (mediumWarns && c["MEDIUM"] > 0) then WARN
                else PASS;
    case Other =>
      status := PASS;
    case kind =>
      var n := SumItems(outs);
      status := match kind
        case Findings => if n > 0 then WARN else PASS
        case Sbom => if n > 0 then PASS else WARN
        case _ => if n > 0 then FAIL else PASS;
  }

  predicate Skipped(s: Scanner, ctx: Context) {
    s.name in ctx.skipped || (s.level == 2 && s.flag.Some? && s.flag.value != "" && s.flag.value !in ctx.requested)
  }

  function RecordOf(s: Scanner, ctx: Context, outputs: Outputs): Record {
    Record(s.name, s.level, if Skipped(s, ctx) then SKIPPED else Health(s.name, outputs(s.name), ctx.noSources))
  }

  function Records(scanners: seq<Scanner>, ctx: Context, outputs: Outputs): (r: seq<Record>)
    ensures |r| == |scanners|
    ensures forall i :: 0 <= i < |scanners| ==> r[i] == RecordOf(scanners[i], ctx, outputs)
  {
    seq(|scanners|, i requires 0 <= i < |scanners| => RecordOf(scanners[i], ctx, outputs))
  }

  /** What the findings summary says is critical in a scanner's reports. */
  function Critical(name: string, outs: seq<Output>): nat {
    match KindOf(name)
    case Severities(_) => Total(outs, "CRITICAL")
    case Secrets => Items(outs)
    case _ => 0
  }

  /** The health loop, with the part of the findings summary that the gate reads. */
  method CollectHealth(scanners: seq<Scanner>, ctx: Context, outputs: Outputs)
    returns (health: seq<Record>, criticals: map<string, nat>)
    ensures health == Records(scanners, ctx, outputs)
    ensures forall n :: n in criticals <==> exists s :: s in scanners && s.name == n && !Skipped(s, ctx)
    ensures forall n :: n in criticals ==> criticals[n] == Critical(n, outputs(n))
  {
    health, criticals := [], map[];
    for i := 0 to |scanners|
      invariant health == Records(scanners[..i], ctx, outputs)
      invariant forall n :: n in criticals <==> exists s :: s in scanners[..i] && s.name == n && !Skipped(s, ctx)
      invariant forall n :: n in criticals ==> criticals[n] == Critical(n, outputs(n))
    {
      var s := scanners[i];
      assert scanners[..i + 1] == scanners[..i] + [s];
      if Skipped(s, ctx) {
        health := health + [Record(s.name, s.level, SKIPPED)];
        continue;
      }
      var status := ClassifyHealth(s.name, outputs(s.name), ctx.noSources);
      health := health + [Record(s.name, s.level, status)];
      var c := 0;
      if KindOf(s.name).Severities? {
        var sum := AddCounts(outputs(s.name));
        assert SEVERITIES[0] in sum;
        c := sum["CRITICAL"];
      } else if KindOf(s.name).Secrets? {
        c := SumItems(outputs(s.name));
      }
      criticals := criticals[s.name := c];
    }
    assert scanners[..|scanners|] == scanners;
  }

  // ----- Scores -------------------------------------------------------------------------------------

  /** `round(a / b)`, a tie going to the even neighbour. */
  function Round(a: nat, b: nat): nat
    requires b > 0
  {
    var q, r := a / b, a % b;
    if 2 * r < b || (2 * r == b && q % 2 == 0) then q else q + 1
  }

  /** The rounded value is the nearest integer, and the even one of two that are as near. */
  lemma RoundIsNearest(a: nat, b: nat)
    requires b > 0
    ensures
      var r := Round(a, b);
      && 2 * (r * b - a) <= b && 2 * (a - r * b) <= b
      && (2 * (r * b - a) == b || 2 * (a - r * b) == b ==> r % 2 == 0)
  {
    var q, m := a / b, a % b;
    assert a == q * b + m;
    assert (q + 1) * b == q * b + b;
  }

  lemma RoundIsMonotone(a: nat, c: nat, b: nat)
    requires b > 0 && a <= c
    ensures Round(a, b) <= Round(c, b)
  {
    var q, m, p, n := a / b, a % b, c / b, c % b;
    assert a == q * b + m && c == p * b + n;
    MoreMultiples(q, p, b);
  }

  lemma MoreMultiples(q: nat, p: nat, b: nat)
    ensures q > p ==> q * b >= p * b + b
  {
    if q > p {
      Distribute(p, q - p, b);
      AtLeastOne(q - p, b);
    }
  }

  lemma Distribute(x: nat, y: nat, b: nat)
    ensures (x + y) * b == x * b + y * b
  {
  }

  lemma AtLeastOne(x: nat, b: nat)
    requires x >= 1
    ensures x * b >= b
  {
    Distribute(1, x - 1, b);
  }

  lemma SmallerFactor(x: nat, y: nat, b: nat)
    requires x <= y
    ensures x * b <= y * b
  {
    Distribute(x, y - x, b);
  }

  lemma RoundOfMultiple(k: nat, b: nat)
    requires b > 0
    ensures Round(k * b, b) == k
  {
    var q, m := (k * b) / b, (k * b) % b;
    assert k * b == q * b + m;
    MoreMultiples(q, k, b);
    MoreMultiples(k, q, b);
  }

  /** Half points: two for a pass, one for a warning. */
  function Weight(s: Status): nat {
    match s
    case PASS => 2
    case WARN => 1
    case _ => 0
  }

  function Points(health: seq<Record>): nat {
    if health == [] then 0 else Points(health[..|health| - 1]) + Weight(health[|health| - 1].status)
  }

  function Attempted(health: seq<Record>): nat {
    if health == [] then 0
    else Attempted(health[..|health| - 1]) + if health[|health| - 1].status == SKIPPED then 0 else 1
  }

  function Max(a: nat, b: nat): nat {
    if a > b then a else b
  }

  /** The denominator of the passed ratio, in half points. */
  function Possible(health: seq<Record>): (r: nat)
    ensures r > 0
  {
    2 * Max(1, Attempted(health))
  }

  const MANUAL := 14

  function Completed(pending: nat): nat {
    if pending < MANUAL then MANUAL - pending else 0
  }

  function AutomatedPct(health: seq<Record>): nat {
    Round(100 * Points(health), Possible(health))
  }

  /** Seven tenths of the passed ratio and three tenths of the manual ratio. */
  function AsvsPct(health: seq<Record>, pending: nat): nat {
    Round(100 * (7 * MANUAL * Points(health) + 3 * Completed(pending) * Possible(health)), 10 * MANUAL * Possible(health))
  }

  /** The sum over failed scanners only, as the gate computes it. */
  function FailedCriticals(health: seq<Record>, outputs: Outputs): nat {
    if health == [] then 0
    else
      var r := health[|health| - 1];
      FailedCriticals(health[..|health| - 1], outputs) + if r.status == FAIL then Critical(r.name, outputs(r.name)) else 0
  }

  /** The sum over every scanner that ran. */
  function AllCriticals(health: seq<Record>, outputs: Outputs): nat {
    if health == [] then 0
    else
      var r := health[|health| - 1];
      AllCriticals(health[..|health| - 1], outputs) + if r.status == SKIPPED then 0 else Critical(r.name, outputs(r.name))
  }

  /** `findings_summary.get("gitleaks", 0)`. */
  function Leaks(scanners: seq<Scanner>, ctx: Context, outputs: Outputs): nat {
    if exists s :: s in scanners && s.name == "gitleaks" && !Skipped(s, ctx) then Items(outputs("gitleaks")) else 0
  }

  predicate Level1Ok(health: seq<Record>) {
    forall i :: 0 <= i < |health| && health[i].level == 1 ==> health[i].status in {PASS, WARN}
  }

  predicate Ready(scanners: seq<Scanner>, ctx: Context, outputs: Outputs) {
    var health := Records(scanners, ctx, outputs);
    && FailedCriticals(health, outputs) == 0 && Leaks(scanners, ctx, outputs) == 0
    && AutomatedPct(health) >= 90 && Level1Ok(health)
  }

  datatype Assessment = Assessment(automated: nat, asvs: nat, critical: nat, ready: bool)

  method Assess(scanners: seq<Scanner>, ctx: Context, outputs: Outputs) returns (a: Assessment)
    ensures
      var health := Records(scanners, ctx, outputs);
      && a.automated == AutomatedPct(health) && a.asvs == AsvsPct(health, ctx.pending)
      && a.critical == FailedCriticals(health, outputs) && a.ready == Ready(scanners, ctx, outputs)
  {
    hide Records, Skipped, Round, Points, Attempted, FailedCriticals, Level1Ok;
    var health, criticals := CollectHealth(scanners, ctx, outputs);
    var points, possible := ScorePoints(health);
    var critical := SumCriticals(scanners, ctx, outputs, health, criticals);
    var leaks := if "gitleaks" in criticals then criticals["gitleaks"] else 0;
    LeaksAreCritical(outputs("gitleaks"));
    var automated := Round(100 * points, possible);
    var asvs := Round(100 * (7 * MANUAL * points + 3 * Completed(ctx.pending) * possible), 10 * MANUAL * possible);
    a := Assessment(automated, asvs, critical, critical == 0 && leaks == 0 && automated >= 90 && Level1Ok(health));
  }

  /** Passes count whole and warnings half, over the scanners that were attempted. */
  method ScorePoints(health: seq<Record>) returns (points: nat, possible: nat)
    ensures points == Points(health) && possible == Possible(health)
  {
    var passed, warned, failed := 0, 0, 0;
    for i := 0 to |health|
      invariant 2 * passed + warned == Points(health[..i]) && passed + warned + failed == Attempted(health[..i])
    {
      assert health[..i + 1][..i] == health[..i];
      match health[i].status {
        case PASS => passed := passed + 1;
        case WARN => warned := warned + 1;
        case FAIL => failed := failed + 1;
        case SKIPPED =>
      }
    }
    assert health[..|health|] == health;
    points, possible := 2 * passed + warned, 2 * Max(1, passed + warned + failed);
  }

  method SumCriticals(
    ghost scanners: seq<Scanner>, ghost ctx: Context, ghost outputs: Outputs, health: seq<Record>, criticals: map<string, nat>)
    returns (critical: nat)
    requires health == Records(scanners, ctx, outputs)
    requires forall s :: s in scanners && !Skipped(s, ctx) ==> s.name in criticals
    requires forall n :: n in criticals ==> criticals[n] == Critical(n, outputs(n))
    ensures critical == FailedCriticals(health, outputs)
  {
    hide Skipped, Critical, Health;
    critical := 0;
    for i := 0 to |health|
      invariant critical == FailedCriticals(health[..i], outputs)
    {
      assert health[..i + 1][..i] == health[..i];
      if health[i].status != FAIL {
        continue;
      }
      assert health[i] == RecordOf(scanners[i], ctx, outputs) && scanners[i] in scanners;
      critical := critical + criticals[health[i].name];
    }
    assert health[..|health|] == health;
  }

  // ----- What the gate promises ------------------------------------------------------------------------

  lemma {:induction false} PointsBound(health: seq<Record>)
    ensures Points(health) <= 2 * Attempted(health)
  {
    if health != [] {
      PointsBound(health[..|health| - 1]);
    }
  }

  /** Both scores are percentages. */
  lemma ScoresArePercentages(health: seq<Record>, pending: nat)
    ensures AutomatedPct(health) <= 100 && AsvsPct(health, pending) <= 100
  {
    PointsBound(health);
    var p, d, m := Points(health), Possible(health), Completed(pending);
    RoundIsMonotone(100 * p, 100 * d, d);
    RoundOfMultiple(100, d);
    SmallerFactor(3 * m, 3 * MANUAL, d);
    var manual, b := 3 * m * d, 10 * MANUAL * d;
    RoundIsMonotone(100 * (7 * MANUAL * p + manual), 100 * b, b);
    RoundOfMultiple(100, b);
  }

  /** A scanner with critical findings has failed, so the sum over failures loses none. */
  lemma CriticalMeansFail(s: Scanner, ctx: Context, outputs: Outputs)
    ensures !Skipped(s, ctx) && Critical(s.name, outputs(s.name)) > 0 ==> RecordOf(s, ctx, outputs).status == FAIL
  {
  }

  lemma {:induction false} NoCriticalIsLost(scanners: seq<Scanner>, ctx: Context, outputs: Outputs)
    ensures
      var health := Records(scanners, ctx, outputs);
      FailedCriticals(health, outputs) == AllCriticals(health, outputs)
  {
    if scanners != [] {
      var front, s := scanners[..|scanners| - 1], scanners[|scanners| - 1];
      NoCriticalIsLost(front, ctx, outputs);
      assert Records(scanners, ctx, outputs)[..|front|] == Records(front, ctx, outputs);
      CriticalMeansFail(s, ctx, outputs);
    }
  }

  /** No report of the scanner lists a critical finding, and a secret scanner lists nothing. */
  ghost predicate Clean(name: string, outs: seq<Output>) {
    match KindOf(name)
    case Severities(_) => forall o, sev :: o in outs && sev in o.severities ==> sev != "CRITICAL"
    case Secrets => forall o :: o in outs ==> o.items == 0
    case _ => true
  }

  lemma {:induction false} CountZero(sevs: seq<string>, s: string)
    requires s in SEVERITIES && s != "UNKNOWN"
    ensures CountOf(sevs, s) == 0 <==> s !in sevs
  {
    if sevs != [] {
      CountZero(sevs[..|sevs| - 1], s);
      assert sevs == sevs[..|sevs| - 1] + [sevs[|sevs| - 1]];
    }
  }

  lemma {:induction false} TotalZero(outs: seq<Output>, s: string)
    requires s in SEVERITIES && s != "UNKNOWN"
    ensures Total(outs, s) == 0 <==> forall o :: o in outs ==> s !in o.severities
  {
    hide CountOf;
    if outs != [] {
      var front, last := outs[..|outs| - 1], outs[|outs| - 1];
      TotalZero(front, s);
      CountZero(last.severities, s);
      assert outs == front + [last] && last in outs;
    }
  }

  lemma {:induction false} ItemsZero(outs: seq<Output>)
    ensures Items(outs) == 0 <==> forall o :: o in outs ==> o.items == 0
  {
    if outs != [] {
      var front, last := outs[..|outs| - 1], outs[|outs| - 1];
      ItemsZero(front);
      assert outs == front + [last] && last in outs;
    }
  }

  lemma CleanIffNothingCritical(name: string, outs: seq<Output>)
    ensures Clean(name, outs) <==> Critical(name, outs) == 0
  {
    hide Total, Items;
    DistinctNames();
    assert SEVERITIES[0] == "CRITICAL";
    TotalZero(outs, "CRITICAL");
    ItemsZero(outs);
  }

  lemma {:induction false} NothingCriticalAnywhere(scanners: seq<Scanner>, ctx: Context, outputs: Outputs)
    ensures
      AllCriticals(Records(scanners, ctx, outputs), outputs) == 0 <==>
      forall s :: s in scanners && !Skipped(s, ctx) ==> Critical(s.name, outputs(s.name)) == 0
  {
    hide Health, Skipped, Critical;
    if scanners != [] {
      var front, s := scanners[..|scanners| - 1], scanners[|scanners| - 1];
      NothingCriticalAnywhere(front, ctx, outputs);
      assert scanners == front + [s] && s in scanners;
      assert Records(scanners, ctx, outputs)[..|front|] == Records(front, ctx, outputs);
      NotSkipped(s, ctx, outputs);
    }
  }

  lemma NotSkipped(s: Scanner, ctx: Context, outputs: Outputs)
    ensures RecordOf(s, ctx, outputs).status == SKIPPED <==> Skipped(s, ctx)
  {
  }

  /** The recommendation is READY exactly when no scanner that ran reports a critical finding
      or a leaked secret, the automated score reaches 90, and every first-level scanner ran
      without failing. */
  lemma ReadyIff(scanners: seq<Scanner>, ctx: Context, outputs: Outputs)
    ensures
      var health := Records(scanners, ctx, outputs);
      Ready(scanners, ctx, outputs) <==>
      && (forall s :: s in scanners && !Skipped(s, ctx) ==> Clean(s.name, outputs(s.name)))
      && AutomatedPct(health) >= 90 && Level1Ok(health)
  {
    hide Clean, Critical, Skipped, AutomatedPct, Level1Ok;
    NoCriticalIsLost(scanners, ctx, outputs);
    NothingCriticalAnywhere(scanners, ctx, outputs);
    forall s | s in scanners ensures Clean(s.name, outputs(s.name)) <==> Critical(s.name, outputs(s.name)) == 0 {
      CleanIffNothingCritical(s.name, outputs(s.name));
    }
    LeaksAreCritical(outputs("gitleaks"));
  }

  lemma LeaksAreCritical(outs: seq<Output>)
    ensures Critical("gitleaks", outs) == Items(outs)
  {
    assert "gitleaks"[0] == 'g' && "semgrep"[0] == 's';
  }

  // ----- What READY leaves open --------------------------------------------------------------------------

  /** Rounding reaches an even mark exactly half a point early. */
  lemma RoundReaches(a: nat, b: nat, k: nat)
    requires b > 0 && k % 2 == 0
    ensures Round(a, b) >= k <==> 2 * a >= (2 * k - 1) * b
  {
    hide Round;
    var r := Round(a, b);
    RoundIsNearest(a, b);
    assert 2 * (r * b - a) == 2 * (r * b) - 2 * a;
    assert (2 * k - 1) * b == 2 * (k * b) - b;
    if r >= k {
      SmallerFactor(k, r, b);
    } else {
      SmallerFactor(r + 1, k, b);
      assert (r + 1) * b == r * b + b;
      HalfwayIsATie(a, b, r, k);
    }
  }

  /** Half a point below `k`, the only nearest number below `k` is `k - 1`, at a tie. */
  lemma HalfwayIsATie(a: nat, b: nat, r: nat, k: nat)
    requires b > 0 && 2 * (a - r * b) <= b
    ensures 2 * a == (2 * k - 1) * b && r < k ==> r + 1 == k && 2 * (a - r * b) == b
  {
    assert (2 * k - 1) * b == 2 * (k * b) - b;
    if r + 2 <= k {
      SmallerFactor(r + 2, k, b);
      assert (r + 2) * b == r * b + 2 * b;
    } else if r + 1 == k {
      assert k * b == r * b + b;
    }
  }

  function Failures(health: seq<Record>): nat {
    if health == [] then 0
    else Failures(health[..|health| - 1]) + if health[|health| - 1].status == FAIL then 1 else 0
  }

  lemma {:induction false} FailuresCostPoints(health: seq<Record>)
    ensures Points(health) <= 2 * (Attempted(health) - Failures(health))
  {
    if health != [] {
      FailuresCostPoints(health[..|health| - 1]);
    }
  }

  /** READY does not say that no scanner failed. Those that did are not first-level ones, are
      at most 21 in 200 of those that ran, and each either left no report or is the virus
      scan, whose findings the gate does not count as critical. */
  lemma ReadyBoundsFailures(scanners: seq<Scanner>, ctx: Context, outputs: Outputs)
    requires Ready(scanners, ctx, outputs)
    ensures
      var health := Records(scanners, ctx, outputs);
      && 200 * Failures(health) <= 21 * Attempted(health)
      && forall i :: 0 <= i < |scanners| && health[i].status == FAIL ==>
        scanners[i].level != 1 && (outputs(scanners[i].name) == [] || scanners[i].name == "clamav")
  {
    hide Skipped, Round, Points, Attempted, Failures, AutomatedPct, Clean;
    var health := Records(scanners, ctx, outputs);
    ReadyIff(scanners, ctx, outputs);
    PassMark(health);
    FailuresCostPoints(health);
    forall i | 0 <= i < |scanners| && health[i].status == FAIL
      ensures scanners[i].level != 1 && (outputs(scanners[i].name) == [] || scanners[i].name == "clamav")
    {
      var s := scanners[i];
      assert s in scanners && health[i] == RecordOf(s, ctx, outputs);
      assert health[i].level == s.level;
      CleanFailure(s.name, outputs(s.name), ctx.noSources);
    }
  }

  lemma PassMark(health: seq<Record>)
    ensures AutomatedPct(health) >= 90 <==> 200 * Points(health) >= 179 * Possible(health)
  {
    hide Round, Points, Possible;
    RoundReaches(100 * Points(health), Possible(health), 90);
  }

  /** A scanner that failed without critical findings left no report or found a virus. */
  lemma CleanFailure(name: string, outs: seq<Output>, noSources: bool)
    requires Clean(name, outs) && Health(name, outs, noSources) == FAIL
    ensures outs == [] || name == "clamav"
  {
    hide Total, Items, Clean;
    CleanIffNothingCritical(name, outs);
  }

  lemma {:induction false} AllPass(scanners: seq<Scanner>, ctx: Context, outputs: Outputs)
    requires forall s :: s in scanners ==> RecordOf(s, ctx, outputs).status == PASS
    ensures
      var health := Records(scanners, ctx, outputs);
      Points(health) == 2 * |scanners| && Attempted(health) == |scanners|
  {
    hide Health, Skipped;
    if scanners != [] {
      var front, s := scanners[..|scanners| - 1], scanners[|scanners| - 1];
      assert scanners == front + [s] && s in scanners;
      AllPass(front, ctx, outputs);
      assert Records(scanners, ctx, outputs)[..|front|] == Records(front, ctx, outputs);
    }
  }

  /** Beside nine or more scanners that pass, and only then, a second-level virus scan that
      finds something leaves the recommendation READY. */
  lemma InfectedButReadyIff(passing: seq<Scanner>, clamav: Scanner, ctx: Context, outputs: Outputs)
    requires forall s :: s in passing ==> RecordOf(s, ctx, outputs).status == PASS
    requires clamav.name == "clamav" && clamav.level == 2 && RecordOf(clamav, ctx, outputs).status == FAIL
    ensures Ready(passing + [clamav], ctx, outputs) <==> |passing| >= 9
  {
    hide Health, Skipped, Round, Points, Attempted, AutomatedPct, Clean, Critical;
    var scanners := passing + [clamav];
    var health := Records(scanners, ctx, outputs);
    AllPass(passing, ctx, outputs);
    assert health[..|passing|] == Records(passing, ctx, outputs);
    OneMore(health);
    ReadyIff(scanners, ctx, outputs);
    PassMark(health);
    assert Level1Ok(health);
    forall s | s in scanners && !Skipped(s, ctx) ensures Clean(s.name, outputs(s.name)) {
      CleanIffNothingCritical(s.name, outputs(s.name));
      PassedIsClean(s, ctx, outputs);
    }
  }

  lemma OneMore(health: seq<Record>)
    requires health != [] && health[|health| - 1].status == FAIL
    ensures Points(health) == Points(health[..|health| - 1]) && Attempted(health) == Attempted(health[..|health| - 1]) + 1
  {
  }

  lemma PassedIsClean(s: Scanner, ctx: Context, outputs: Outputs)
    ensures RecordOf(s, ctx, outputs).status == PASS || s.name == "clamav" ==> Critical(s.name, outputs(s.name)) == 0
  {
    if s.name == "clamav" {
      VirusScan();
    } else if RecordOf(s, ctx, outputs).status == PASS {
      CriticalMeansFail(s, ctx, outputs);
      NoSeverities(s, ctx, outputs);
    }
  }

  lemma VirusScan()
    ensures KindOf("clamav") == Viruses
  {
  }

  lemma NoSeverities(s: Scanner, ctx: Context, outputs: Outputs)
    requires RecordOf(s, ctx, outputs).status == PASS
    ensures !Skipped(s, ctx)
  {
  }

  // ----- For which runs READY rules out a failure ---------------------------------------------------------

  ghost predicate NamedApart(scanners: seq<Scanner>) {
    forall i, j :: 0 <= i < j < |scanners| ==> scanners[i].name != scanners[j].name
  }

  /** How many scanners run. */
  function Ran(scanners: seq<Scanner>, ctx: Context): nat {
    if scanners == [] then 0
    else Ran(scanners[..|scanners| - 1], ctx) + if Skipped(scanners[|scanners| - 1], ctx) then 0 else 1
  }

  lemma {:induction false} AttemptedIsRan(scanners: seq<Scanner>, ctx: Context, outputs: Outputs)
    ensures Attempted(Records(scanners, ctx, outputs)) == Ran(scanners, ctx)
  {
    hide Skipped, Health;
    if scanners != [] {
      var front, s := scanners[..|scanners| - 1], scanners[|scanners| - 1];
      AttemptedIsRan(front, ctx, outputs);
      assert Records(scanners, ctx, outputs)[..|front|] == Records(front, ctx, outputs);
      NotSkipped(s, ctx, outputs);
    }
  }

  lemma {:induction false} NoFailures(health: seq<Record>)
    ensures Failures(health) == 0 <==> forall i :: 0 <= i < |health| ==> health[i].status != FAIL
  {
    if health != [] {
      NoFailures(health[..|health| - 1]);
    }
  }

  /** Nothing found anywhere, and no report at all from one scanner. */
  function SilentBut(bad: string): Outputs {
    n => if n == bad then [] else [Output([], if KindOf(n) == Sbom then 1 else 0)]
  }

  lemma SilentHealth(name: string, bad: string, noSources: bool)
    requires !(bad == "osv-scanner" && noSources)
    ensures Health(name, SilentBut(bad)(name), noSources) == if name == bad then FAIL else PASS
    ensures Clean(name, SilentBut(bad)(name))
  {
    hide KindOf;
    if name != bad {
      var outs := SilentBut(bad)(name);
      assert outs == [outs[0]] && outs[..0] == [] && outs[0].severities == [];
      assert Items(outs) == outs[0].items && forall sev :: Total(outs, sev) == CountOf([], sev) == 0;
    }
  }

  /** How many scanners of the name run. */
  function Bearing(scanners: seq<Scanner>, ctx: Context, name: string): nat {
    if scanners == [] then 0
    else
      var s := scanners[|scanners| - 1];
      Bearing(scanners[..|scanners| - 1], ctx, name) + if s.name == name && !Skipped(s, ctx) then 1 else 0
  }

  lemma {:induction false} BornByNone(scanners: seq<Scanner>, ctx: Context, name: string)
    requires forall i :: 0 <= i < |scanners| ==> scanners[i].name != name
    ensures Bearing(scanners, ctx, name) == 0
  {
    if scanners != [] {
      BornByNone(scanners[..|scanners| - 1], ctx, name);
    }
  }

  lemma {:induction false} BornByOne(scanners: seq<Scanner>, ctx: Context, i: nat)
    requires NamedApart(scanners) && i < |scanners| && !Skipped(scanners[i], ctx)
    ensures Bearing(scanners, ctx, scanners[i].name) == 1
  {
    hide Skipped;
    var front := scanners[..|scanners| - 1];
    if i == |front| {
      BornByNone(front, ctx, scanners[i].name);
    } else {
      BornByOne(front, ctx, i);
    }
  }

  /** In such a run the scanners of that name fail and every other one that runs passes. */
  lemma {:induction false} SilentRun(scanners: seq<Scanner>, ctx: Context, bad: string)
    requires !(bad == "osv-scanner" && ctx.noSources)
    ensures
      var health := Records(scanners, ctx, SilentBut(bad));
      && Points(health) == 2 * (Attempted(health) - Failures(health))
      && Failures(health) == Bearing(scanners, ctx, bad)
  {
    hide Skipped, Health, SilentBut, Clean;
    if scanners != [] {
      var front, s := scanners[..|scanners| - 1], scanners[|scanners| - 1];
      SilentRun(front, ctx, bad);
      assert Records(scanners, ctx, SilentBut(bad))[..|front|] == Records(front, ctx, SilentBut(bad));
      SilentHealth(s.name, bad, ctx.noSources);
    }
  }

  /** The scanner's failure cannot show in a READY run: it is a first-level one, or without
      package sources it warns where it would fail. */
  predicate CannotHide(s: Scanner, ctx: Context) {
    Skipped(s, ctx) || s.level == 1 || (s.name == "osv-scanner" && ctx.noSources)
  }

  /** Ten scanners and a silent one that can hide make a READY run with a failure. */
  lemma SilentButReady(scanners: seq<Scanner>, ctx: Context, bad: Scanner)
    requires NamedApart(scanners) && bad in scanners && !CannotHide(bad, ctx)
    requires (forall s :: s in scanners && s.level == 1 ==> !Skipped(s, ctx)) && Ran(scanners, ctx) >= 10
    ensures
      var health := Records(scanners, ctx, SilentBut(bad.name));
      Ready(scanners, ctx, SilentBut(bad.name)) && Failures(health) == 1
  {
    hide Skipped, Health, SilentBut, Clean, Round, Points, Attempted, Failures, AutomatedPct, Ran, Bearing;
    var outputs := SilentBut(bad.name);
    var health := Records(scanners, ctx, outputs);
    SilentRun(scanners, ctx, bad.name);
    var at :| 0 <= at < |scanners| && scanners[at] == bad;
    BornByOne(scanners, ctx, at);
    AttemptedIsRan(scanners, ctx, outputs);
    PassMark(health);
    ReadyIff(scanners, ctx, outputs);
    forall s | s in scanners ensures Clean(s.name, outputs(s.name)) {
      SilentHealth(s.name, bad.name, ctx.noSources);
    }
    forall i | 0 <= i < |health| && health[i].level == 1 ensures health[i].status in {PASS, WARN} {
      var s := scanners[i];
      assert s in scanners && health[i] == RecordOf(s, ctx, outputs);
      SilentHealth(s.name, bad.name, ctx.noSources);
      assert s.name == bad.name ==> i == at;
    }
  }

  /** READY says that no scanner failed, whatever the reports, exactly when READY is out of
      reach because a first-level scanner is skipped, when fewer than ten scanners run, or
      when no scanner that runs can hide a failure. */
  lemma ReadyRulesOutFailuresIff(scanners: seq<Scanner>, ctx: Context)
    requires NamedApart(scanners)
    ensures
      (forall outputs :: Ready(scanners, ctx, outputs) ==> Failures(Records(scanners, ctx, outputs)) == 0) <==>
      || (exists s :: s in scanners && s.level == 1 && Skipped(s, ctx))
      || Ran(scanners, ctx) < 10
      || forall s :: s in scanners ==> CannotHide(s, ctx)
  {
    hide Ready, Records, Skipped, Failures, Ran, CannotHide;
    if exists s :: s in scanners && s.level == 1 && Skipped(s, ctx) {
      forall outputs ensures !Ready(scanners, ctx, outputs) {
        SkippedIsNotReady(scanners, ctx, outputs);
      }
    } else if Ran(scanners, ctx) < 10 || forall s :: s in scanners ==> CannotHide(s, ctx) {
      forall outputs | Ready(scanners, ctx, outputs) ensures Failures(Records(scanners, ctx, outputs)) == 0 {
        NothingHides(scanners, ctx, outputs);
      }
    } else {
      var bad :| bad in scanners && !CannotHide(bad, ctx);
      SilentButReady(scanners, ctx, bad);
    }
  }

  lemma SkippedIsNotReady(scanners: seq<Scanner>, ctx: Context, outputs: Outputs)
    requires exists s :: s in scanners && s.level == 1 && Skipped(s, ctx)
    ensures !Ready(scanners, ctx, outputs)
  {
    hide AutomatedPct, FailedCriticals, Leaks, Skipped;
    var s :| s in scanners && s.level == 1 && Skipped(s, ctx);
    var i :| 0 <= i < |scanners| && scanners[i] == s;
    assert Records(scanners, ctx, outputs)[i] == RecordOf(s, ctx, outputs);
  }

  lemma NothingHides(scanners: seq<Scanner>, ctx: Context, outputs: Outputs)
    requires Ready(scanners, ctx, outputs)
    requires Ran(scanners, ctx) < 10 || forall s :: s in scanners ==> CannotHide(s, ctx)
    ensures Failures(Records(scanners, ctx, outputs)) == 0
  {
    hide Ready, Skipped, Failures, Attempted, Ran;
    var health := Records(scanners, ctx, outputs);
    ReadyBoundsFailures(scanners, ctx, outputs);
    AttemptedIsRan(scanners, ctx, outputs);
    if Ran(scanners, ctx) >= 10 {
      forall i | 0 <= i < |health| ensures health[i].status != FAIL {
        var s := scanners[i];
        assert s in scanners && health[i] == RecordOf(s, ctx, outputs);
        NotAVirusScan();
      }
      NoFailures(health);
    }
  }

  lemma NotAVirusScan()
    ensures "clamav" != "osv-scanner"
  {
    assert "clamav"[0] == 'c' && "osv-scanner"[0] == 'o';
  }

  /** The scanners of the bundle. */
  const LEVEL1 := [
    Scanner("semgrep", 1, None), Scanner("gitleaks", 1, None), Scanner("trivy-fs", 1, None), Scanner("trivy-config", 1, None),
    Scanner("syft", 1, None), Scanner("grype", 1, None), Scanner("osv-scanner", 1, None)]
  const LEVEL2 := [
    Scanner("trivy-image", 2, Some("image")), Scanner("syft-image", 2, Some("image")), Scanner("grype-image", 2, Some("image")),
    Scanner("zap-baseline", 2, Some("url")), Scanner("security-headers", 2, Some("url")), Scanner("testssl", 2, Some("https")),
    Scanner("clamav", 2, Some("uploads"))]

  lemma {:induction false} RanTogether(a: seq<Scanner>, b: seq<Scanner>, ctx: Context)
    ensures Ran(a + b, ctx) == Ran(a, ctx) + Ran(b, ctx)
  {
    hide Skipped;
    if b == [] {
      assert a + b == a;
    } else {
      RanTogether(a, b[..|b| - 1], ctx);
      assert (a + b)[..|a + b| - 1] == a + b[..|b| - 1];
    }
  }

  lemma {:induction false} AllRan(scanners: seq<Scanner>, ctx: Context)
    requires forall i :: 0 <= i < |scanners| ==> !Skipped(scanners[i], ctx)
    ensures Ran(scanners, ctx) == |scanners|
  {
    hide Skipped;
    if scanners != [] {
      AllRan(scanners[..|scanners| - 1], ctx);
    }
  }

  lemma {:induction false} NoneRan(scanners: seq<Scanner>, ctx: Context)
    requires forall i :: 0 <= i < |scanners| ==> Skipped(scanners[i], ctx)
    ensures Ran(scanners, ctx) == 0
  {
    hide Skipped;
    if scanners != [] {
      NoneRan(scanners[..|scanners| - 1], ctx);
    }
  }

  /** Length and first letter tell all the names apart. */
  predicate Unlike(a: string, b: string) {
    |a| != |b| || (|a| > 0 && a[0] != b[0])
  }

  lemma ListedApart()
    ensures NamedApart(LEVEL1 + LEVEL2)
  {
    assert forall i, j :: 0 <= i < j < |LEVEL1| ==> Unlike(LEVEL1[i].name, LEVEL1[j].name);
    assert forall i, j :: 0 <= i < j < |LEVEL2| ==> Unlike(LEVEL2[i].name, LEVEL2[j].name);
    assert forall i, j :: 0 <= i < |LEVEL1| && 0 <= j < |LEVEL2| ==> Unlike(LEVEL1[i].name, LEVEL2[j].name) by {
      LevelsApart();
    }
    hide LEVEL1, LEVEL2;
    var all := LEVEL1 + LEVEL2;
    forall i, j | 0 <= i < j < |all| ensures all[i].name != all[j].name {
      assert Unlike(all[i].name, all[j].name);
    }
  }

  lemma LevelsApart()
    ensures forall i, j :: 0 <= i < |LEVEL1| && 0 <= j < |LEVEL2| ==> Unlike(LEVEL1[i].name, LEVEL2[j].name)
  {
  }

  lemma Listed()
    ensures |LEVEL1| == 7 && forall s :: s in LEVEL1 ==> s.level == 1
    ensures forall s :: s in LEVEL2 ==> s.level == 2 && s.name != "osv-scanner"
  {
    assert |LEVEL1| == 7 && forall i :: 0 <= i < |LEVEL1| ==> LEVEL1[i].level == 1;
    assert forall i :: 0 <= i < |LEVEL2| ==> LEVEL2[i].level == 2 && Unlike(LEVEL2[i].name, "osv-scanner");
    hide LEVEL1, LEVEL2;
  }

  /** For the bundle's own scanners: READY rules out a failure exactly when a first-level one
      is skipped, so that READY is out of reach, or fewer than three second-level ones run. */
  lemma ListedScannersIff(ctx: Context)
    ensures
      var all := LEVEL1 + LEVEL2;
      (forall outputs :: Ready(all, ctx, outputs) ==> Failures(Records(all, ctx, outputs)) == 0) <==>
      (exists s :: s in LEVEL1 && Skipped(s, ctx)) || Ran(LEVEL2, ctx) < 3
  {
    hide Ready, Records, Skipped, Failures, Ran, NamedApart, LEVEL1, LEVEL2;
    ListedApart();
    Listed();
    ReadyRulesOutFailuresIff(LEVEL1 + LEVEL2, ctx);
    RanTogether(LEVEL1, LEVEL2, ctx);
    forall s ensures s in LEVEL1 + LEVEL2 <==> s in LEVEL1 || s in LEVEL2 { }
    if forall s :: s in LEVEL1 ==> !Skipped(s, ctx) {
      AllRan(LEVEL1, ctx);
    }
    if forall s :: s in LEVEL2 ==> Skipped(s, ctx) {
      NoneRan(LEVEL2, ctx);
    }
  }

  /** Report by report, `fewer` lists no more findings of any severity and no more items; a
      bill of materials that had components still has some. */
  ghost predicate NoMore(name: string, fewer: seq<Output>, more: seq<Output>) {
    && |fewer| == |more|
    && forall i :: 0 <= i < |fewer| ==>
      && (forall s :: s in SEVERITIES ==> CountOf(fewer[i].severities, s) <= CountOf(more[i].severities, s))
      && if KindOf(name) == Sbom then more[i].items > 0 ==> fewer[i].items > 0 else fewer[i].items <= more[i].items
  }

  lemma {:induction false} TotalsNoMore(name: string, fewer: seq<Output>, more: seq<Output>, s: string)
    requires NoMore(name, fewer, more) && s in SEVERITIES
    ensures Total(fewer, s) <= Total(more, s)
    ensures if KindOf(name) == Sbom then Items(more) > 0 ==> Items(fewer) > 0 else Items(fewer) <= Items(more)
  {
    hide CountOf, KindOf;
    if fewer != [] {
      TotalsNoMore(name, fewer[..|fewer| - 1], more[..|more| - 1], s);
    }
  }

  /** Fewer findings never worsen a scanner's status. */
  lemma HealthImproves(name: string, fewer: seq<Output>, more: seq<Output>, noSources: bool)
    requires NoMore(name, fewer, more)
    ensures Weight(Health(name, fewer, noSources)) >= Weight(Health(name, more, noSources))
    ensures Health(name, fewer, noSources) != SKIPPED
    ensures Critical(name, fewer) <= Critical(name, more)
  {
    hide Total, Items, KindOf;
    assert SEVERITIES[0] == "CRITICAL" && SEVERITIES[1] == "HIGH" && SEVERITIES[2] == "MEDIUM";
    TotalsNoMore(name, fewer, more, "CRITICAL");
    TotalsNoMore(name, fewer, more, "HIGH");
    TotalsNoMore(name, fewer, more, "MEDIUM");
  }

  ghost predicate NoMoreAnywhere(scanners: seq<Scanner>, ctx: Context, fewer: Outputs, more: Outputs) {
    forall s :: s in scanners && !Skipped(s, ctx) ==> NoMore(s.name, fewer(s.name), more(s.name))
  }

  lemma {:induction false} PointsImprove(scanners: seq<Scanner>, ctx: Context, fewer: Outputs, more: Outputs)
    requires NoMoreAnywhere(scanners, ctx, fewer, more)
    ensures
      var (a, b) := (Records(scanners, ctx, fewer), Records(scanners, ctx, more));
      Points(a) >= Points(b) && Attempted(a) == Attempted(b) && AllCriticals(a, fewer) <= AllCriticals(b, more)
  {
    hide NoMore, Health, Skipped, Critical;
    if scanners != [] {
      var front, s := scanners[..|scanners| - 1], scanners[|scanners| - 1];
      assert scanners == front + [s] && s in scanners;
      PointsImprove(front, ctx, fewer, more);
      assert Records(scanners, ctx, fewer)[..|front|] == Records(front, ctx, fewer);
      assert Records(scanners, ctx, more)[..|front|] == Records(front, ctx, more);
      NotSkipped(s, ctx, fewer);
      NotSkipped(s, ctx, more);
      if !Skipped(s, ctx) {
        HealthImproves(s.name, fewer(s.name), more(s.name), ctx.noSources);
      }
    }
  }

  /** Antitone in findings: with the scanners that run fixed, fewer findings never lower a
      score, never add to the critical count, and never turn READY into NOT READY. */
  lemma FewerFindingsNeverHurt(scanners: seq<Scanner>, ctx: Context, fewer: Outputs, more: Outputs)
    requires NoMoreAnywhere(scanners, ctx, fewer, more)
    ensures
      var (a, b) := (Records(scanners, ctx, fewer), Records(scanners, ctx, more));
      && AutomatedPct(a) >= AutomatedPct(b) && AsvsPct(a, ctx.pending) >= AsvsPct(b, ctx.pending)
      && FailedCriticals(a, fewer) <= FailedCriticals(b, more)
      && (Ready(scanners, ctx, more) ==> Ready(scanners, ctx, fewer))
  {
    hide NoMore, Skipped, Round, Points, Attempted, AllCriticals, FailedCriticals, Critical;
    var a, b := Records(scanners, ctx, fewer), Records(scanners, ctx, more);
    PointsImprove(scanners, ctx, fewer, more);
    ScoresImprove(a, b, ctx.pending);
    NoCriticalIsLost(scanners, ctx, fewer);
    NoCriticalIsLost(scanners, ctx, more);
    if Ready(scanners, ctx, more) {
      LeaksStayAway(scanners, ctx, fewer, more);
      Level1StaysOk(scanners, ctx, fewer, more);
    }
  }

  lemma ScoresImprove(a: seq<Record>, b: seq<Record>, pending: nat)
    requires Points(a) >= Points(b) && Attempted(a) == Attempted(b)
    ensures AutomatedPct(a) >= AutomatedPct(b) && AsvsPct(a, pending) >= AsvsPct(b, pending)
  {
    hide Round, Points, Attempted;
    RoundIsMonotone(100 * Points(b), 100 * Points(a), Possible(a));
    var rest := 3 * Completed(pending) * Possible(a);
    RoundIsMonotone(100 * (7 * MANUAL * Points(b) + rest), 100 * (7 * MANUAL * Points(a) + rest), 10 * MANUAL * Possible(a));
  }

  lemma LeaksStayAway(scanners: seq<Scanner>, ctx: Context, fewer: Outputs, more: Outputs)
    requires NoMoreAnywhere(scanners, ctx, fewer, more) && Leaks(scanners, ctx, more) == 0
    ensures Leaks(scanners, ctx, fewer) == 0
  {
    hide Skipped, Items, NoMore, Health;
    if s :| s in scanners && s.name == "gitleaks" && !Skipped(s, ctx) {
      HealthImproves("gitleaks", fewer("gitleaks"), more("gitleaks"), ctx.noSources);
      LeaksAreCritical(fewer("gitleaks"));
      LeaksAreCritical(more("gitleaks"));
    }
  }

  lemma Level1StaysOk(scanners: seq<Scanner>, ctx: Context, fewer: Outputs, more: Outputs)
    requires NoMoreAnywhere(scanners, ctx, fewer, more) && Level1Ok(Records(scanners, ctx, more))
    ensures Level1Ok(Records(scanners, ctx, fewer))
  {
    hide Skipped, NoMore, Health;
    var a, b := Records(scanners, ctx, fewer), Records(scanners, ctx, more);
    forall i | 0 <= i < |a| && a[i].level == 1 ensures a[i].status in {PASS, WARN} {
      var s := scanners[i];
      assert s in scanners && b[i].status in {PASS, WARN};
      NotSkipped(s, ctx, more);
      HealthImproves(s.name, fewer(s.name), more(s.name), ctx.noSources);
    }
  }
}
