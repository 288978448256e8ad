// The deterministic health assessment of backend/app/application/services/operational_tools.py: severity
// from reachability, utilisation and log events.  The texts it composes are not modelled.
module HealthAssessment {
  import opened Wrappers

  datatype Severity = Healthy | Unknown | Warning | Critical {
    function Order(): nat {
      match this
      case Healthy => 0
      case Unknown => 1
      case Warning => 2
      case Critical => 3
    }
  }

  // raise_severity
  function Join(a: Severity, b: Severity): Severity { if b.Order() > a.Order() then b else a }

  datatype Issue = Cpu | Memory | Disk | Load

  // None where the source finds no number.
  datatype Utilization = Utilization(
    cpu: Option<real>, memory: Option<real>, filesystems: seq<Option<real>>, load: Option<real>, cpuCount: Option<real>,
    failed: bool)

  datatype Impact =
    | Historical | Routine | MonitoringPipeline | Configuration | ActiveIssue | LikelyIssue | Isolated | Informational
    | Unclassified

  const IMPACTS: seq<Impact> := [Historical, Routine, MonitoringPipeline, Configuration, ActiveIssue, LikelyIssue,
                                 Isolated, Informational, Unclassified]

  // The categories the source knows, in its order of priority.
  datatype Name =
    Oom | Crashes | Filesystem | Exceptions | AuthFailures | Restarts | ApplicationFailures | Kernel | Warnings | Errors

  // A category that spells one of the names, in lower case (exact) or in another, or does not.
  datatype Category = Named(name: Name, exact: bool) | Other(text: string)

  // observed_at and summary identify an occurrence.
  datatype Event = Event(observedAt: string, summary: string, category: Category) {
    function Occurrence(): (string, string) { (observedAt, summary) }
  }

  // Which of the four patterns a summary matches first.
  datatype Pattern = Lifecycle | Pipeline | Metadata | Degradation | NoPattern

  // The parser of timestamps (in seconds) and the patterns.
  datatype Rules = Rules(parse: string -> Option<int>, read: string -> Pattern)

  const WINDOW := 2 * 3600

  // ---- metrics --------------------------------------------------------------------------------

  function Level(value: Option<real>, warning: real, critical: real): Severity {
    match value
    case None => Healthy
    case Some(v) => if v >= critical then Critical else if v >= warning then Warning else Healthy
  }

  function CpuLevel(u: Utilization): Severity { Level(u.cpu, 75.0, 90.0) }
  function MemoryLevel(u: Utilization): Severity { Level(u.memory, 80.0, 90.0) }

  function DiskLevel(filesystems: seq<Option<real>>): Severity {
    if filesystems == [] then Healthy
    else Join(DiskLevel(filesystems[..|filesystems| - 1]), Level(filesystems[|filesystems| - 1], 80.0, 90.0))
  }

  // The load per CPU, where both are numbers and there is a CPU.
  function LoadRatio(u: Utilization): Option<real> {
    if u.load.Some? && u.cpuCount.Some? && u.cpuCount.value > 0.0 then Some(u.load.value / u.cpuCount.value) else None
  }

  function LoadLevel(u: Utilization): Severity { Level(LoadRatio(u), 1.0, 1.5) }

  function MetricLevel(u: Utilization): Severity {
    Join(Join(Join(CpuLevel(u), MemoryLevel(u)), DiskLevel(u.filesystems)), LoadLevel(u))
  }

  function ReachLevel(reachable: Option<bool>): Severity {
    match reachable
    case None => Unknown
    case Some(up) => if up then Healthy else Critical
  }

  function DiskIssues(filesystems: seq<Option<real>>): seq<Issue> {
    if filesystems == [] then []
    else DiskIssues(filesystems[..|filesystems| - 1])
         + if Level(filesystems[|filesystems| - 1], 80.0, 90.0).Healthy? then [] else [Disk]
  }

  // metric_issues: one entry for every metric at or above a threshold.
  function Issues(u: Utilization): seq<Issue> {
    (if CpuLevel(u).Healthy? then [] else [Cpu]) + (if MemoryLevel(u).Healthy? then [] else [Memory])
    + DiskIssues(u.filesystems) + (if LoadLevel(u).Healthy? then [] else [Load])
  }

  // ---- events ---------------------------------------------------------------------------------

  // The position in the source's list of categories, which knows the exact spellings only; 100 for
  // any other.
  function Priority(category: Category): nat {
    match category
    case Other(_) => 100
    case Named(name, exact) =>
      if !exact then 100
      else match name
        case Oom => 0
        case Crashes => 1
        case Filesystem => 2
        case Exceptions => 3
        case AuthFailures => 4
        case Restarts => 5
        case ApplicationFailures => 6
        case Kernel => 7
        case Warnings => 8
        case Errors => 9
  }

  const NAMES: seq<Name> := [Oom, Crashes, Filesystem, Exceptions, AuthFailures, Restarts, ApplicationFailures, Kernel,
                             Warnings, Errors]

  // Listed categories come in the order of the list, and before all others.
  lemma PriorityIsPosition(i: nat, other: Category)
    requires i < |NAMES|
    ensures Priority(Named(NAMES[i], true)) == i
    ensures (forall name :: other != Named(name, true)) ==> i < Priority(other)
  {
  }

  // events_by_occurrence in insertion order: a better category takes over an occurrence's place.
  function Record(known: seq<Event>, e: Event): seq<Event> {
    if known == [] then [e]
    else if known[0].Occurrence() == e.Occurrence() then
      [if Priority(e.category) < Priority(known[0].category) then e else known[0]] + known[1..]
    else [known[0]] + Record(known[1..], e)
  }

  function Deduplicate(events: seq<Event>): seq<Event> {
    if events == [] then [] else Record(Deduplicate(events[..|events| - 1]), events[|events| - 1])
  }

  function Age(metricTime: int, time: int): int { if metricTime < time then time - metricTime else metricTime - time }

  predicate Aligned(e: Event, metricTime: int, rules: Rules) {
    var time := rules.parse(e.observedAt);
    time.Some? && Age(metricTime, time.value) <= WINDOW
  }

  // What a category says about a summary that matches no pattern, whatever its case.
  function CategoryImpact(category: Category): Impact {
    match category
    case Other(_) => Unclassified
    case Named(name, _) =>
      match name
      case Oom => LikelyIssue
      case Crashes => LikelyIssue
      case Filesystem => LikelyIssue
      case ApplicationFailures => LikelyIssue
      case Kernel => Informational
      case Warnings => Informational
      case _ => Isolated
  }

  // _classify_log_impact on a current event: the summary decides first, then the category.
  function Classify(e: Event, rules: Rules): Impact {
    match rules.read(e.summary)
    case Lifecycle => Routine
    case Pipeline => MonitoringPipeline
    case Metadata => Configuration
    case Degradation => ActiveIssue
    case NoPattern => CategoryImpact(e.category)
  }

  function ImpactOf(e: Event, metricTime: int, rules: Rules): Impact {
    if Aligned(e, metricTime, rules) then Classify(e, rules) else Historical
  }

  predicate Relevant(e: Event, metricTime: int, rules: Rules) {
    Aligned(e, metricTime, rules) && !ImpactOf(e, metricTime, rules).Routine?
  }

  function Select(events: seq<Event>, relevant: bool, metricTime: int, rules: Rules): seq<Event> {
    if events == [] then []
    else Select(events[..|events| - 1], relevant, metricTime, rules)
         + if Relevant(events[|events| - 1], metricTime, rules) == relevant then [events[|events| - 1]] else []
  }

  function CountOf(events: seq<Event>, impact: Impact, metricTime: int, rules: Rules): nat {
    if events == [] then 0
    else CountOf(events[..|events| - 1], impact, metricTime, rules)
         + if ImpactOf(events[|events| - 1], metricTime, rules) == impact then 1 else 0
  }

  // How many distinct relevant occurrences have the impact.
  function Weight(events: seq<Event>, impact: Impact, metricTime: int, rules: Rules): nat {
    CountOf(Select(Deduplicate(events), true, metricTime, rules), impact, metricTime, rules)
  }

  function EventLevel(active: nat, likely: nat, breached: bool): Severity {
    Join(if active > 0 then if breached then Critical else Warning else Healthy,
         if likely > 0 && (breached || likely >= 2) then Warning else Healthy)
  }

  // The severity without the events.
  function Base(reachable: Option<bool>, u: Utilization): Severity {
    Join(Join(ReachLevel(reachable), MetricLevel(u)), if u.failed then Unknown else Healthy)
  }

  // The severity as the join of everything that contributes to it.
  function SeverityOf(reachable: Option<bool>, u: Utilization, events: seq<Event>, metricTime: int, rules: Rules): Severity {
    Join(Base(reachable, u),
         EventLevel(Weight(events, ActiveIssue, metricTime, rules), Weight(events, LikelyIssue, metricTime, rules),
                    Issues(u) != []))
  }

  datatype Assessment = Assessment(
    severity: Severity, issues: seq<Issue>, relevant: seq<Event>, unrelated: seq<Event>, counts: map<Impact, nat>)

  function Count(counts: map<Impact, nat>, impact: Impact): nat { if impact in counts then counts[impact] else 0 }

  // ---- _health_assessment ---------------------------------------------------------------------

  method AssessMetrics(reachable: Option<bool>, u: Utilization) returns (severity: Severity, issues: seq<Issue>)
    ensures issues == Issues(u)
    ensures severity == Base(reachable, u)
  {
    severity, issues := Healthy, [];
    if reachable == Some(false) {
      severity := Critical;
    } else if reachable == None {
      severity := Unknown;
    }
    severity, issues := Threshold(severity, issues, u.cpu, 75.0, 90.0, Cpu);
    severity, issues := Threshold(severity, issues, u.memory, 80.0, 90.0, Memory);
    severity, issues := AssessDisks(severity, issues, u.filesystems);
    severity, issues := Threshold(severity, issues, LoadRatio(u), 1.0, 1.5, Load);
    MetricsInOrder(ReachLevel(reachable), CpuLevel(u), MemoryLevel(u), DiskLevel(u.filesystems), LoadLevel(u));
    if u.failed && severity == Healthy {
      severity := Unknown;
    }
  }

  lemma JoinAssociates(a: Severity, b: Severity, c: Severity)
    ensures Join(Join(a, b), c) == Join(a, Join(b, c))
  {
  }

  lemma MetricsInOrder(reach: Severity, cpu: Severity, memory: Severity, disk: Severity, load: Severity)
    ensures Join(Join(Join(Join(reach, cpu), memory), disk), load)
            == Join(reach, Join(Join(Join(cpu, memory), disk), load))
  {
    JoinAssociates(reach, cpu, memory);
    JoinAssociates(reach, Join(cpu, memory), disk);
    JoinAssociates(reach, Join(Join(cpu, memory), disk), load);
  }

  // The filesystems against their thresholds.
  method AssessDisks(severity: Severity, issues: seq<Issue>, filesystems: seq<Option<real>>)
    returns (raised: Severity, more: seq<Issue>)
    ensures raised == Join(severity, DiskLevel(filesystems)) && more == issues + DiskIssues(filesystems)
  {
    raised, more := severity, issues;
    for k := 0 to |filesystems|
      invariant raised == Join(severity, DiskLevel(filesystems[..k]))
      invariant more == issues + DiskIssues(filesystems[..k])
    {
      assert filesystems[..k + 1][..k] == filesystems[..k];
      raised, more := Threshold(raised, more, filesystems[k], 80.0, 90.0, Disk);
    }
    assert filesystems[..|filesystems|] == filesystems;
  }

  // One metric against its thresholds.
  method Threshold(severity: Severity, issues: seq<Issue>, value: Option<real>, warning: real, critical: real, issue: Issue)
    returns (raised: Severity, more: seq<Issue>)
    ensures raised == Join(severity, Level(value, warning, critical))
    ensures more == issues + if Level(value, warning, critical).Healthy? then [] else [issue]
  {
    raised, more := severity, issues;
    if value.Some? {
      if value.value >= critical {
        raised, more := Join(severity, Critical), issues + [issue];
      } else if value.value >= warning {
        raised, more := Join(severity, Warning), issues + [issue];
      }
    }
  }

  method Assess(reachable: Option<bool>, u: Utilization, events: seq<Event>, metricTime: int, rules: Rules)
    returns (a: Assessment)
    ensures a.severity == SeverityOf(reachable, u, events, metricTime, rules)
    ensures a.issues == Issues(u)
    ensures a.relevant == Select(Deduplicate(events), true, metricTime, rules)
    ensures a.unrelated == Select(Deduplicate(events), false, metricTime, rules)
    ensures forall impact :: Count(a.counts, impact) == CountOf(a.relevant, impact, metricTime, rules)
  {
    var severity, issues := AssessMetrics(reachable, u);
    var raw := KeepOnePerOccurrence(events);
    var relevant, unrelated := Partition(raw, metricTime, rules);
    var counts := CountImpacts(relevant, metricTime, rules);
    severity := RaiseForEvents(severity, Count(counts, ActiveIssue), Count(counts, LikelyIssue), issues != []);
    a := Assessment(severity, issues, relevant, unrelated, counts);
  }

  // The two raises that follow from the impact counts.
  method RaiseForEvents(severity: Severity, active: nat, likely: nat, breached: bool) returns (raised: Severity)
    ensures raised == Join(severity, EventLevel(active, likely, breached))
  {
    raised := severity;
    if active > 0 {
      raised := Join(raised, if breached then Critical else Warning);
    }
    if likely > 0 && (breached || likely >= 2) {
      raised := Join(raised, Warning);
    }
  }

  method KeepOnePerOccurrence(events: seq<Event>) returns (raw: seq<Event>)
    ensures raw == Deduplicate(events)
  {
    raw := [];
    for k := 0 to |events|
      invariant raw == Deduplicate(events[..k])
    {
      assert events[..k + 1][..k] == events[..k];
      raw := Record(raw, events[k]);
    }
    assert events[..|events|] == events;
  }

  method Partition(raw: seq<Event>, metricTime: int, rules: Rules) returns (relevant: seq<Event>, unrelated: seq<Event>)
    ensures relevant == Select(raw, true, metricTime, rules) && unrelated == Select(raw, false, metricTime, rules)
  {
    relevant, unrelated := [], [];
    for k := 0 to |raw|
      invariant relevant == Select(raw[..k], true, metricTime, rules)
      invariant unrelated == Select(raw[..k], false, metricTime, rules)
    {
      assert raw[..k + 1][..k] == raw[..k];
      if Relevant(raw[k], metricTime, rules) {
        relevant := relevant + [raw[k]];
      } else {
        unrelated := unrelated + [raw[k]];
      }
    }
    assert raw[..|raw|] == raw;
  }

  method CountImpacts(relevant: seq<Event>, metricTime: int, rules: Rules) returns (counts: map<Impact, nat>)
    ensures forall impact :: Count(counts, impact) == CountOf(relevant, impact, metricTime, rules)
  {
    counts := map[];
    for k := 0 to |relevant|
      invariant forall impact :: Count(counts, impact) == CountOf(relevant[..k], impact, metricTime, rules)
    {
      assert relevant[..k + 1][..k] == relevant[..k];
      var impact := ImpactOf(relevant[k], metricTime, rules);
      counts := counts[impact := Count(counts, impact) + 1];
    }
    assert relevant[..|relevant|] == relevant;
  }

  // ---- what the severity means ----------------------------------------------------------------

  lemma {:induction false} DiskIssuesAre(filesystems: seq<Option<real>>)
    ensures DiskIssues(filesystems) != [] <==> !DiskLevel(filesystems).Healthy?
    ensures !DiskLevel(filesystems).Unknown?
  {
    if filesystems != [] {
      DiskIssuesAre(filesystems[..|filesystems| - 1]);
    }
  }

  // The join is the level of some filesystem, and no filesystem is above it.
  lemma {:induction false} DiskLevelIs(filesystems: seq<Option<real>>, f: Option<real>)
    ensures f in filesystems ==> Level(f, 80.0, 90.0).Order() <= DiskLevel(filesystems).Order()
    ensures DiskLevel(filesystems).Healthy? || exists g :: g in filesystems && Level(g, 80.0, 90.0) == DiskLevel(filesystems)
  {
    if filesystems != [] {
      var before, last := filesystems[..|filesystems| - 1], filesystems[|filesystems| - 1];
      DiskLevelIs(before, f);
      assert filesystems == before + [last];
    }
  }

  lemma DisksBreachTogether(filesystems: seq<Option<real>>)
    ensures DiskIssues(filesystems) != [] <==> !DiskLevel(filesystems).Healthy?
    ensures DiskLevel(filesystems).Critical? <==> exists f :: f in filesystems && Level(f, 80.0, 90.0).Critical?
    ensures DiskLevel(filesystems).Healthy? <==> forall f | f in filesystems :: Level(f, 80.0, 90.0).Healthy?
    ensures !DiskLevel(filesystems).Unknown?
  {
    DiskIssuesAre(filesystems);
    DiskLevelIs(filesystems, None);
    forall f | f in filesystems
      ensures Level(f, 80.0, 90.0).Order() <= DiskLevel(filesystems).Order()
    {
      DiskLevelIs(filesystems, f);
    }
  }

  // The load is that much for every CPU.
  predicate LoadReaches(u: Utilization, share: real) {
    u.load.Some? && u.cpuCount.Some? && u.cpuCount.value > 0.0 && u.load.value >= share * u.cpuCount.value
  }

  lemma RatioReaches(load: real, cpus: real, share: real)
    requires cpus > 0.0
    ensures load / cpus >= share <==> load >= share * cpus
  {
    var ratio := load / cpus;
    assert ratio * cpus == load;
    if ratio >= share {
      assert (ratio - share) * cpus >= 0.0;
    } else {
      assert (share - ratio) * cpus > 0.0;
    }
  }

  lemma LoadMeans(u: Utilization)
    ensures LoadLevel(u).Critical? <==> LoadReaches(u, 1.5)
    ensures LoadLevel(u).Healthy? <==> !LoadReaches(u, 1.0)
    ensures !LoadLevel(u).Unknown?
  {
    if LoadRatio(u).Some? {
      RatioReaches(u.load.value, u.cpuCount.value, 1.5);
      RatioReaches(u.load.value, u.cpuCount.value, 1.0);
    }
  }

  predicate MetricCritical(u: Utilization) {
    || (u.cpu.Some? && u.cpu.value >= 90.0) || (u.memory.Some? && u.memory.value >= 90.0)
    || (exists f | f in u.filesystems :: f.Some? && f.value >= 90.0)
    || LoadReaches(u, 1.5)
  }

  predicate MetricBreached(u: Utilization) {
    || (u.cpu.Some? && u.cpu.value >= 75.0) || (u.memory.Some? && u.memory.value >= 80.0)
    || (exists f | f in u.filesystems :: f.Some? && f.value >= 80.0)
    || LoadReaches(u, 1.0)
  }

  lemma MetricsMean(u: Utilization)
    ensures Issues(u) != [] <==> MetricBreached(u)
    ensures MetricLevel(u).Critical? <==> MetricCritical(u)
    ensures MetricLevel(u).Healthy? <==> !MetricBreached(u)
    ensures !MetricLevel(u).Unknown?
  {
    LoadMeans(u);
    DisksBreachTogether(u.filesystems);
    if DiskLevel(u.filesystems).Critical? {
      var f :| f in u.filesystems && Level(f, 80.0, 90.0).Critical?;
      assert f.Some? && f.value >= 90.0;
    }
    if f :| f in u.filesystems && f.Some? && f.value >= 90.0 {
      assert Level(f, 80.0, 90.0).Critical?;
    }
    if f :| f in u.filesystems && f.Some? && f.value >= 80.0 {
      assert !Level(f, 80.0, 90.0).Healthy?;
    }
  }

  // Critical exactly when the target is unreachable, a metric is at its critical threshold, or an
  // active event coincides with some metric breach.
  lemma CriticalIff(reachable: Option<bool>, u: Utilization, events: seq<Event>, metricTime: int, rules: Rules)
    ensures SeverityOf(reachable, u, events, metricTime, rules).Critical? <==>
            || reachable == Some(false) || MetricCritical(u)
            || (Weight(events, ActiveIssue, metricTime, rules) > 0 && MetricBreached(u))
  {
    MetricsMean(u);
  }

  // So log events alone never make a reachable target critical.
  lemma LogsAloneAreNeverCritical(u: Utilization, events: seq<Event>, metricTime: int, rules: Rules)
    requires !MetricBreached(u)
    ensures !SeverityOf(Some(true), u, events, metricTime, rules).Critical?
    ensures !SeverityOf(None, u, events, metricTime, rules).Critical?
  {
    MetricsMean(u);
  }

  // Healthy exactly when reachable, with no breach, no metrics error, no active event and fewer
  // than two likely ones.
  lemma HealthyIff(reachable: Option<bool>, u: Utilization, events: seq<Event>, metricTime: int, rules: Rules)
    ensures SeverityOf(reachable, u, events, metricTime, rules).Healthy? <==>
            && reachable == Some(true) && !MetricBreached(u) && !u.failed
            && Weight(events, ActiveIssue, metricTime, rules) == 0 && Weight(events, LikelyIssue, metricTime, rules) < 2
  {
    MetricsMean(u);
  }

  // Warning exactly when not critical, and some metric is breached, an event is active or two are
  // likely.
  lemma WarningIff(reachable: Option<bool>, u: Utilization, events: seq<Event>, metricTime: int, rules: Rules)
    ensures SeverityOf(reachable, u, events, metricTime, rules).Warning? <==>
            && !SeverityOf(reachable, u, events, metricTime, rules).Critical?
            && (MetricBreached(u) || Weight(events, ActiveIssue, metricTime, rules) > 0
                || Weight(events, LikelyIssue, metricTime, rules) >= 2)
  {
    MetricsMean(u);
  }

  // Which metrics are reported as issues.
  lemma IssuesMean(u: Utilization)
    ensures Cpu in Issues(u) <==> u.cpu.Some? && u.cpu.value >= 75.0
    ensures Memory in Issues(u) <==> u.memory.Some? && u.memory.value >= 80.0
    ensures Disk in Issues(u) <==> exists f | f in u.filesystems :: f.Some? && f.value >= 80.0
    ensures Load in Issues(u) <==> LoadReaches(u, 1.0)
  {
    LoadMeans(u);
    DisksBreachTogether(u.filesystems);
    OnlyDisks(u.filesystems);
    if f :| f in u.filesystems && f.Some? && f.value >= 80.0 {
      assert !Level(f, 80.0, 90.0).Healthy?;
    }
  }

  lemma {:induction false} OnlyDisks(filesystems: seq<Option<real>>)
    ensures forall issue | issue in DiskIssues(filesystems) :: issue == Disk
    ensures Disk in DiskIssues(filesystems) <==> DiskIssues(filesystems) != []
  {
    if filesystems != [] {
      OnlyDisks(filesystems[..|filesystems| - 1]);
    }
  }

  predicate AtMost(a: Option<real>, b: Option<real>) {
    a.Some? ==> b.Some? && a.value <= b.value
  }

  // Every metric of `v` is at least that of `u`, on as many CPUs.
  ghost predicate NoBetter(u: Utilization, v: Utilization) {
    && AtMost(u.cpu, v.cpu) && AtMost(u.memory, v.memory) && AtMost(u.load, v.load) && u.cpuCount == v.cpuCount
    && |u.filesystems| == |v.filesystems| && (u.failed ==> v.failed)
    && forall k | 0 <= k < |u.filesystems| :: AtMost(u.filesystems[k], v.filesystems[k])
  }

  lemma LevelIsMonotone(a: Option<real>, b: Option<real>, warning: real, critical: real)
    requires AtMost(a, b) && warning <= critical
    ensures Level(a, warning, critical).Order() <= Level(b, warning, critical).Order()
  {
  }

  lemma {:induction false} DiskLevelIsMonotone(a: seq<Option<real>>, b: seq<Option<real>>)
    requires |a| == |b| && forall k | 0 <= k < |a| :: AtMost(a[k], b[k])
    ensures DiskLevel(a).Order() <= DiskLevel(b).Order()
  {
    if a != [] {
      DiskLevelIsMonotone(a[..|a| - 1], b[..|b| - 1]);
      LevelIsMonotone(a[|a| - 1], b[|b| - 1], 80.0, 90.0);
    }
  }

  lemma RatioIsMonotone(a: real, b: real, cpus: real)
    requires a <= b && cpus > 0.0
    ensures a / cpus <= b / cpus
  {
    assert b / cpus == a / cpus + (b - a) / cpus;
  }

  lemma JoinIsMonotone(a: Severity, b: Severity, c: Severity, d: Severity)
    requires a.Order() <= c.Order() && b.Order() <= d.Order()
    ensures Join(a, b).Order() <= Join(c, d).Order()
  {
  }

  lemma MetricLevelIsMonotone(u: Utilization, v: Utilization)
    requires NoBetter(u, v)
    ensures MetricLevel(u).Order() <= MetricLevel(v).Order()
  {
    LevelIsMonotone(u.cpu, v.cpu, 75.0, 90.0);
    LevelIsMonotone(u.memory, v.memory, 80.0, 90.0);
    DiskLevelIsMonotone(u.filesystems, v.filesystems);
    if LoadRatio(u).Some? {
      RatioIsMonotone(u.load.value, v.load.value, u.cpuCount.value);
    }
    LevelIsMonotone(LoadRatio(u), LoadRatio(v), 1.0, 1.5);
    JoinIsMonotone(CpuLevel(u), MemoryLevel(u), CpuLevel(v), MemoryLevel(v));
    JoinIsMonotone(Join(CpuLevel(u), MemoryLevel(u)), DiskLevel(u.filesystems),
                   Join(CpuLevel(v), MemoryLevel(v)), DiskLevel(v.filesystems));
  }

  // Worse metrics never lower the severity, whatever the logs say.
  lemma SeverityIsMonotone(reachable: Option<bool>, u: Utilization, v: Utilization, events: seq<Event>, metricTime: int,
                           rules: Rules)
    requires NoBetter(u, v)
    ensures SeverityOf(reachable, u, events, metricTime, rules).Order()
            <= SeverityOf(reachable, v, events, metricTime, rules).Order()
  {
    MetricLevelIsMonotone(u, v);
    MetricsMean(u);
    MetricsMean(v);
  }

  // ---- what the events mean -------------------------------------------------------------------

  function Occurrences(events: seq<Event>): set<(string, string)> {
    set e | e in events :: e.Occurrence()
  }

  // The events have distinct occurrences.
  predicate OnePerOccurrence(events: seq<Event>) {
    events == [] || ((forall e | e in events[1..] :: e.Occurrence() != events[0].Occurrence()) && OnePerOccurrence(events[1..]))
  }

  // `e` is one of the events and no event of its occurrence has a better category.
  ghost predicate Represents(e: Event, events: seq<Event>) {
    e in events && forall f | f in events && f.Occurrence() == e.Occurrence() :: Priority(e.category) <= Priority(f.category)
  }

  lemma {:induction false} RecordOccurrences(known: seq<Event>, e: Event)
    ensures Occurrences(Record(known, e)) == Occurrences(known) + {e.Occurrence()}
  {
    if known != [] {
      assert known == [known[0]] + known[1..];
      assert Occurrences(known) == {known[0].Occurrence()} + Occurrences(known[1..]);
      if known[0].Occurrence() != e.Occurrence() {
        RecordOccurrences(known[1..], e);
        assert Occurrences(Record(known, e)) == {known[0].Occurrence()} + Occurrences(Record(known[1..], e));
      } else {
        assert Occurrences(Record(known, e)) == {e.Occurrence()} + Occurrences(known[1..]);
      }
    }
  }

  lemma OneMoreOccurrence(head: Event, tail: seq<Event>)
    requires OnePerOccurrence(tail) && head.Occurrence() !in Occurrences(tail)
    ensures OnePerOccurrence([head] + tail)
  {
    assert ([head] + tail)[1..] == tail;
    assert forall e | e in tail :: e.Occurrence() in Occurrences(tail);
  }

  lemma {:induction false} RecordKeepsOne(known: seq<Event>, e: Event)
    requires OnePerOccurrence(known)
    ensures OnePerOccurrence(Record(known, e))
  {
    if known != [] {
      var head, rest := known[0], known[1..];
      assert head.Occurrence() !in Occurrences(rest);
      if head.Occurrence() != e.Occurrence() {
        RecordKeepsOne(rest, e);
        RecordOccurrences(rest, e);
        OneMoreOccurrence(head, Record(rest, e));
      } else {
        OneMoreOccurrence(head, rest);
        OneMoreOccurrence(e, rest);
      }
    }
  }

  // A kept event is an old one, or the new one, and then at least as good as those it stands for.
  lemma {:induction false} RecordPicks(known: seq<Event>, e: Event, r: Event)
    requires OnePerOccurrence(known) && r in Record(known, e)
    ensures r == e || r in known
    ensures r.Occurrence() == e.Occurrence() ==> Priority(r.category) <= Priority(e.category)
    ensures r == e ==> forall k | k in known && k.Occurrence() == e.Occurrence() :: Priority(e.category) <= Priority(k.category)
  {
    if known != [] {
      assert known == [known[0]] + known[1..];
      if known[0].Occurrence() != e.Occurrence() && r in Record(known[1..], e) {
        RecordPicks(known[1..], e, r);
      } else if known[0].Occurrence() == e.Occurrence() && r in known[1..] {
        assert r.Occurrence() != e.Occurrence();
      }
    }
  }

  // Each distinct occurrence is kept once, represented by an event of its best category.
  lemma {:induction false} DeduplicationRepresents(events: seq<Event>)
    ensures OnePerOccurrence(Deduplicate(events))
    ensures Occurrences(Deduplicate(events)) == Occurrences(events)
    ensures forall r | r in Deduplicate(events) :: Represents(r, events)
  {
    if events != [] {
      var before, e := events[..|events| - 1], events[|events| - 1];
      DeduplicationRepresents(before);
      assert events == before + [e];
      var known := Deduplicate(before);
      RecordOccurrences(known, e);
      RecordKeepsOne(known, e);
      forall r | r in Deduplicate(events) ensures Represents(r, events) {
        RecordPicks(known, e, r);
        forall f | f in before && f.Occurrence() == r.Occurrence()
          ensures Priority(r.category) <= Priority(f.category)
        {
          BestSoFar(before, known, e, r, f);
        }
      }
    }
  }

  lemma BestSoFar(before: seq<Event>, known: seq<Event>, e: Event, r: Event, f: Event)
    requires OnePerOccurrence(known) && r in Record(known, e) && f in before && f.Occurrence() == r.Occurrence()
    requires Occurrences(known) == Occurrences(before) && forall k | k in known :: Represents(k, before)
    ensures Priority(r.category) <= Priority(f.category)
  {
    RecordPicks(known, e, r);
    assert f.Occurrence() in Occurrences(known);
    var k :| k in known && k.Occurrence() == f.Occurrence();
    assert Represents(k, before);
    if r in known {
      assert Represents(r, before);
    }
  }

  lemma {:induction false} OnePerOccurrenceCounts(events: seq<Event>)
    requires OnePerOccurrence(events)
    ensures |Occurrences(events)| == |events|
  {
    if events != [] {
      OnePerOccurrenceCounts(events[1..]);
      assert events == [events[0]] + events[1..];
      assert Occurrences(events) == Occurrences(events[1..]) + {events[0].Occurrence()};
    }
  }

  lemma {:induction false} SelectionPartitions(events: seq<Event>, metricTime: int, rules: Rules)
    ensures var relevant, unrelated := Select(events, true, metricTime, rules), Select(events, false, metricTime, rules);
            && |relevant| + |unrelated| == |events|
            && (forall e :: e in relevant <==> e in events && Relevant(e, metricTime, rules))
            && (forall e :: e in unrelated <==> e in events && !Relevant(e, metricTime, rules))
  {
    if events != [] {
      var before, last := events[..|events| - 1], events[|events| - 1];
      SelectionPartitions(before, metricTime, rules);
      assert events == before + [last];
    }
  }

  // Relevant and unrelated events partition the distinct occurrences.
  lemma EventsPartitionOccurrences(events: seq<Event>, metricTime: int, rules: Rules)
    ensures var relevant := Select(Deduplicate(events), true, metricTime, rules);
            var unrelated := Select(Deduplicate(events), false, metricTime, rules);
            && |relevant| + |unrelated| == |Occurrences(events)|
            && Occurrences(relevant) + Occurrences(unrelated) == Occurrences(events)
            && Occurrences(relevant) !! Occurrences(unrelated)
  {
    var kept := Deduplicate(events);
    var relevant, unrelated := Select(kept, true, metricTime, rules), Select(kept, false, metricTime, rules);
    DeduplicationRepresents(events);
    OnePerOccurrenceCounts(kept);
    SelectionPartitions(kept, metricTime, rules);
    assert Occurrences(relevant) + Occurrences(unrelated) == Occurrences(kept);
    forall a, b | a in relevant && b in unrelated ensures a.Occurrence() != b.Occurrence() {
      OneOfEach(kept, a, b);
    }
  }

  lemma {:induction false} OneOfEach(events: seq<Event>, a: Event, b: Event)
    requires OnePerOccurrence(events) && a in events && b in events
    ensures a.Occurrence() == b.Occurrence() ==> a == b
  {
    if a != events[0] && b != events[0] {
      OneOfEach(events[1..], a, b);
    }
  }

  function Total(events: seq<Event>, kinds: nat, metricTime: int, rules: Rules): nat
    requires kinds <= |IMPACTS|
  {
    if kinds == 0 then 0
    else Total(events, kinds - 1, metricTime, rules) + CountOf(events, IMPACTS[kinds - 1], metricTime, rules)
  }

  function Index(impact: Impact): (k: nat)
    ensures k < |IMPACTS| && IMPACTS[k] == impact
  {
    match impact
    case Historical => 0
    case Routine => 1
    case MonitoringPipeline => 2
    case Configuration => 3
    case ActiveIssue => 4
    case LikelyIssue => 5
    case Isolated => 6
    case Informational => 7
    case Unclassified => 8
  }

  lemma ImpactsDiffer(k: nat)
    requires k < |IMPACTS|
    ensures Index(IMPACTS[k]) == k
  {
  }

  lemma {:induction false} OneMoreEvent(before: seq<Event>, e: Event, kinds: nat, metricTime: int, rules: Rules)
    requires kinds <= |IMPACTS|
    ensures Total(before + [e], kinds, metricTime, rules)
            == Total(before, kinds, metricTime, rules) + if Index(ImpactOf(e, metricTime, rules)) < kinds then 1 else 0
  {
    if kinds > 0 {
      OneMoreEvent(before, e, kinds - 1, metricTime, rules);
      ImpactsDiffer(kinds - 1);
      assert (before + [e])[..|before|] == before;
    }
  }

  // The impact counts add up to the number of events counted.
  lemma {:induction false} CountsAddUp(events: seq<Event>, metricTime: int, rules: Rules)
    ensures Total(events, |IMPACTS|, metricTime, rules) == |events|
  {
    if events == [] {
      NothingToCount(|IMPACTS|, metricTime, rules);
    } else {
      var before, e := events[..|events| - 1], events[|events| - 1];
      CountsAddUp(before, metricTime, rules);
      OneMoreEvent(before, e, |IMPACTS|, metricTime, rules);
      assert events == before + [e];
    }
  }

  lemma {:induction false} NothingToCount(kinds: nat, metricTime: int, rules: Rules)
    requires kinds <= |IMPACTS|
    ensures Total([], kinds, metricTime, rules) == 0
  {
    if kinds > 0 {
      NothingToCount(kinds - 1, metricTime, rules);
    }
  }

  // ---- one more event -------------------------------------------------------------------------

  // The kept event of the same occurrence, if there is one.
  function Seen(known: seq<Event>, e: Event): Option<Event> {
    if known == [] then None
    else if known[0].Occurrence() == e.Occurrence() then Some(known[0])
    else Seen(known[1..], e)
  }

  // The event replaces a kept event of its occurrence.
  predicate TakesOver(known: seq<Event>, e: Event) {
    Seen(known, e).Some? && Priority(e.category) < Priority(Seen(known, e).value.category)
  }

  function WeightIn(kept: seq<Event>, impact: Impact, metricTime: int, rules: Rules): nat {
    CountOf(Select(kept, true, metricTime, rules), impact, metricTime, rules)
  }

  function Point(e: Event, impact: Impact, metricTime: int, rules: Rules): nat {
    if Relevant(e, metricTime, rules) && ImpactOf(e, metricTime, rules) == impact then 1 else 0
  }

  lemma WeightAppends(kept: seq<Event>, e: Event, impact: Impact, metricTime: int, rules: Rules)
    ensures WeightIn(kept + [e], impact, metricTime, rules)
            == WeightIn(kept, impact, metricTime, rules) + Point(e, impact, metricTime, rules)
  {
    var relevant := Select(kept, true, metricTime, rules);
    assert (kept + [e])[..|kept|] == kept;
    assert (relevant + [e])[..|relevant|] == relevant;
    assert relevant + [] == relevant;
  }

  function Points(kept: seq<Event>, impact: Impact, metricTime: int, rules: Rules): nat {
    if kept == [] then 0
    else Point(kept[0], impact, metricTime, rules) + Points(kept[1..], impact, metricTime, rules)
  }

  lemma {:induction false} PointsAppend(kept: seq<Event>, e: Event, impact: Impact, metricTime: int, rules: Rules)
    ensures Points(kept + [e], impact, metricTime, rules)
            == Points(kept, impact, metricTime, rules) + Point(e, impact, metricTime, rules)
  {
    if kept == [] {
      assert kept + [e] == [e];
    } else {
      PointsAppend(kept[1..], e, impact, metricTime, rules);
      assert (kept + [e])[1..] == kept[1..] + [e];
    }
  }

  lemma {:induction false} WeightIsPoints(kept: seq<Event>, impact: Impact, metricTime: int, rules: Rules)
    ensures WeightIn(kept, impact, metricTime, rules) == Points(kept, impact, metricTime, rules)
  {
    if kept != [] {
      var before, last := kept[..|kept| - 1], kept[|kept| - 1];
      WeightIsPoints(before, impact, metricTime, rules);
      WeightAppends(before, last, impact, metricTime, rules);
      PointsAppend(before, last, impact, metricTime, rules);
      assert kept == before + [last];
    }
  }

  // What one more event adds to an impact's weight: its own point where it is kept, less that of
  // the event it takes over.
  lemma {:induction false} RecordPoints(known: seq<Event>, e: Event, impact: Impact, metricTime: int, rules: Rules)
    ensures Points(Record(known, e), impact, metricTime, rules)
            == Points(known, impact, metricTime, rules)
               + (if Seen(known, e).None? || TakesOver(known, e) then Point(e, impact, metricTime, rules) else 0)
               - (if TakesOver(known, e) then Point(Seen(known, e).value, impact, metricTime, rules) else 0)
  {
    if known != [] {
      var head, rest := known[0], known[1..];
      if head.Occurrence() != e.Occurrence() {
        RecordPoints(rest, e, impact, metricTime, rules);
        assert ([head] + Record(rest, e))[1..] == Record(rest, e);
      } else {
        assert Record(known, e)[1..] == rest;
      }
    }
  }

  lemma OneMoreWeight(events: seq<Event>, e: Event, impact: Impact, metricTime: int, rules: Rules)
    ensures var known := Deduplicate(events);
            Weight(events + [e], impact, metricTime, rules)
            == Weight(events, impact, metricTime, rules)
               + (if Seen(known, e).None? || TakesOver(known, e) then Point(e, impact, metricTime, rules) else 0)
               - (if TakesOver(known, e) then Point(Seen(known, e).value, impact, metricTime, rules) else 0)
  {
    assert (events + [e])[..|events|] == events;
    RecordPoints(Deduplicate(events), e, impact, metricTime, rules);
    WeightIsPoints(Deduplicate(events), impact, metricTime, rules);
    WeightIsPoints(Deduplicate(events + [e]), impact, metricTime, rules);
  }

  lemma {:induction false} SeenIsKept(known: seq<Event>, e: Event)
    ensures Seen(known, e).Some? ==> Seen(known, e).value in known && Seen(known, e).value.Occurrence() == e.Occurrence()
    ensures Seen(known, e).None? <==> e.Occurrence() !in Occurrences(known)
  {
    if known != [] {
      SeenIsKept(known[1..], e);
      assert known == [known[0]] + known[1..];
      assert Occurrences(known) == {known[0].Occurrence()} + Occurrences(known[1..]);
    }
  }

  // The events of an occurrence share time and summary, and so all but what the category decides.
  lemma PointsOfOccurrence(k: Event, e: Event, metricTime: int, rules: Rules)
    requires k.Occurrence() == e.Occurrence()
    ensures Point(e, ActiveIssue, metricTime, rules) == Point(k, ActiveIssue, metricTime, rules)
    ensures Point(e, LikelyIssue, metricTime, rules)
            == if Aligned(e, metricTime, rules) && rules.read(e.summary).NoPattern? && CategoryImpact(e.category).LikelyIssue?
               then 1 else 0
    ensures Point(k, LikelyIssue, metricTime, rules)
            == if Aligned(e, metricTime, rules) && rules.read(e.summary).NoPattern? && CategoryImpact(k.category).LikelyIssue?
               then 1 else 0
  {
  }

  // Active degradation is read off the summary: no event can hide it.
  lemma ActiveWeightNeverFalls(events: seq<Event>, e: Event, metricTime: int, rules: Rules)
    ensures Weight(events, ActiveIssue, metricTime, rules) <= Weight(events + [e], ActiveIssue, metricTime, rules)
    ensures TakesOver(Deduplicate(events), e) ==>
              Weight(events, ActiveIssue, metricTime, rules) == Weight(events + [e], ActiveIssue, metricTime, rules)
  {
    OneMoreWeight(events, e, ActiveIssue, metricTime, rules);
    var k := Seen(Deduplicate(events), e);
    if k.Some? {
      SeenIsKept(Deduplicate(events), e);
      PointsOfOccurrence(k.value, e, metricTime, rules);
    }
  }

  // The event takes over a kept event that counts as likely, and does not count as likely itself.
  predicate Disarms(known: seq<Event>, e: Event, metricTime: int, rules: Rules) {
    && TakesOver(known, e) && Aligned(e, metricTime, rules) && rules.read(e.summary).NoPattern?
    && CategoryImpact(Seen(known, e).value.category).LikelyIssue? && !CategoryImpact(e.category).LikelyIssue?
  }

  // The likely events can become fewer, by one, exactly when the event disarms one of them.
  lemma LikelyWeightFallsIff(events: seq<Event>, e: Event, metricTime: int, rules: Rules)
    ensures var before, after := Weight(events, LikelyIssue, metricTime, rules),
                                 Weight(events + [e], LikelyIssue, metricTime, rules);
            if Disarms(Deduplicate(events), e, metricTime, rules) then after == before - 1 else before <= after
  {
    OneMoreWeight(events, e, LikelyIssue, metricTime, rules);
    var k := Seen(Deduplicate(events), e);
    if k.Some? {
      SeenIsKept(Deduplicate(events), e);
      PointsOfOccurrence(k.value, e, metricTime, rules);
    }
  }

  lemma EventLevelFallsIff(active: nat, likely: nat, more: nat, others: nat, breached: bool, base: Severity)
    requires active <= more && (likely <= others || others == likely - 1)
    requires breached ==> base.Order() >= Warning.Order()
    ensures Join(base, EventLevel(more, others, breached)).Order() < Join(base, EventLevel(active, likely, breached)).Order()
            <==> others < likely && likely == 2 && more == 0 && !breached && base.Order() < Warning.Order()
  {
  }

  // Exactly when a further event lowers the severity: it disarms one of just two likely events, no
  // event is active (itself included), no metric is breached and the target is not unreachable.
  lemma SeverityFallsIff(reachable: Option<bool>, u: Utilization, events: seq<Event>, e: Event, metricTime: int,
                         rules: Rules)
    ensures SeverityOf(reachable, u, events + [e], metricTime, rules).Order()
            < SeverityOf(reachable, u, events, metricTime, rules).Order()
            <==>
            && Disarms(Deduplicate(events), e, metricTime, rules)
            && Weight(events, LikelyIssue, metricTime, rules) == 2 && Weight(events, ActiveIssue, metricTime, rules) == 0
            && !MetricBreached(u) && reachable != Some(false)
  {
    ActiveWeightNeverFalls(events, e, metricTime, rules);
    LikelyWeightFallsIff(events, e, metricTime, rules);
    BaseSeverity(reachable, u);
    EventLevelFallsIff(Weight(events, ActiveIssue, metricTime, rules), Weight(events, LikelyIssue, metricTime, rules),
                       Weight(events + [e], ActiveIssue, metricTime, rules),
                       Weight(events + [e], LikelyIssue, metricTime, rules), Issues(u) != [], Base(reachable, u));
  }

  lemma BaseSeverity(reachable: Option<bool>, u: Utilization)
    ensures Base(reachable, u).Order() < Warning.Order() <==> !MetricBreached(u) && reachable != Some(false)
    ensures Issues(u) != [] <==> MetricBreached(u)
  {
    MetricsMean(u);
  }

  // ---- which events count ---------------------------------------------------------------------

  // Within two hours of the metrics.
  predicate InWindow(e: Event, metricTime: int, rules: Rules) {
    var time := rules.parse(e.observedAt);
    time.Some? && -7200 <= time.value - metricTime <= 7200
  }

  predicate LikelyName(category: Category) {
    category.Named? && category.name in {Oom, Crashes, Filesystem, ApplicationFailures}
  }

  // One event counts as active by its summary, and as likely by its category where the summary says
  // nothing.
  lemma PointMeans(e: Event, metricTime: int, rules: Rules)
    ensures Point(e, ActiveIssue, metricTime, rules) == 1 <==>
            InWindow(e, metricTime, rules) && rules.read(e.summary).Degradation?
    ensures Point(e, LikelyIssue, metricTime, rules) == 1 <==>
            InWindow(e, metricTime, rules) && rules.read(e.summary).NoPattern? && LikelyName(e.category)
  {
  }

  // Relevant are the events in the window that are not about a unit's life cycle.
  lemma RelevantIff(events: seq<Event>, e: Event, metricTime: int, rules: Rules)
    ensures e in Select(Deduplicate(events), true, metricTime, rules) <==>
            e in Deduplicate(events) && InWindow(e, metricTime, rules) && !rules.read(e.summary).Lifecycle?
  {
    SelectionPartitions(Deduplicate(events), metricTime, rules);
  }

  lemma {:induction false} PointsAreSome(kept: seq<Event>, impact: Impact, metricTime: int, rules: Rules)
    ensures Points(kept, impact, metricTime, rules) > 0 <==>
            exists k :: k in kept && Point(k, impact, metricTime, rules) == 1
  {
    if kept != [] {
      PointsAreSome(kept[1..], impact, metricTime, rules);
      assert kept == [kept[0]] + kept[1..];
    }
  }

  // Some event is active exactly when one in the window reads as a degradation, whatever else was
  // reported of the same occurrence.
  lemma ActiveIff(events: seq<Event>, metricTime: int, rules: Rules)
    ensures Weight(events, ActiveIssue, metricTime, rules) > 0 <==>
            exists e :: e in events && InWindow(e, metricTime, rules) && rules.read(e.summary).Degradation?
  {
    var kept := Deduplicate(events);
    WeightIsPoints(kept, ActiveIssue, metricTime, rules);
    PointsAreSome(kept, ActiveIssue, metricTime, rules);
    DeduplicationRepresents(events);
    if e :| e in events && InWindow(e, metricTime, rules) && rules.read(e.summary).Degradation? {
      assert e.Occurrence() in Occurrences(kept);
      var k :| k in kept && k.Occurrence() == e.Occurrence();
      PointMeans(k, metricTime, rules);
    }
    if k :| k in kept && Point(k, ActiveIssue, metricTime, rules) == 1 {
      PointMeans(k, metricTime, rules);
      assert Represents(k, events);
    }
  }

  // A degradation in the window makes the target at least a warning, and critical with a breach.
  lemma DegradationWarns(reachable: Option<bool>, u: Utilization, events: seq<Event>, e: Event, metricTime: int, rules: Rules)
    requires e in events && InWindow(e, metricTime, rules) && rules.read(e.summary).Degradation?
    ensures var severity := SeverityOf(reachable, u, events, metricTime, rules);
            (severity.Warning? || severity.Critical?) && (MetricBreached(u) ==> severity.Critical?)
  {
    ActiveIff(events, metricTime, rules);
    WarningIff(reachable, u, events, metricTime, rules);
    CriticalIff(reachable, u, events, metricTime, rules);
  }

  // An event outside the window, or about a unit's life cycle, the monitoring pipeline or
  // configuration, never moves the severity.
  lemma OthersAreSilent(reachable: Option<bool>, u: Utilization, events: seq<Event>, e: Event, metricTime: int, rules: Rules)
    requires !InWindow(e, metricTime, rules)
             || rules.read(e.summary) in {Lifecycle, Pipeline, Metadata}
    ensures SeverityOf(reachable, u, events + [e], metricTime, rules) == SeverityOf(reachable, u, events, metricTime, rules)
  {
    NoPoints(events, e, ActiveIssue, metricTime, rules);
    NoPoints(events, e, LikelyIssue, metricTime, rules);
  }

  lemma NoPoints(events: seq<Event>, e: Event, impact: Impact, metricTime: int, rules: Rules)
    requires impact.ActiveIssue? || impact.LikelyIssue?
    requires !InWindow(e, metricTime, rules)
             || rules.read(e.summary) in {Lifecycle, Pipeline, Metadata}
    ensures Weight(events + [e], impact, metricTime, rules) == Weight(events, impact, metricTime, rules)
  {
    OneMoreWeight(events, e, impact, metricTime, rules);
    PointMeans(e, metricTime, rules);
    var k := Seen(Deduplicate(events), e);
    if k.Some? {
      SeenIsKept(Deduplicate(events), e);
      PointMeans(k.value, metricTime, rules);
    }
  }

  function Counted(kept: seq<Event>, impact: Impact, metricTime: int, rules: Rules): set<Event> {
    set k | k in kept && Point(k, impact, metricTime, rules) == 1
  }

  lemma CountedSplits(head: Event, rest: seq<Event>, impact: Impact, metricTime: int, rules: Rules)
    ensures Counted([head] + rest, impact, metricTime, rules)
            == Counted(rest, impact, metricTime, rules)
               + if Point(head, impact, metricTime, rules) == 1 then {head} else {}
  {
  }

  lemma {:induction false} PointsAreCounted(kept: seq<Event>, impact: Impact, metricTime: int, rules: Rules)
    requires OnePerOccurrence(kept)
    ensures Points(kept, impact, metricTime, rules) == |Counted(kept, impact, metricTime, rules)|
  {
    if kept != [] {
      var head, rest := kept[0], kept[1..];
      PointsAreCounted(rest, impact, metricTime, rules);
      CountedSplits(head, rest, impact, metricTime, rules);
      assert kept == [head] + rest;
      assert head !in rest;
    }
  }

  // The likely events are the kept ones in the window whose summary says nothing and whose category
  // names a likely issue.
  lemma LikelyAreCounted(events: seq<Event>, metricTime: int, rules: Rules)
    ensures Weight(events, LikelyIssue, metricTime, rules)
            == |set k | k in Deduplicate(events) && InWindow(k, metricTime, rules) && rules.read(k.summary).NoPattern?
                        && LikelyName(k.category)|
  {
    var kept := Deduplicate(events);
    DeduplicationRepresents(events);
    WeightIsPoints(kept, LikelyIssue, metricTime, rules);
    PointsAreCounted(kept, LikelyIssue, metricTime, rules);
    forall k ensures Point(k, LikelyIssue, metricTime, rules) == 1 <==>
                     InWindow(k, metricTime, rules) && rules.read(k.summary).NoPattern? && LikelyName(k.category)
    {
      PointMeans(k, metricTime, rules);
    }
    assert Counted(kept, LikelyIssue, metricTime, rules)
        == set k | k in kept && InWindow(k, metricTime, rules) && rules.read(k.summary).NoPattern? && LikelyName(k.category);
  }

  // A target that reports no metric.
  const IDLE := Utilization(None, None, [], None, None, false)

  lemma IdleSeverity(events: seq<Event>, metricTime: int, rules: Rules)
    ensures SeverityOf(Some(true), IDLE, events, metricTime, rules)
            == EventLevel(Weight(events, ActiveIssue, metricTime, rules), Weight(events, LikelyIssue, metricTime, rules), false)
  {
    assert IDLE.filesystems == [];
  }

  // It happens: two failed jobs are a warning; the same failure reported once more, as an exception,
  // takes over the first report, and a single likely event is left.
  lemma TakeoverCanLower(time: string, metricTime: int, rules: Rules)
    requires Aligned(Event(time, "job a failed", Other("")), metricTime, rules)
    requires rules.read("job a failed").NoPattern? && rules.read("job b failed").NoPattern?
    ensures var failure, exception := Named(ApplicationFailures, true), Named(Exceptions, true);
            var a, b := Event(time, "job a failed", failure), Event(time, "job b failed", failure);
            && SeverityOf(Some(true), IDLE, [a, b], metricTime, rules) == Warning
            && SeverityOf(Some(true), IDLE, [a, b, a.(category := exception)], metricTime, rules) == Healthy
  {
    var failure, exception := Named(ApplicationFailures, true), Named(Exceptions, true);
    var a, b := Event(time, "job a failed", failure), Event(time, "job b failed", failure);
    var c := a.(category := exception);
    assert a.summary[4] != b.summary[4];
    TwoKept(a, b, c);
    LikelyPair([a, b], a, b, metricTime, rules);
    LikelyPair([a, b, c], c, b, metricTime, rules);
  }

  lemma LikelyPair(events: seq<Event>, a: Event, b: Event, metricTime: int, rules: Rules)
    requires Deduplicate(events) == [a, b] && Aligned(a, metricTime, rules) && Aligned(b, metricTime, rules)
    requires rules.read(a.summary).NoPattern? && rules.read(b.summary).NoPattern?
    requires CategoryImpact(b.category).LikelyIssue?
    ensures SeverityOf(Some(true), IDLE, events, metricTime, rules)
            == if CategoryImpact(a.category).LikelyIssue? then Warning else Healthy
  {
    WeightOfTwo(events, a, b, ActiveIssue, metricTime, rules);
    WeightOfTwo(events, a, b, LikelyIssue, metricTime, rules);
    PointsOfOccurrence(a, a, metricTime, rules);
    PointsOfOccurrence(b, b, metricTime, rules);
    IdleSeverity(events, metricTime, rules);
  }

  lemma TwoKept(a: Event, b: Event, c: Event)
    requires a.Occurrence() != b.Occurrence() && c.Occurrence() == a.Occurrence()
    requires Priority(c.category) < Priority(a.category)
    ensures Deduplicate([a, b]) == [a, b] && Deduplicate([a, b, c]) == [c, b]
  {
    assert [a][..0] == [] && [a, b][..1] == [a] && [a, b, c][..2] == [a, b];
    assert Deduplicate([a]) == [a];
    assert Record([a], b) == [a] + Record([], b);
    assert Deduplicate([a, b]) == [a, b];
    assert Record([a, b], c) == [c] + [a, b][1..];
  }

  lemma WeightOfTwo(events: seq<Event>, a: Event, b: Event, impact: Impact, metricTime: int, rules: Rules)
    requires Deduplicate(events) == [a, b]
    ensures Weight(events, impact, metricTime, rules)
            == Point(a, impact, metricTime, rules) + Point(b, impact, metricTime, rules)
  {
    WeightAppends([], a, impact, metricTime, rules);
    WeightAppends([a], b, impact, metricTime, rules);
    assert [] + [a] == [a] && [a] + [b] == [a, b];
  }
}
