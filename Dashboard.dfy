/**
 * The severity pie chart of the dashboard: one slice per severity level, in
 * the order LOW, MEDIUM, HIGH, CRITICAL, each with its count and colour;
 * slices whose count is not positive are dropped, and no metrics at all
 * means no slices.
 */
module Dashboard {
  import opened Wrappers
  import opened AnalysisTypes

  /** One slice of the pie: the severity's name, its count and its colour. */
  datatype PieEntry = PieEntry(name: string, value: int, color: string)

  /** The `COLORS` table: a six-digit hexadecimal CSS colour per severity. */
  function Color(s: Severity): (r: string)
    ensures |r| == 7 && r[0] == '#'
    ensures forall i :: 1 <= i < |r| ==> r[i] in "0123456789abcdef"
  {
    match s
    case LOW => "#10b981"
    case MEDIUM => "#f59e0b"
    case HIGH => "#f97316"
    case CRITICAL => "#ef4444"
  }

  /** The name a slice carries. */
  function SeverityName(s: Severity): string {
    match s
    case LOW => "LOW"
    case MEDIUM => "MEDIUM"
    case HIGH => "HIGH"
    case CRITICAL => "CRITICAL"
  }

  /** Reads a slice name back as the severity it names. */
  function ParseSeverity(name: string): Option<Severity> {
    if name == "LOW" then Some(LOW)
    else if name == "MEDIUM" then Some(MEDIUM)
    else if name == "HIGH" then Some(HIGH)
    else if name == "CRITICAL" then Some(CRITICAL)
    else None
  }

  /** The same-named field of the distribution. */
  function Count(d: SeverityDistribution, s: Severity): int {
    match s
    case LOW => d.LOW
    case MEDIUM => d.MEDIUM
    case HIGH => d.HIGH
    case CRITICAL => d.CRITICAL
  }

  /**
   * The slice for one severity: its name reads back as that severity, and it
   * carries the same-named count and colour.
   */
  function EntryFor(d: SeverityDistribution, s: Severity): (e: PieEntry)
    ensures ParseSeverity(e.name) == Some(s)
    ensures e.value == Count(d, s) && e.color == Color(s)
  {
    NameRoundTrip(s);
    PieEntry(SeverityName(s), Count(d, s), Color(s))
  }

  /** The four slices before filtering: the slice of each severity sits at that severity's rank. */
  function AllEntries(d: SeverityDistribution): (r: seq<PieEntry>)
    ensures |r| == 4
    ensures forall s: Severity :: r[s.Rank()] == EntryFor(d, s)
  {
    [EntryFor(d, LOW), EntryFor(d, MEDIUM), EntryFor(d, HIGH), EntryFor(d, CRITICAL)]
  }

  /** Every entry names a severity, and the entries go strictly up in severity. */
  predicate Ascending(es: seq<PieEntry>) {
    (forall i :: 0 <= i < |es| ==> ParseSeverity(es[i].name).Some?)
    && (forall i, j :: 0 <= i < j < |es| ==>
          ParseSeverity(es[i].name).value.Rank() < ParseSeverity(es[j].name).value.Rank())
  }

  /** Names round-trip through `ParseSeverity`, so distinct severities give distinct names. */
  lemma NameRoundTrip(s: Severity)
    ensures ParseSeverity(SeverityName(s)) == Some(s)
  {
  }

  /** The `COLORS` table gives every severity its own colour. */
  lemma ColorsDistinct(s: Severity, t: Severity)
    requires s != t
    ensures Color(s) != Color(t)
  {
  }

  /** `.filter((item) => item.value > 0)`: keeps exactly the positive entries, in their order. */
  function KeepPositive(es: seq<PieEntry>): (r: seq<PieEntry>)
    ensures |r| <= |es|
    ensures forall e :: e in r <==> e in es && e.value > 0
  {
    if es == [] then []
    else if es[0].value > 0 then [es[0]] + KeepPositive(es[1..])
    else KeepPositive(es[1..])
  }

  /** Filtering distributes over concatenation, so it keeps order and repeated entries. */
  lemma {:induction false} KeepPositiveAppend(a: seq<PieEntry>, b: seq<PieEntry>)
    ensures KeepPositive(a + b) == KeepPositive(a) + KeepPositive(b)
  {
    if a != [] {
      assert (a + b)[1..] == a[1..] + b;
      KeepPositiveAppend(a[1..], b);
    } else {
      assert a + b == b;
    }
  }

  /** Filtering a single entry keeps it exactly when its value is positive. */
  lemma KeepPositiveSingle(e: PieEntry)
    ensures KeepPositive([e]) == if e.value > 0 then [e] else []
  {
    assert [e][1..] == [];
  }

  /** Dropping the first entry keeps a sequence ascending. */
  lemma AscendingTail(es: seq<PieEntry>)
    requires Ascending(es) && es != []
    ensures Ascending(es[1..])
  {
    var tail := es[1..];
    forall i, j | 0 <= i < j < |tail|
      ensures ParseSeverity(tail[i].name).value.Rank() < ParseSeverity(tail[j].name).value.Rank()
    {
      assert tail[i] == es[i + 1] && tail[j] == es[j + 1];
    }
  }

  /** An entry ranked below everything in an ascending sequence can be put in front of it. */
  lemma AscendingCons(e: PieEntry, rest: seq<PieEntry>)
    requires Ascending(rest) && ParseSeverity(e.name).Some?
    requires forall j :: 0 <= j < |rest| ==>
      ParseSeverity(e.name).value.Rank() < ParseSeverity(rest[j].name).value.Rank()
    ensures Ascending([e] + rest)
  {
    var r := [e] + rest;
    forall i | 0 <= i < |r| ensures ParseSeverity(r[i].name).Some? {
      if i != 0 { assert r[i] == rest[i - 1]; }
    }
    forall i, j | 0 <= i < j < |r|
      ensures ParseSeverity(r[i].name).value.Rank() < ParseSeverity(r[j].name).value.Rank()
    {
      assert r[j] == rest[j - 1];
      if i != 0 { assert r[i] == rest[i - 1]; }
    }
  }

  /** Filtering keeps the severity order of the entries that survive. */
  lemma {:induction false} KeepPositiveAscending(es: seq<PieEntry>)
    requires Ascending(es)
    ensures Ascending(KeepPositive(es))
  {
    if es != [] {
      var tail := es[1..];
      AscendingTail(es);
      KeepPositiveAscending(tail);
      var rest := KeepPositive(tail);
      if es[0].value > 0 {
        forall j | 0 <= j < |rest|
          ensures ParseSeverity(es[0].name).value.Rank() < ParseSeverity(rest[j].name).value.Rank()
        {
          assert rest[j] in tail;
          var k :| 0 <= k < |tail| && tail[k] == rest[j];
          assert es[k + 1] == rest[j];
        }
        AscendingCons(es[0], rest);
      }
    }
  }

  /** The four slices before filtering are in severity order, and each is the slice of the severity it names. */
  lemma AllEntriesFacts(d: SeverityDistribution)
    ensures Ascending(AllEntries(d))
    ensures forall s :: EntryFor(d, s) in AllEntries(d)
    ensures forall e :: e in AllEntries(d) ==>
      ParseSeverity(e.name).Some? && e == EntryFor(d, ParseSeverity(e.name).value)
  {
    var es := AllEntries(d);
    assert ParseSeverity(es[0].name) == Some(LOW);
    assert ParseSeverity(es[1].name) == Some(MEDIUM);
    assert ParseSeverity(es[2].name) == Some(HIGH);
    assert ParseSeverity(es[3].name) == Some(CRITICAL);
    forall s ensures EntryFor(d, s) in es {
      assert EntryFor(d, s) == es[s.Rank()];
    }
  }

  /**
   * `pieData`: no slices without metrics; otherwise at most four slices, each
   * positive, each carrying the count and colour of the severity it names,
   * with every severity of positive count present, in severity order.
   */
  function PieData(metrics: Option<DashboardMetrics>): (r: seq<PieEntry>)
    ensures metrics.None? ==> r == []
    ensures |r| <= 4
    ensures Ascending(r)
    ensures forall i :: 0 <= i < |r| ==> r[i].value > 0
    ensures metrics.Some? ==> forall i :: 0 <= i < |r| ==>
      ParseSeverity(r[i].name).Some?
      && r[i] == EntryFor(metrics.value.severityDistribution, ParseSeverity(r[i].name).value)
    ensures metrics.Some? ==> forall s ::
      (EntryFor(metrics.value.severityDistribution, s) in r <==> Count(metrics.value.severityDistribution, s) > 0)
  {
    match metrics
    case None => []
    case Some(m) =>
      AllEntriesFacts(m.severityDistribution);
      KeepPositiveAscending(AllEntries(m.severityDistribution));
      KeepPositive(AllEntries(m.severityDistribution))
  }

  /** Ascending entries never repeat a name. */
  lemma AscendingNamesDistinct(es: seq<PieEntry>, i: int, j: int)
    requires Ascending(es)
    requires 0 <= i < |es| && 0 <= j < |es| && i != j
    ensures es[i].name != es[j].name
  {
    if i < j {
      assert ParseSeverity(es[i].name).value.Rank() < ParseSeverity(es[j].name).value.Rank();
    } else {
      assert ParseSeverity(es[j].name).value.Rank() < ParseSeverity(es[i].name).value.Rank();
    }
  }

  /**
   * `pieData` is empty exactly when there are no metrics or no positive count;
   * with metrics present, that is when the chart shows "No vulnerability data available".
   */
  lemma PieDataEmpty(metrics: Option<DashboardMetrics>)
    ensures PieData(metrics) == [] <==>
      metrics.None?
      || (var d := metrics.value.severityDistribution;
          d.LOW <= 0 && d.MEDIUM <= 0 && d.HIGH <= 0 && d.CRITICAL <= 0)
  {
    if metrics.Some? {
      var d := metrics.value.severityDistribution;
      var r := PieData(metrics);
      if d.LOW > 0 { assert EntryFor(d, LOW) in r; }
      if d.MEDIUM > 0 { assert EntryFor(d, MEDIUM) in r; }
      if d.HIGH > 0 { assert EntryFor(d, HIGH) in r; }
      if d.CRITICAL > 0 { assert EntryFor(d, CRITICAL) in r; }
      if r != [] {
        var s := ParseSeverity(r[0].name).value;
        assert Count(d, s) > 0;
      }
    }
  }

  /** No two slices of the pie share a name. */
  lemma PieDataNamesDistinct(metrics: Option<DashboardMetrics>, i: int, j: int)
    requires 0 <= i < |PieData(metrics)| && 0 <= j < |PieData(metrics)| && i != j
    ensures PieData(metrics)[i].name != PieData(metrics)[j].name
  {
    AscendingNamesDistinct(PieData(metrics), i, j);
  }
}
