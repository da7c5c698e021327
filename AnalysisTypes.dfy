/**
 * The shared result data model returned by the analysis service. Only the
 * shapes are modelled; the service fills them in.
 */
module AnalysisTypes {

  datatype InputType = Code | Api | Sql | Config

  /** The four severity levels, in increasing order of severity. */
  datatype Severity = LOW | MEDIUM | HIGH | CRITICAL {
    /** Position in the order LOW < MEDIUM < HIGH < CRITICAL. */
    function Rank(): nat {
      match this
      case LOW => 0
      case MEDIUM => 1
      case HIGH => 2
      case CRITICAL => 3
    }
  }

  datatype Impact = Impact(technical: string, business: string)

  datatype Vulnerability = Vulnerability(
    id: string,
    vulnType: string,
    severity: Severity,
    location: string,
    description: string,
    attackerLogic: string,
    defenderLogic: string,
    secureCodeFix: string,
    simulatedPayload: string,
    killChainStage: string,
    impact: Impact)

  datatype AnalysisResult = AnalysisResult(
    id: string,
    inputType: InputType,
    content: string,
    riskScore: int,
    vulnerabilities: seq<Vulnerability>,
    createdAt: string,
    updatedAt: string)

  /** Number of findings per severity level, as the metrics service reports it. */
  datatype SeverityDistribution = SeverityDistribution(LOW: int, MEDIUM: int, HIGH: int, CRITICAL: int)

  datatype RiskPoint = RiskPoint(date: string, averageRisk: real)

  datatype DashboardMetrics = DashboardMetrics(
    totalScans: int,
    totalVulnerabilities: int,
    severityDistribution: SeverityDistribution,
    riskTrend: seq<RiskPoint>,
    recentScans: seq<AnalysisResult>)
}
