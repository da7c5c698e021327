# Finding classification and severity pie data

This project models the two pieces of decision logic in a browser client for
a security-analysis service:

- **The finding-type classifier** (`mapToOWASPCategory`). It takes a free-form
  vulnerability `type` label from the service, lower-cases and trims it, and
  tests it against three fixed substring lists in a fixed order. The first
  list with a match decides the bucket: `SQL Injection`, then `XSS`, then
  `Hardcoded Secrets`. A label that matches no list gets `null`
  (unclassified).
- **The severity pie data of the dashboard** (`pieData` together with the
  `COLORS` table). It takes the dashboard metrics, which may be absent, and
  builds one slice per severity level in the order LOW, MEDIUM, HIGH,
  CRITICAL. Each slice carries the level's count and colour. Slices whose
  count is not positive are dropped.

Files:

- `Wrappers.dfy`: `Option`; `None` stands for JavaScript's `null`.
- `JsString.dfy`: the string operations the classifier uses.
  - `Lower` models `toLowerCase` on ASCII letters.
  - `Trim` strips the ECMAScript whitespace and line-terminator code points.
  - `Includes` scans start positions left to right. Its contract says it is
    true exactly when the token occurs at some index.
- `OwaspMapping.dfy`: the three token lists and `Decide`, the
  first-match-wins chain. `Classify` is `Decide` applied to `Trim(Lower(label))`,
  and `MapToOwaspCategory` turns its result into the label string or `None`.
  Neither has a precondition, so both are total: every label gets one of the
  three buckets or `None`.
- `AnalysisTypes.dfy`: the result data model (`Severity`, `Vulnerability`,
  `AnalysisResult`, `SeverityDistribution`, `DashboardMetrics`).
- `Dashboard.dfy`: `Color` (the `COLORS` table), `KeepPositive` (the
  `.filter`), and `PieData`.

## Model

| member | source | states |
|---|---|---|
| JsString.Lower | src/utils/owaspMapping.ts:14 | lower-casing keeps the length, folds each character on its own, and leaves no ASCII capital |
| JsString.LowerIdempotent | src/utils/owaspMapping.ts:14 | lower-casing an already lower-cased label changes nothing |
| JsString.Trim | src/utils/owaspMapping.ts:14 | the trimmed label is a slice of the input with whitespace-only padding on both sides, and neither begins nor ends with whitespace |
| JsString.Includes | src/utils/owaspMapping.ts:18-47 | `includes` is true exactly when the token occurs at some index of the label |
| JsString.IncludesTransitive | src/utils/owaspMapping.ts:17-23 | a label that contains a token contains every substring of that token, which is why longer tokens can be redundant |
| JsString.IncludesTrim | src/utils/owaspMapping.ts:14 | trimming never changes whether a token that neither begins nor ends with whitespace occurs |
| OwaspMapping.SqlRuleTokens | src/utils/owaspMapping.ts:17-23 | the SQL list matches exactly when `sql` or `injection` occurs; `sqli` and `database injection` are subsumed |
| OwaspMapping.XssRuleTokens | src/utils/owaspMapping.ts:27-35 | the XSS list matches exactly when `xss`, `cross-site scripting` or `script injection` occurs; the three `*xss` tokens are subsumed |
| OwaspMapping.Normalize | src/utils/owaspMapping.ts:14 | the normalised label has no ASCII capital, neither begins nor ends with whitespace, and is the lower-cased label with whitespace-only padding removed |
| OwaspMapping.Decide | src/utils/owaspMapping.ts:17-53 | first match wins: SQL Injection exactly when `sql` or `injection` occurs; XSS exactly when neither does and `xss` or `cross-site scripting` does; Hardcoded Secrets exactly when none of those occurs and a secret token does; otherwise `null` |
| OwaspMapping.Classify | src/utils/owaspMapping.ts:13-54 | trimming cannot change the result: the category of a label is the decision on its lower-cased form |
| OwaspMapping.Label | src/utils/owaspMapping.ts:7 | every category is written as one of the three strings of the `OWASPCategory` type |
| OwaspMapping.MapToOwaspCategory | src/utils/owaspMapping.ts:13-54 | the result is `null`, `SQL Injection`, `XSS` or `Hardcoded Secrets` exactly when the classifier decides unclassified, SQL, XSS or secrets respectively |
| OwaspMapping.ClassifyIgnoresCase | src/utils/owaspMapping.ts:14 | the label and its lower-cased form get the same category |
| OwaspMapping.ClassifyIgnoresPadding | src/utils/owaspMapping.ts:14 | adding whitespace before and after a label never changes its category |
| OwaspMapping.SqlRule | src/utils/owaspMapping.ts:17-24 | the result is SQL Injection exactly when the lower-cased label contains `sql` or `injection`, whatever else it contains |
| OwaspMapping.XssRule | src/utils/owaspMapping.ts:17-37 | the result is XSS exactly when neither `sql` nor `injection` occurs and `xss` or `cross-site scripting` does |
| OwaspMapping.SecretsRule | src/utils/owaspMapping.ts:17-51 | the result is Hardcoded Secrets exactly when no SQL or XSS token occurs and one of the eight secret tokens does |
| OwaspMapping.UnclassifiedRule | src/utils/owaspMapping.ts:13-54 | the result is `null` exactly when no token of any list occurs |
| OwaspMapping.ScriptInjectionIsNeverXss | src/utils/owaspMapping.ts:17-36 | a label containing `script injection` is always SQL Injection, so that XSS token never produces XSS |
| OwaspMapping.EmptyIsUnclassified | src/utils/owaspMapping.ts:52-53 | the empty label gets `null` |
| OwaspMapping.BufferOverflowIsUnclassified | src/utils/owaspMapping.ts:52-53 | `buffer overflow` gets `null` |
| OwaspMapping.SqlOutranksSecrets | src/utils/owaspMapping.ts:17-49 | `SQL Injection via Hardcoded Credential` contains a secret token yet gets SQL Injection, because rule 1 is tested first |
| Dashboard.Color | src/pages/DashboardPage.tsx:9-14 | every entry of the `COLORS` table is a `#` followed by six lower-case hexadecimal digits |
| Dashboard.EntryFor | src/pages/DashboardPage.tsx:45-48 | a severity's slice carries a name that reads back as that severity, the count of the same-named distribution field and the same-named colour |
| Dashboard.AllEntries | src/pages/DashboardPage.tsx:44-48 | there are four slices before filtering, and the slice of each severity sits at its rank, so the order is LOW, MEDIUM, HIGH, CRITICAL |
| Dashboard.ColorsDistinct | src/pages/DashboardPage.tsx:9-14 | each severity has its own colour |
| Dashboard.KeepPositive | src/pages/DashboardPage.tsx:49 | the filter keeps exactly the entries with a strictly positive value and never grows the list |
| Dashboard.KeepPositiveAppend | src/pages/DashboardPage.tsx:49 | filtering a concatenation filters each part and concatenates the results, so order and repeated entries are kept |
| Dashboard.KeepPositiveSingle | src/pages/DashboardPage.tsx:49 | a single entry is kept exactly when its value is strictly positive |
| Dashboard.KeepPositiveAscending | src/pages/DashboardPage.tsx:44-49 | filtering keeps the LOW, MEDIUM, HIGH, CRITICAL order of the surviving entries |
| Dashboard.PieData | src/pages/DashboardPage.tsx:43-50 | no metrics gives no slices; otherwise at most four slices in severity order, each positive, each with the count of the same-named distribution field and the same-named colour, and a severity has a slice exactly when its count is positive |
| Dashboard.PieDataNamesDistinct | src/pages/DashboardPage.tsx:44-49 | no two slices share a name |
| Dashboard.PieDataEmpty | src/pages/DashboardPage.tsx:43-50 | `pieData` is empty exactly when the metrics are `null` or all four counts are at most zero; when metrics are present, this is the condition for the "No vulnerability data available" message at lines 142-145 |

## Left out

- JsString.Lower: folds only the ASCII letters `A`-`Z`. JavaScript's `toLowerCase` also folds other Unicode letters, and a few of them change length. For example JavaScript lower-cases the Kelvin sign (U+212A) to `k`, so a label spelling `API KEY` with that sign is Hardcoded Secrets in the source and unclassified here.
- Dashboard.PieData: counts are integers. The source's counts are JavaScript numbers, so a fractional count is not modelled.
- The client never computes metrics. Totals, the severity histogram, the risk trend and the recent scans arrive ready-made from the metrics endpoint (src/api/analysis.ts:19-24) and are stored as they come. So no metrics aggregator is modelled; `DashboardMetrics` is only a data shape here.
- The HTTP wrappers in src/api/ and the token kept in local storage are network and storage plumbing over an HTTP client that is not part of this model.
- React state, effects, asynchronous fetching and error messages in the pages, and routing and login gating (src/App.tsx, src/components/ProtectedRoute.tsx), depend on an authentication context that is not part of this model.
- The blank-content check and trim before submitting an analysis (src/pages/AnalysisPage.tsx:16-28) are mixed in with UI state and a network call.
- Presentation is not modelled: the badge's style switch and its hiding of `null` (src/components/OWASPCategoryBadge.tsx:8-20), chart and table markup, locale-dependent date formatting, and the floating-point percentage label of each slice (src/pages/DashboardPage.tsx:130).
