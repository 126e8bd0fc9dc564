# SSL Security Analysis — a Dafny model of its core

SSL Security Analysis builds one security report for a domain from two
external services:

- a TLS grading provider (SSL Labs). The backend polls it until the analysis is no longer `IN_PROGRESS`.
- a certificate-transparency log search (crt.sh). The backend makes a single lookup and turns the records into counters, deduplicated lists, capped slices and a month histogram.

The `/analyze/:domain` route validates the domain and runs both analyses. It stores each outcome in its own slot of the answer and derives a security summary (overall grade, issues, recommendations, certificate status). The browser keeps a search history and an analysis history. It filters and sorts the analysis history, checks what the search form submits, sorts issue strings into severity tiers, and shows the state of the served certificate. A retry policy governs the analysis query.

This project models that logic as pure functions over immutable datatypes, plus two loops written as methods: the polling loop and the query's retry loop. Anything that comes from outside becomes a parameter:

- the provider's replies are a function `nat -> Reply` (the reply to each call);
- the log search's outcome is a `Lookup` value;
- the clock is `now`, the "thirty days ago" instant is `recentCutoff`, and the month of a timestamp is `monthOf`;
- `localeCompare` is a total preorder `localeLe`;
- the stored history list is the input of each history operation, and its result is the new stored list.

Times are integer milliseconds.

Modules, one per source file (plus three shared ones):

| module | file | models |
|---|---|---|
| `Wrappers` | wrappers.dfy | `Option`, `Result` |
| `Text` | text.dfy | ASCII `toLowerCase`, `trim`, `includes`, `split`, JavaScript's default string order |
| `Seqs` | seqs.dfy | `filter`, `slice(0, n)`, first-occurrence dedup (`[...new Set(xs)]`), comparator sort, counting |
| `DomainRegex` | domain_regex.dfy | the domain regex shared by backend and form |
| `SslLabs` | ssl_labs.dfy | `Backend/sslLabs.js` |
| `CrtSh` | crt_sh.dfy | `Backend/crtSh.js` |
| `Analysis` | analysis.dfy | `Backend/app.js`: validation, the merge, `generateSecuritySummary` |
| `HistoryService` | history_service.dfy | `Frontend/src/services/historyService.js` |
| `HistoryPage` | history_page.dfy | `filterAndSortHistory` |
| `DomainSearchForm` | domain_search_form.dfy | submit, input change, suggestions |
| `VulnerabilitiesCard` | vulnerabilities_card.dfy | severity tiers and shown slices |
| `CertificateStatusCard` | certificate_status_card.dfy | expiry status, colour, icon, banners |
| `QueryPolicy` | query_policy.dfy | `enabled`, `retry`, `retryDelay` of `useSSLAnalysis` |

JavaScript truthiness is written out. An optional field is an `Option`. Absent values, `false`, `0` and `""` take the `||` default. A comparison with `null` treats it as 0, and a comparison with `NaN` is false.

### Behaviour of the code worth knowing

- Polling (`Backend/sslLabs.js:13-29`): the loop stops at the first reply whose status is not `IN_PROGRESS`. Only `ERROR` is a failure. Any other status, including a missing one, is returned as a report (`SslLabs.Settle`).
- Overall grade (`Backend/app.js:212`): the code comments its choice as the best grade and takes the first of `grades.sort()`. JavaScript's default order puts a proper prefix first, so `"A"` comes before `"A+"` and is chosen over it (`Analysis.PlainLetterFirst`).
- Issues (`Backend/app.js:219-231`): each endpoint with details appends one message per condition that holds. Nothing is deduplicated, so two vulnerable endpoints give the same message twice (`Analysis.IssueTally`, `Analysis.SecurityIssuesAppend`).
- Forward secrecy (`Backend/app.js:232`): the test is `!details.forwardSecrecy`, which holds when the value is absent and also when it is 0 (`Analysis.EndpointAdvice`).

## Model

| member | source | states |
|---|---|---|
| SslLabs.FlagOr | Backend/sslLabs.js:48 | `x \|\| false` is true exactly when the field is present and `true` |
| SslLabs.IntOr | Backend/sslLabs.js:34 | `port \|\| 443`: the field when present and non-zero, else the default |
| SslLabs.StrOr | Backend/sslLabs.js:35 | `protocol \|\| 'HTTP'`: the field when present and non-empty, else the default |
| SslLabs.NormalizeSuites | Backend/sslLabs.js:68-78 | preference and protocol pass through; the list is a prefix of the input list of length min(10, n), empty when absent |
| SslLabs.NormalizeSim | Backend/sslLabs.js:107-114 | client and version pass through; `isReference` defaults to false |
| SslLabs.NormalizeSims | Backend/sslLabs.js:106-115 | the first min(5, n) results, each normalised, in input order |
| SslLabs.NormalizeDetails | Backend/sslLabs.js:54-138 | missing chains/protocols become empty lists, missing suites/sims stay null, every vulnerability and feature flag defaults to false, `forwardSecrecy` passes through unchanged |
| SslLabs.NormalizeEndpoint | Backend/sslLabs.js:42-139 | address and grade pass through, the two flags default to false, details are null exactly when absent |
| SslLabs.NormalizeCert | Backend/sslLabs.js:140-158 | subject, validity, issuer and key fields pass through; the Debian-key flag defaults to false |
| SslLabs.Normalize | Backend/sslLabs.js:32-159 | defaults port 443, protocol `HTTP`, `isPublic` false; endpoints and certificates are one-to-one, order-preserving maps of the input lists, empty when absent |
| SslLabs.Settle | Backend/sslLabs.js:18-29 | the reply that ends the loop decides the outcome. A transport failure keeps its message, a still-running reply is the timeout, and `ERROR` fails with its status message or `Unknown error`. Every error carries the `SSL Labs API error: ` prefix. Success holds exactly for an answer that is neither `IN_PROGRESS` nor `ERROR`, and it yields the normalised report |
| SslLabs.AnalyzeSsl | Backend/sslLabs.js:9-29 | between 1 and 24 provider calls. Every call before the last was still running; a last call still running means all 24 were used. The result is the settled last reply |
| CrtSh.CeilDiv | Backend/crtSh.js:37 | `Math.ceil(a / d)` as the unique q with d(q-1) < a <= dq |
| CrtSh.Subdomains | Backend/crtSh.js:39-41 | an absent or empty name field gives no subdomains. Otherwise the result is the newline-separated pieces that are not blank and contain the domain: in field order (a subsequence of the pieces), each kept piece with its multiplicity, none other |
| CrtSh.Process | Backend/crtSh.js:19-43 | the record's own fields are passed through unchanged. Active iff notBefore <= now <= notAfter; expired iff now > notAfter; never both. Days until expiry and validity are ceilings of millisecond differences, so days <= 0 when expired and >= 0 when active |
| CrtSh.ProcessAll | Backend/crtSh.js:19 | one processed record per input record, in input order |
| CrtSh.NewestFirst | Backend/crtSh.js:46 | a permutation of its input, ordered by non-increasing `loggedAt` |
| CrtSh.MonthsLatestFirst | Backend/crtSh.js:105-106 | the distinct months of the records, strictly descending |
| CrtSh.ByMonth | Backend/crtSh.js:96-109 | at most 12 entries with strictly descending months, each count the number of records in that month and positive; every record's month is listed unless 12 later months are |
| CrtSh.ByMonthPermutation | Backend/crtSh.js:96-109 | the histogram does not depend on the order of the records |
| CrtSh.UniqueIssuers | Backend/crtSh.js:51 | no duplicates; an issuer is listed iff some record has it; issuers appear in the order of their first occurrence in the sorted records |
| CrtSh.IssuerCount | Backend/crtSh.js:51-71 | the unique-issuer count is the number of distinct issuer names of the raw records |
| CrtSh.UniqueSubdomains | Backend/crtSh.js:52-54 | no duplicates; a string is listed iff it is non-empty and some record's subdomains contain it; subdomains appear in the order of their first occurrence in the flattened lists |
| CrtSh.AllSubdomainsAppend | Backend/crtSh.js:52 | the flattening goes record by record: the subdomains of a concatenation are those of each part in turn |
| CrtSh.AllSubdomainsOne | Backend/crtSh.js:52 | one record contributes exactly its own subdomain list |
| CrtSh.SummaryOf | Backend/crtSh.js:66-73 | total is the input length; active, expired and recent count the records meeting each condition; active + expired <= total; the issuer and subdomain counts are taken before capping |
| CrtSh.SummaryCounts | Backend/crtSh.js:49-70 | counting the filtered sorted records gives the same numbers as counting the raw records |
| CrtSh.ActivePlusExpired | Backend/crtSh.js:49-50 | when no record is both active and expired, the two filters together hold at most all records |
| CrtSh.BuildReport | Backend/crtSh.js:63-84 | each slice is the prefix of its uncapped sorted, filtered or deduplicated source, of length min(cap, source length): all 50, active and recent 10, issuers 10, subdomains 20; the summary and histogram are those of all records |
| CrtSh.GetCertLogs | Backend/crtSh.js:16-92 | a timeout gives `Certificate transparency lookup timeout`; another failure gets the `Certificate transparency API error: ` prefix; a body (`null` read as empty) gives the report |
| DomainRegex.ValidDomainIsRegex | Backend/app.js:55-56 | the executable check accepts exactly the strings the regex matches |
| DomainRegex.LabelAgrees | Backend/app.js:56 | the regex's first label is 1 to 63 characters of letters, digits and `-`, starting alphanumeric, and ending alphanumeric when it has 63 characters |
| DomainRegex.TailAgrees | Backend/app.js:56 | the part after the first dot is letter runs of length >= 2, each optionally followed by one dot |
| DomainRegex.HyphenEndedLabel | Backend/app.js:56 | a first label may end with `-`, which section 2.3.1 of RFC 1035 forbids |
| DomainRegex.HyphenInTail | Backend/app.js:56 | a hyphen after the first dot is rejected |
| DomainRegex.LetterDomain | Backend/app.js:56 | a letters-only name of 1 to 63 characters, a dot and a letters-only suffix of length >= 2 is valid |
| DomainRegex.LowerCasePreservesValidity | Backend/app.js:55-57 | lower-casing a valid domain keeps it valid |
| Analysis.ValidateDomain | Backend/app.js:43-67 | a missing or empty domain gives `Domain parameter is required`; an invalid one gives `Invalid domain format`; accepted exactly when the regex matches |
| Analysis.ToSlot | Backend/app.js:136-153 | a fulfilled analysis fills its slot with the value; a rejected one records the message |
| Analysis.RatedGrades | Backend/app.js:207-210 | the truthy, non-`N/A` endpoint grades, and only those |
| Analysis.BestGrade | Backend/app.js:211-213 | a grade from the list that is <= every grade in JavaScript's default string order |
| Analysis.SortedFirstIsBest | Backend/app.js:212 | the first element of any sorted permutation of the grades is that best grade |
| Analysis.PlainLetterFirst | Backend/app.js:212 | `A` is chosen over `A+` and `A-`, and `A+` over `B` |
| Analysis.EndpointIssues | Backend/app.js:220-231 | each of the six messages appears once when its condition holds and not otherwise, in check order (a subsequence of the message list) |
| Analysis.PickSubsequence | Backend/app.js:220-231 | appending the messages of the checks that hold keeps the checks' order |
| Analysis.EndpointAdvice | Backend/app.js:232-235 | forward-secrecy advice iff the value is absent or 0; stapling advice iff stapling is off; nothing else, no repeats, and forward secrecy first when both appear |
| Analysis.SecurityIssuesAppend | Backend/app.js:218-237 | the issues are gathered endpoint by endpoint: those of a concatenation are those of each part in turn, and one endpoint gives its own checks' messages (none without details) |
| Analysis.EndpointsAdviceAppend | Backend/app.js:218-237 | the recommendations are gathered endpoint by endpoint in the same way |
| Analysis.IssueTally | Backend/app.js:216-231 | each message occurs once per endpoint with details whose condition holds, with no dedup across endpoints |
| Analysis.PfsTally | Backend/app.js:216-233 | the forward-secrecy advice occurs once per endpoint with details lacking it |
| Analysis.OcspTally | Backend/app.js:216-235 | the stapling advice occurs once per endpoint with details not stapling |
| Analysis.GenerateSecuritySummary | Backend/app.js:198-252 | grade `Unknown` unless some grade is rated, else the best rated one. Issues and endpoint advice are those of a filled grading slot's endpoints, gathered endpoint by endpoint (see `SecurityIssuesAppend`, `EndpointsAdviceAppend`), and none for a failed one. Status is `Unknown` for a failed transparency slot, otherwise `Active` iff some certificate is active. The subdomain advice comes once, last, iff more than 10 subdomains |
| Analysis.SummaryIndependence | Backend/app.js:198-252 | grade and issues depend only on the grading slot; status only on the transparency slot |
| Analysis.Analyze | Backend/app.js:97-158 | rejected exactly when validation fails, before any service call; otherwise the provider is polled 1 to 24 times, stopping early only at a settled reply, the log search is called once, both slots are filled from their own service and the summary is computed from them |
| Analysis.RunAnalyses | Backend/app.js:117-153 | each slot holds its own analysis' settled outcome; the polling takes 1 to 24 calls, all but the last still running, and ends on a running reply only at the 24th |
| Analysis.LookupCannotChangeGrade | Backend/app.js:117-156 | a failing or differing lookup leaves grade and issues unchanged |
| Analysis.GradingCannotChangeStatus | Backend/app.js:117-156 | whatever the grading provider answers, the certificate status is unchanged |
| HistoryService.FindIndex | Frontend/src/services/historyService.js:57 | the index of the first item with the key, or -1 when none has it |
| HistoryService.AddToSearch | Frontend/src/services/historyService.js:54-77 | a present domain is updated in place with count + 1 and time now, others untouched. An absent one is prepended with count 1. The list is cut to 20 and distinct domains stay distinct |
| HistoryService.GradeOf | Frontend/src/services/historyService.js:114 | the result's grade when non-empty, else `Unknown` |
| HistoryService.AddToAnalysis | Frontend/src/services/historyService.js:105-128 | replaces a present entry in place, keeping its favourite flag. Otherwise prepends a non-favourite. The list is cut to 50 and distinct domains stay distinct |
| HistoryService.AddKeepsFavorite | Frontend/src/services/historyService.js:115 | re-analysing a domain keeps its favourite flag |
| HistoryService.Remove | Frontend/src/services/historyService.js:138-142 | no entry for the domain remains; every other entry keeps its multiplicity |
| HistoryService.RemoveOrderIdempotent | Frontend/src/services/historyService.js:141 | the kept entries stay in order, and removing twice equals removing once |
| HistoryService.ToggleFavorite | Frontend/src/services/historyService.js:152-167 | flips only the first matching entry and returns its new flag; an absent domain returns false and changes nothing |
| HistoryService.ToggleTwice | Frontend/src/services/historyService.js:155-160 | toggling twice restores the history |
| HistoryService.GetFavorites | Frontend/src/services/historyService.js:173-175 | exactly the favourite entries, with their multiplicities |
| HistoryService.FavoritesInOrder | Frontend/src/services/historyService.js:174 | the favourites come in history order |
| HistoryPage.OrderIsPreorder | Frontend/src/components/history/HistoryPage.jsx:66-76 | every sort key gives a total preorder when `localeCompare` does |
| HistoryPage.FilterAndSort | Frontend/src/components/history/HistoryPage.jsx:45-79 | a permutation of exactly the items passing all active filters, sorted by the key's order, newest first for the timestamp or any other key |
| HistoryPage.ListedItemsMatch | Frontend/src/components/history/HistoryPage.jsx:49-63 | every listed item contains the query case-insensitively, has the filtered grade, is a favourite when asked, and comes from the history |
| HistoryPage.NoFilterShowsAll | Frontend/src/components/history/HistoryPage.jsx:46-63 | with no filter the whole history is listed |
| DomainSearchForm.HandleSubmit | Frontend/src/components/dashboard/DomainSearchForm.jsx:32-48 | blank input gives the empty-input error. Input whose trimmed form fails the regex gives the invalid-input error. Otherwise the trimmed, lower-cased input is submitted |
| DomainSearchForm.SubmittedDomainAccepted | Frontend/src/components/dashboard/DomainSearchForm.jsx:23-46 | whatever the form submits passes the server's validation unchanged |
| DomainSearchForm.PlainDomainSubmitted | Frontend/src/components/dashboard/DomainSearchForm.jsx:36-46 | valid input that is already trimmed and lower-case is submitted as typed |
| DomainSearchForm.LowerComDomain | Frontend/src/components/dashboard/DomainSearchForm.jsx:36-46 | a lower-case `name.com` is submitted as typed |
| DomainSearchForm.InputChange | Frontend/src/components/dashboard/DomainSearchForm.jsx:54-58 | stores the value, clears the error, and opens suggestions iff both the value and the recent list are non-empty |
| DomainSearchForm.SuggestionClick | Frontend/src/components/dashboard/DomainSearchForm.jsx:64-68 | the clicked suggestion or example is submitted as it stands |
| DomainSearchForm.SuggestionBypassesChecks | Frontend/src/components/dashboard/DomainSearchForm.jsx:64-68 | a blank suggestion is submitted although typing it is refused and the server rejects it |
| DomainSearchForm.FilteredSuggestions | Frontend/src/components/dashboard/DomainSearchForm.jsx:70-72 | exactly the non-empty string entries containing the input case-insensitively, with their multiplicities, in stored order (a subsequence of the stored strings) |
| DomainSearchForm.ShownSuggestions | Frontend/src/components/dashboard/DomainSearchForm.jsx:165 | the first min(5, n) suggestions |
| VulnerabilitiesCard.SeverityOf | Frontend/src/components/analysis/VulnerabilitiesCard.jsx:20-29 | case-insensitive, first tier wins: heartbleed/poodle/freak critical, else drown/logjam high, else rc4 medium, else low |
| VulnerabilitiesCard.VulnerabilityCount | Frontend/src/components/analysis/VulnerabilitiesCard.jsx:16-33 | each counter is the number of issues in its tier, and the four add up to the number of issues |
| VulnerabilitiesCard.TiersPartition | Frontend/src/components/analysis/VulnerabilitiesCard.jsx:17-30 | every issue is in exactly one tier |
| VulnerabilitiesCard.HasIssues | Frontend/src/components/analysis/VulnerabilitiesCard.jsx:36-37 | there are issues iff some tier count is positive |
| VulnerabilitiesCard.HeartbleedMessage | Frontend/src/components/analysis/VulnerabilitiesCard.jsx:21 | the server's Heartbleed message is critical |
| VulnerabilitiesCard.PoodleMessage | Frontend/src/components/analysis/VulnerabilitiesCard.jsx:21 | the server's POODLE message is critical |
| VulnerabilitiesCard.FreakMessage | Frontend/src/components/analysis/VulnerabilitiesCard.jsx:21 | the server's FREAK message is critical |
| VulnerabilitiesCard.LogjamMessage | Frontend/src/components/analysis/VulnerabilitiesCard.jsx:23 | the server's Logjam message is high |
| VulnerabilitiesCard.DrownMessage | Frontend/src/components/analysis/VulnerabilitiesCard.jsx:23 | the server's DROWN message is high |
| VulnerabilitiesCard.Rc4Message | Frontend/src/components/analysis/VulnerabilitiesCard.jsx:25 | the server's RC4 message is medium |
| VulnerabilitiesCard.ShownIssues | Frontend/src/components/analysis/VulnerabilitiesCard.jsx:140 | all issues when expanded, otherwise the first min(5, n) |
| VulnerabilitiesCard.ShownRecommendations | Frontend/src/components/analysis/VulnerabilitiesCard.jsx:179 | all recommendations when expanded, otherwise the first min(3, m) |
| CertificateStatusCard.DaysUntil | Frontend/src/components/analysis/CertificateStatusCard.jsx:18-20 | the ceiling of the remaining days; `NaN` exactly when there is no usable expiry |
| CertificateStatusCard.CertificateInfo | Frontend/src/components/analysis/CertificateStatusCard.jsx:12-33 | with no certificate: `Unknown` and `null`. Otherwise the first certificate decides: `Valid` iff it expires after now, else `Expired`. The issuer is the label when truthy, else the subject |
| CertificateStatusCard.StatusColor | Frontend/src/components/analysis/CertificateStatusCard.jsx:37-41 | red iff expired; green iff not expired and the day count is not <= 30 |
| CertificateStatusCard.StatusIcon | Frontend/src/components/analysis/CertificateStatusCard.jsx:43-48 | the warning icon iff expired or the day count is <= 30 |
| CertificateStatusCard.IconFollowsColor | Frontend/src/components/analysis/CertificateStatusCard.jsx:37-48 | the icon warns exactly when the colour is not green |
| CertificateStatusCard.Banners | Frontend/src/components/analysis/CertificateStatusCard.jsx:178-198 | "soon" iff the certificate expires after now and within 30 days; "expired" iff it exists and does not; never both |
| CertificateStatusCard.NoCertificateLooksSoon | Frontend/src/components/analysis/CertificateStatusCard.jsx:37-44 | with no certificate the card is yellow with a warning icon, yet shows no banner |
| CertificateStatusCard.DisplayedDays | Frontend/src/components/analysis/CertificateStatusCard.jsx:71-78 | nothing for `null`, otherwise the day count when positive and 0 when not |
| CertificateStatusCard.DayWord | Frontend/src/components/analysis/CertificateStatusCard.jsx:81 | "day" exactly for a count of one |
| QueryPolicy.SubmittedDomainEnabled | Frontend/src/hooks/useSSLAnalysis.js:20 | every domain the search form submits enables the query |
| QueryPolicy.ShouldRetry | Frontend/src/hooks/useSSLAnalysis.js:22-29 | a 4xx status is never retried; anything else is retried iff fewer than 2 failures so far |
| QueryPolicy.RetryDelay | Frontend/src/hooks/useSSLAnalysis.js:30 | between 1000 and 30000 ms; 1000 for the first retry; below the cap, each delay is twice the previous one |
| QueryPolicy.RetryDelayMonotone | Frontend/src/hooks/useSSLAnalysis.js:30 | the delay never decreases with the attempt index |
| QueryPolicy.RetryDelayCap | Frontend/src/hooks/useSSLAnalysis.js:30 | 30000 from index 5 on; doubles below index 4 |
| QueryPolicy.RunQuery | Frontend/src/hooks/useSSLAnalysis.js:22-30 | at most 3 attempts, and success iff the last one succeeded. Earlier attempts are non-4xx failures; a failure ends after 3 attempts or on a 4xx. The total wait is the sum of the delays of the retries made |
| Text.ToLower | Frontend/src/components/dashboard/DomainSearchForm.jsx:46 | `toLowerCase` pointwise on ASCII: upper-case letters shift by 32, other characters stay |
| Text.Trim | Frontend/src/components/dashboard/DomainSearchForm.jsx:36 | the slice between the leading and the trailing whitespace; empty iff the input is all whitespace |
| Text.JoinSplit | Backend/crtSh.js:39 | joining the pieces of `split('\n')` gives back the input |
| Text.SplitUnique | Backend/crtSh.js:39 | the pieces are the only separator-free list that joins to the input |
| Text.StrLeTotal | Backend/app.js:212 | the default string order is total |
| Text.StrLeTrans | Backend/app.js:212 | the default string order is transitive |
| Text.StrLeAntisym | Backend/app.js:212 | the default string order is antisymmetric |
| Seqs.Filter | Frontend/src/services/historyService.js:141 | `filter` keeps exactly the elements meeting the predicate, with their multiplicities |
| Seqs.FilterSubsequence | Frontend/src/services/historyService.js:174 | `filter` keeps relative order |
| Seqs.Dedup | Backend/crtSh.js:51 | `[...new Set(xs)]`: no duplicates, same members |
| Seqs.DedupPrefix | Backend/crtSh.js:51 | deduplicating a prefix gives a prefix of the deduplicated list (first-occurrence order) |
| Seqs.DedupFirstSeen | Backend/crtSh.js:51 | `[...new Set(xs)]` lists values in the order of their first occurrence in `xs` |
| Seqs.FilterFirstSeen | Backend/crtSh.js:52-54 | filtering a list in first-occurrence order keeps that order |
| Seqs.SortBy | Frontend/src/components/history/HistoryPage.jsx:66 | `sort` with a total-preorder comparator gives a sorted permutation |

## Left out

- Express plumbing (middleware, the root, health and 404 routes, static files, signal handlers) is I/O. The `500` answer of the route's `catch` is left out too: each analysis settles into its slot, and the summary is a total function, so the model has nothing that can throw there.
- The 120-second route timeout and its `headersSent` race are about timing between concurrent tasks. `Analysis.Analyze` takes the provider's reply function and the log search's `Lookup` outcome, and runs the polling itself through `Analysis.RunAnalyses`; no deadline cuts it short.
- HTTP calls, request timeouts and the 5-second wait between polls are replaced by the reply function, the `Lookup` value, and no time at all.
- Date parsing, `toISOString`, local-timezone month keys and the `toFixed(2)` analysis time involve floats and the locale. Times are integer milliseconds and `monthOf` is supplied. An unparsable date (`NaN`) appears only where the model needs it: as `None` for a missing certificate expiry in `CertificateStatusCard.DaysUntil`.
- CrtSh.NewestFirst: the sort compares `new Date(...)` values, which can be `NaN` for malformed timestamps. The model takes timestamps as integers and does not state that the sort is stable.
- HistoryPage.FilterAndSort: `localeCompare` is an abstract total preorder. The contract states a sorted permutation and does not state stability.
- `localStorage`, JSON (de)serialisation, the `try`/`catch` fallbacks, `clearAllHistory`, `clearSearchHistory`, and export and import are storage and file I/O. Each history operation maps the stored list to the new one.
- HistoryService.AddToAnalysis: the stored `result` object is reduced to the one field the service reads, `result.sslLabs.grade`. The dashboard passes the route's response, which has no `sslLabs` key, so in practice the grade is always `Unknown`. That happens in the dashboard, which is not part of this model.
- SslLabs.Normalize: fields that are copied without defaults or truncation (`startTime`, `serverName`, `progress`, `trustPaths` and the like) are not carried. The endpoint keeps `ipAddress`, `grade`, the defaulted `hasWarnings` and `isExceptional`, and `details`; the model keeps the fields with behaviour and those the rest of the model uses.
- Text.ToLower: only ASCII letters are lower-cased. JavaScript's full Unicode case mapping and UTF-16 code units are not modelled. The default string order compares characters, which agrees with code units on the ASCII input the model is about.
- QueryPolicy.RunQuery: the retry loop belongs to the query library, not to this repository. It is modelled as the library documents it: after the k-th failure, `retry(k, error)` decides, and a retry waits `retryDelay(k)`. The query's cache (`staleTime`) and option overrides are left out.
- Presentation components (panels, cards' markup, layout, error text selection) and the axios service wrapper are rendering or I/O.
