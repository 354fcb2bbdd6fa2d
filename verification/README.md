# Verified model of Vantage

Vantage drives third-party and native web scanners against an authorized target and turns what
they report into a short list of findings a customer can trust. This project models the parts
of it that decide something, and proves what they promise, for all inputs.

The modules follow the program:

- `Crawler` over the theory `BreadthFirst` and `CrawlSite`: the native crawler's worklist loop, over a
  site seen as a fixed function from URL to response.
- `TokenBucket` (with `TokenTime`, the same bucket with time counted in tokens) and `HttpClient`:
  the rate limiter as a class over reals, and any number of `fetch` coroutines as a system of
  atomic steps between suspension points.
- `Taxonomy`, `Findings`, `Validation`, `Correlation`, `RiskScore`, `Proofs`, `History`: the path of
  an observation to a scored, proven, dated finding. `Endpoints`, `ValidationLaws`, `CorrelationLaws`,
  `CorrelationJoin` and `Pipeline` hold what is proved of them; `Grouping` is the theory of grouping by
  a key.
- `Registry`, `Planner`, `PlannerLaws`, `Profiles`: which engines may run, and which will.
- `Lifecycle`, `Feedback`, `EngineRun`, `EngineLoop`, `Feeding`, `Orchestrator`: one scan from start to
  end; `ScanScope` ties its scope check to the scope engine.
- `ScopeRules`, `ScopeMeaning`, `ScopeLaws`, `DefaultRules`, `GoScope`, `ScopeAgreement`: the scope decision in the
  orchestrator and in the egress proxy; `GoHandlers` has the proxy's request handlers, which share
  one engine, as a system of steps.
- `LicensePolicy`, `LicenseMeaning`, `LicenseReading`, `LicenseCorrectness`, `LicenseColours`: the license
  evaluator, which works on text, against the meaning of the expression; `LicenseChoice` and
  `LicenseGate` take the result to the listed ids and to the engine registry.
- `Utf8Cap`: the cap on bodies kept inline.

Code that loops and updates is a method or a class, proved equal to a function; the laws are
lemmas about the function. What the program takes from outside (responses, clocks, ids, parsed
URLs, address arithmetic, regular expressions) is a parameter.

## Where the code differs from what it says

These are properties of the code as it stands; each has a lemma with the exact condition.

- The token bucket credits slept time again on the next call, so up to R + 2RT requests may go
  out in T seconds rather than R + RT, for every rate of at least 1/2; below that k requests need
  k (1 - R) / R seconds and can be had in just that (`TokenBucket.WindowEnvelope`,
  `TokenBucket.EnvelopeIsAttained`, `TokenBucket.SlowRates`, `TokenBucket.SlowRatesAreAttained`). Runs
  without sleeps, and all runs of few enough takes, keep to R + RT (`TokenBucket.SleeplessIsNominal`,
  `TokenBucket.NominalExactly`).
- The license evaluator drops parentheses before it splits, so `(A OR B) AND C` is read as
  `A OR (B AND C)`. An expression in which no id is repeated and which is no lone id in parentheses
  is read right under every policy exactly when no OR stands under an AND
  (`LicenseCorrectness.RightForEveryPolicy`). With repeated ids it may be right all the same, as
  `(MIT OR MIT) AND MIT` is; the exact condition for any expression is that it is read right under
  the policies that divide its own ids into GREEN and RED (`LicenseColours.RightExactly`). A single id in
  parentheses is looked up with its parentheses on (`LicenseCorrectness.LoneInParensIsLookedUpRaw`). The
  misreading reaches the registry: a library whose license means RED can be usable on arrival
  (`LicenseGate.MisreadLicensePasses`).
- Validation is documented to set CONFIRMED or FALSE_POSITIVE only; a meaningful reflection sets
  FIRM, even on a report its own engine called a false positive (`Validation.ThirdOutcome`).
- Engines whose report was refuted still count as agreeing (`CorrelationJoin.RefutedReportCorroborates`),
  and a single engine's FIRM report becomes a TENTATIVE finding (`CorrelationJoin.ConfidenceExactly`).
- Recording an approval leaves a problem on the engine, so an engine that needs review can never
  become usable (`Registry.UsableExactly`, `Registry.ReviewedNeverUsable`).
- The discovery cap is looked at only after a URL was added, so each call on a full list adds one
  (`Feedback.CollectStep`, `Feedback.OverrunIsAttained`). The cap on fed seeds is looked at only after
  the first discovered URL, so seeds that have reached it still get that one, if it is new
  (`Feedback.MergedExactly`).
- An engine that does its work and then fails to clean up loses what it found
  (`EngineRun.CleanupDiscards`).
- Engine failures are said never to abort a scan. Two things an engine does end the run outside the
  guarded part and leave the scan RUNNING: it cannot describe itself, or it reports a URL whose scope
  check raises, because a rule's pattern that does not compile is reached
  (`Orchestrator.WhereItEnds`, `Orchestrator.ReportsExactly`, `ScanScope.BadPatternExactly`,
  `ScanScope.BadPatternLeavesRunning`). With patterns that compile only the first remains
  (`ScanScope.CompilingRulesReport`).
- The proxy's handlers share the cache of compiled patterns without a lock. Taken step by step their
  answers are right (`GoHandlers.AnswersAreRight`), but two can be about to write to the map at once,
  which the language leaves undefined (`GoHandlers.CollideExactly`).
- Normalizing an endpoint turns the empty path, of one segment, into `/`, of two
  (`Findings.NormalizeIsIdempotent`). A path that spells a placeholder itself, as `/users/{id}` does, is
  the same endpoint as those that collapse to it (`Endpoints.SameEndpointExactly`).
- Adding an exclude rule can enlarge the scope, when its host is the first opt-in to private
  addresses (`ScopeLaws.AddingExclude`, `ScopeLaws.ExcludeMayAdmit`).
- The two scope engines differ on an explicit port 0, on escaped paths, on empty scheme lists, on
  patterns that do not compile, and where their libraries disagree on private addresses
  (`ScopeAgreement.PortZeroDiffers`, `ScopeAgreement.EscapesExactly`, `ScopeAgreement.AgreeExactly`).
- A location whose endpoint, verb and parameter, written one after the other, can be cut elsewhere
  shares its fingerprint with another place (`Findings.CollidesExactly`).

## Model

| member | source | states |
|---|---|---|
| Utf8Cap.RoundTrip | src/vantage/domain/finding.py:46-47 | encoding (section 3 of RFC 3629) and then decoding while ignoring errors gives the text back, lone surrogates replaced by a question mark |
| Utf8Cap.DecodeOfCut | src/vantage/domain/finding.py:47 | cutting the encoding anywhere and decoding gives a code-point prefix, whose next code point would not have fitted |
| Utf8Cap.CapIsLongestFittingPrefix | src/vantage/domain/finding.py:43-48 | a body is kept exactly when it fits in 65536 bytes; otherwise the cap is the longest code-point prefix that fits, at most three bytes short of the limit |
| Utf8Cap.CapOfScalarText | src/vantage/domain/finding.py:43-48 | without lone surrogates the cap is a prefix of the body itself |
| Utf8Cap.CapIsIdempotent | src/vantage/adapters/native/base.py:95-97 | validating a message again leaves its body alone |
| LicensePolicy.Classify | src/vantage/governance/policy.py:61-102 | terminates on every text, and the action always belongs to the class |
| Text.CaseExactly | src/vantage/governance/policy.py:45 | changing case exchanges the letters of the two alphabets and nothing else |
| LicenseReading.ClassifyRow | src/vantage/governance/policy.py:72-102 | on the text of any list of ids, operators and parentheses the evaluator computes the flat reading: the mildest stretch between ORs, a stretch being as severe as its worst id |
| LicenseCorrectness.ClassifyAgainstMeaning | src/vantage/governance/policy.py:61-102 | for every printed expression, any operator case and parentheses, the class never exceeds the meaning, and equals min over OR and max over AND when no OR stands under an AND (precedence as in Annex D, section D.4.5 of SPDX 2.3) |
| LicenseChoice.AnswerExactly | src/vantage/governance/policy.py:55-102 | without an OR under an AND: GREEN if and only if ids listed GREEN meet the expression, YELLOW if it takes some listed YELLOW, RED if it cannot be met without one listed RED, otherwise UNKNOWN; and the action for each |
| LicenseCorrectness.SomePolicyIsMisled | src/vantage/governance/policy.py:97-102 | an expression with an OR under an AND and no repeated id is read GREEN under some policy by which it means RED |
| LicenseCorrectness.RightForEveryPolicy | src/vantage/governance/policy.py:61-102 | an expression in which no id is repeated, other than a lone id in parentheses, is read right under every policy if and only if no OR stands under an AND |
| LicenseColours.RightExactly | src/vantage/governance/policy.py:61-102 | any expression, repeated ids or not, is read right under every policy if and only if it is no lone id in parentheses and is read right under every policy that divides its own ids into GREEN and RED |
| LicenseColours.RepeatedIdIsReadRight | src/vantage/governance/policy.py:97-102 | with a repeated id an OR under an AND need not be misread |
| LicenseGate.GateIsRight | src/vantage/engines/registry.py:171-207 | a pinned, enabled library whose license has no OR under an AND is usable on arrival if and only if the license means GREEN |
| LicenseGate.GateLetsIn | src/vantage/engines/registry.py:171-207 | whatever the expression, such a library is usable on arrival when its license means GREEN |
| LicenseGate.MisreadLicensePasses | src/vantage/engines/registry.py:171-207 | for every expression with an OR under an AND and no repeated id there is a policy by which it means RED and every pinned, enabled library under it is usable on arrival |
| LicenseCorrectness.ChoiceThenConjunction | src/vantage/governance/policy.py:97-102 | `(A OR B) AND C` is read right if and only if C is no more severe than A |
| LicenseCorrectness.LoneInParensIsLookedUpRaw | src/vantage/governance/policy.py:89-94 | a lone id in parentheses is looked up with them |
| Crawler.Analyze | src/vantage/adapters/native/crawler.py:47-80 | for any site the loop ends; every page is fetched once, at its shortest distance by links to the hosts of seeds, nearest first; a fetched page is a seed or on a seed's host; if the queue drains, exactly the pages within the depth are fetched, so every such link of a page above the bound was followed; if the page cap stops it, nothing left out is nearer than a fetched page; `discovered` is exactly what the fetched pages yield, each URL as the first page that yields it does |
| Crawler.FetchPage | src/vantage/adapters/native/crawler.py:60-78 | one visit records the page's links and script endpoints and queues its same-host links one level deeper, below the depth bound |
| Crawler.ScanLinks | src/vantage/adapters/native/crawler.py:68-72 | every link is recorded if new, and queued if on a seed's host and below the depth bound |
| Crawler.ScanScripts | src/vantage/adapters/native/crawler.py:74-78 | every fetched script's endpoints are recorded, the first source winning |
| CrawlSite.RecordMeans | src/vantage/adapters/native/crawler.py:64-78 | what is recorded is what was found, and the source kept is that of the first find |
| CrawlSite.FollowsExactly | src/vantage/adapters/native/crawler.py:152-155 | the pages a page leads to are the targets of its links, without fragment, on the host of some seed, and only html pages have any |
| CrawlSite.NearIsReached | src/vantage/adapters/native/crawler.py:54-72 | distance in the searched graph is distance by such links from the seeds |
| CrawlSite.KindsOfPage | src/vantage/adapters/native/crawler.py:61-63 | a page is html by its type, and a script by its type or by its name before the first question mark, in any case |
| CrawlSite.RecordsExactly | src/vantage/adapters/native/crawler.py:60-78 | the map holds exactly what the pages yield by links, through fetched scripts, or as scripts; the source is that of the first page, links before scripts and scripts in order |
| BreadthFirst.VisitInv | src/vantage/adapters/native/crawler.py:54-72 | visiting keeps the search invariant: queue depths non-decreasing and spanning at most one, depths exact, pages met nearest first |
| BreadthFirst.DrainedIsComplete | src/vantage/adapters/native/crawler.py:54-58 | an empty queue means exactly the nodes within the bound were met |
| BreadthFirst.NothingNearerIsLeft | src/vantage/adapters/native/crawler.py:54-58 | at any moment nothing nearer than a met node is still unmet |
| TokenBucket.Limiter.Take | src/vantage/adapters/http.py:66-76 | the bucket after a take, the earliest time of the grant, a wait of at most one token's refill, and no wait when a token is there |
| TokenBucket.TakenIsSane | src/vantage/adapters/http.py:66-76 | 0 to R tokens after every take, and every wait at most 1/R |
| TokenTime.Ledger | src/vantage/adapters/http.py:66-76 | tokens held, granted and overflown balance the time that passed plus the time slept, which is credited twice |
| TokenBucket.WindowEnvelope | src/vantage/adapters/http.py:59-76 | between any two grants of any run, with any oversleep, at most R + 2R times the elapsed time are granted |
| TokenBucket.RequestedEnvelope | src/vantage/adapters/http.py:59-64 | for a limiter created for r requests a second the bucket is full and the envelope is r + 2rT, or that of 0.1 for lower r |
| TokenBucket.NominalExactly | src/vantage/adapters/http.py:59-76 | all runs of n takes keep to R + RT if and only if n is at most the whole part of R plus one |
| TokenBucket.EnvelopeIsAttained | src/vantage/adapters/http.py:68-74 | for every rate of at least 1/2, back-to-back takes reach the whole part of the doubled envelope exactly, at every unit of refill |
| TokenBucket.SlowRates | src/vantage/adapters/http.py:68-74 | below rate 1 every take waits, and k grants take at least k(1 - R) units of refill |
| TokenBucket.SlowRatesAreAttained | src/vantage/adapters/http.py:68-74 | up to rate 1/2 every number of back-to-back takes attains that bound |
| TokenBucket.SleeplessIsNominal | src/vantage/adapters/http.py:66-76 | a run in which no take sleeps keeps to R + RT throughout |
| HttpClient.Safety | src/vantage/adapters/http.py:90-142 | over every interleaving at most one coroutine is in the bucket, at most `concurrency` requests are in flight, and only allowed calls are sent |
| HttpClient.SendEnvelope | src/vantage/adapters/http.py:117-129 | the k-th request on the wire keeps to the bucket's envelope |
| HttpClient.NextStep | src/vantage/adapters/http.py:110-142 | no reachable unfinished state is stuck while responses can arrive |
| HttpClient.CanFinish | src/vantage/adapters/http.py:110-142 | from every reachable state all fetches can be brought to an end |
| HttpClient.EveryFetchReturns | src/vantage/adapters/http.py:110-142 | n fetches make at most 5n steps and can always finish |
| Taxonomy.KeyIsInjective | src/vantage/findings/taxonomy.py:39-74 | class keys are pairwise different |
| Taxonomy.KeyHasNoPipe | src/vantage/findings/taxonomy.py:39-72 | no class key holds the fingerprint's separator |
| Taxonomy.ByKeyExactly | src/vantage/findings/taxonomy.py:74-100 | a hint names a class if and only if it is the class's key |
| Taxonomy.CwesAreDisjoint | src/vantage/findings/taxonomy.py:76-81 | no CWE is listed under two classes, so the check at load time never fires |
| Taxonomy.FirstMappedCweWins | src/vantage/findings/taxonomy.py:88-100 | the first CWE that maps decides the class, whatever follows and whatever the hint |
| Taxonomy.CweExactly | src/vantage/findings/taxonomy.py:39-72 | which numbers map and to which class, read from number to class |
| Taxonomy.ClassifyExactly | src/vantage/findings/taxonomy.py:88-100 | every input has the class of its first CWE that maps; without one that which the hint names, and otherwise `other` |
| Findings.NormalizePath | src/vantage/findings/correlation.py:42-58 | the loop computes the endpoint segment by segment |
| Findings.NormalizeIsIdempotent | src/vantage/findings/correlation.py:42-58 | normalizing twice is normalizing once, and the number of segments stays if and only if the path is not empty |
| Endpoints.SegmentExactly | src/vantage/findings/correlation.py:37-39 | a segment collapses if and only if it is all digits, at least eight hexadecimal digits not all decimal, or five hyphenated groups of them, and to which mark |
| Endpoints.SegmentsExactly | src/vantage/findings/correlation.py:45 | the segments of a path are the slash-free texts that, joined by slashes, give it |
| Endpoints.SameEndpointExactly | src/vantage/findings/correlation.py:42-58 | two paths have one endpoint if and only if they have as many segments and each pair agrees or is of one kind |
| Findings.SameFingerprintSameHost | src/vantage/findings/correlation.py:61-71 | for separator-free hosts equal fingerprints mean equal class, host, port and tail, whatever paths and parameters hold |
| Findings.SameFingerprintExactly | src/vantage/findings/correlation.py:61-71 | for separator-free paths and parameters too, a fingerprint stands for exactly one class, host, port, endpoint, method-or-star and parameter-or-star |
| Endpoints.SamePlaceExactly | src/vantage/findings/correlation.py:61-71 | two places without separators share a fingerprint if and only if class, host and port agree, their segments agree or are of one kind, and method and parameter agree, where naming none is one case |
| Findings.CollidesExactly | src/vantage/findings/correlation.py:61-71 | a place shares its fingerprint with a different place if and only if its endpoint, verb and parameter, joined by the separator, can be cut elsewhere into a normalized endpoint, an upper-case verb and a parameter |
| Findings.SeparatorInPathCollides | src/vantage/findings/correlation.py:61-71 | two such places |
| Validation.ConfidenceAfter | src/vantage/scan/validation.py:108-151 | if and only if conditions for each confidence; CONFIRMED needs a reproduced condition, or was there before and was not refuted |
| ValidationLaws.ConfiguredExactly | src/vantage/scan/validation.py:108-151 | a re-tested report of a configuration condition is CONFIRMED if and only if the condition shows in the response's own headers or body, for each of the five classes, and FALSE_POSITIVE otherwise |
| ValidationLaws.ExpectedExactly | src/vantage/scan/validation.py:154-163 | the header looked for is the first the evidence names, or else what follows the first colon of the detector's id |
| ValidationLaws.ReflectedExactly | src/vantage/scan/validation.py:200-219 | a reflected marker refutes the report if and only if the clean response holds it; otherwise the report is FIRM unless it was CONFIRMED |
| ValidationLaws.OthersStay | src/vantage/scan/validation.py:229-250 | other reports, and those whose re-test raises, stay as they are |
| ValidationLaws.StampedExactly | src/vantage/scan/validation.py:235-248 | a re-test leaves one more piece of evidence, with the marker, and its own time; nothing else changes the report |
| ValidationLaws.SurvivesExactly | src/vantage/scan/validation.py:108-219 | when a report is no false positive after its re-test, in terms of report and response |
| ValidationLaws.ValidatedClassIsKnown | src/vantage/scan/validation.py:97-103 | the classes that are re-tested are classes of the taxonomy by that name |
| Validation.ThirdOutcome | src/vantage/scan/validation.py:200-219 | exactly when the result is neither the old confidence nor CONFIRMED nor FALSE_POSITIVE |
| Validation.OnlyRefutationLowers | src/vantage/scan/validation.py:235-242 | confidence is lowered if and only if a report that was not a false positive is refuted |
| Validation.FalsePositiveRevived | src/vantage/scan/validation.py:200-210 | a report marked FALSE_POSITIVE by its engine can come back FIRM |
| Validation.ValidationKeepsTheRest | src/vantage/scan/validation.py:229-250 | only confidence, one appended piece of the validator's evidence and the time change; the grouping key stays |
| Validation.ValidateAll | src/vantage/scan/orchestrator.py:213-223 | each observation is validated, or kept when validating raises, in order |
| Validation.ValidationKeepsGroups | src/vantage/scan/orchestrator.py:213-227 | groups have the same keys and members before and after validation |
| Grouping.GroupBy | src/vantage/findings/correlation.py:89-93 | the loop groups by key, keys in first-use order, members in input order |
| Grouping.Conserved | src/vantage/findings/correlation.py:89-93 | the groups together are the input, as multisets |
| Correlation.Correlate | src/vantage/findings/correlation.py:88-164 | the correlating loop, which de-duplicates the evidence of each group, returns the sorted merges of the groups |
| Correlation.Deduplicate | src/vantage/findings/correlation.py:118-125 | the nested loops keep the first evidence of each content digest |
| Correlation.EvidenceIsDeduplicated | src/vantage/findings/correlation.py:118-125 | a finding's evidence comes from its members, every digest is there, and none twice |
| Correlation.PrimaryIsFirstOfTheBest | src/vantage/findings/correlation.py:102-103 | no member outranks the primary, and the primary outranks all before it |
| Correlation.PrimaryLeads | src/vantage/findings/correlation.py:102 | no member is of higher severity, or of equal severity and higher confidence, than the primary, and every member before it is of lower |
| Correlation.FirstEvidenceIsKept | src/vantage/findings/correlation.py:117-124 | of each digest the first evidence is kept |
| Correlation.SummaryMeans | src/vantage/findings/correlation.py:105-114 | severity is the highest reported and reported by a member; when any is confirmed and when all are false |
| Correlation.SetsMean | src/vantage/findings/correlation.py:105-134 | engines, detectors and CWEs of a group are exactly those of its members |
| Correlation.PlacesMean | src/vantage/findings/correlation.py:128-134 | so are its references and affected URLs |
| Correlation.TimesMean | src/vantage/findings/correlation.py:136-137 | first and last seen are the earliest and latest time of a member |
| CorrelationLaws.FindingsAreGroups | src/vantage/findings/correlation.py:88-99 | exactly one finding per fingerprint, the merge of the observations that have it, in order; fingerprints differ pairwise; most severe and then most certain first |
| CorrelationLaws.SortedIsStable | src/vantage/findings/correlation.py:98 | findings that tie keep their order |
| CorrelationLaws.FindingsLead | src/vantage/findings/correlation.py:98 | CRITICAL findings come first and INFO last, and at one severity CONFIRMED first and FALSE_POSITIVE last |
| CorrelationLaws.ObservationsAreConserved | src/vantage/findings/correlation.py:88-99 | the observation ids of all findings together are those of the input, as multisets |
| CorrelationLaws.FaithfulTellsClasses | src/vantage/findings/correlation.py:61-71 | the class is read off the fingerprint's text, whatever hosts, paths and parameters hold, so a hash without collisions tells classes apart |
| CorrelationLaws.SameKeyExactly | src/vantage/findings/correlation.py:61-71 | under a hash without collisions, and for plain hosts, paths and parameters, two observations share a group if and only if class and place agree |
| CorrelationLaws.FindingSpeaksForMembers | src/vantage/findings/correlation.py:101-164 | class, host, port, endpoint, verb and parameter of a finding are those of every member |
| CorrelationJoin.ConfidenceExactly | src/vantage/findings/correlation.py:74-79 | exact conditions for each merged confidence, in terms of the members |
| CorrelationJoin.RefutedReportCorroborates | src/vantage/findings/correlation.py:105-114 | a refuted report of a second engine lifts TENTATIVE to FIRM |
| CorrelationJoin.OrderDoesNotMatter | src/vantage/findings/correlation.py:88-164 | permuting the input changes no fingerprint and, per fingerprint, no class, confidence, score, severity, set of engines, detectors, CWEs, references, URLs, digests or times |
| CorrelationJoin.FindingsJoin | src/vantage/findings/correlation.py:88-164 | for two lists put together a fingerprint is found if and only if one of them has it; a finding of both has the join of their views and the confidence of that join, and a finding of one is that list's |
| CorrelationJoin.HearingMoreNeverLowers | src/vantage/findings/correlation.py:101-164 | observations added anywhere never lower severity, confidence, engines, URLs, CWEs or the risk score in 0 to 100 |
| RiskScore.ApplyAll | src/vantage/findings/risk.py:98-100 | the scores are written into the findings in place, and nothing else is |
| RiskScore.ScoreIsMonotone | src/vantage/findings/risk.py:62-77 | more severe, more certain, more engines never scores lower, after rounding and clamping |
| RiskScore.ScoreRange | src/vantage/findings/risk.py:62-77 | scores lie in 0 to 100, and are 0 if and only if the finding is a false positive |
| RiskScore.ScoresBySeverity | src/vantage/findings/risk.py:19-25 | a confirmed finding of one engine and an unweighted class scores 5, 25, 50, 75 or 95 |
| RiskScore.ScoresByTrust | src/vantage/findings/risk.py:27-32 | at medium severity 0, 30, 42.5 or 50 by confidence, and 52 or 54 by two or more engines |
| RiskScore.ScoresByClass | src/vantage/findings/risk.py:36-53 | at medium severity half the class's weight in hundredths |
| RiskScore.RoundExactly | src/vantage/findings/risk.py:77 | rounding gives the nearest, and of two the even one |
| Proofs.FilterExactly | src/vantage/findings/reporting.py:236-249 | with distinct ids the view holds exactly the findings with a trusted verdict, in order, with exactly their proofs |
| Proofs.FilterIsIdempotent | src/vantage/findings/reporting.py:236-249 | filtering twice is filtering once, whatever the report |
| Pipeline.ConfirmedIsEarned | src/vantage/scan/validation.py:108-151 | if no engine claims CONFIRMED, a finding is CONFIRMED if and only if the condition of one of its observations held on a fresh response |
| Pipeline.NothingConfirmedUnvalidated | src/vantage/findings/correlation.py:74-79 | without validation nothing is CONFIRMED |
| Pipeline.ReproductionIsEvidenced | src/vantage/findings/correlation.py:118-125 | every reproduction behind a finding is in its evidence, by content |
| Pipeline.ConfirmedViewExactly | src/vantage/findings/proof.py:73-80 | the confirmed-only view holds exactly the findings with a reproduced observation, or two engines and not only false positives |
| Pipeline.VerdictExactly | src/vantage/findings/proof.py:73-80 | the verdict of a proof in terms of the observations behind the finding |
| History.MergeAcrossScans | src/vantage/findings/correlation.py:167-178 | findings seen before take over the earlier time, in place; others stay |
| History.Store.FindPrevious | src/vantage/persistence/repositories.py:133-138 | the most recently created completed scan of the tenant and target other than the present one |
| History.Store.MergeHistory | src/vantage/scan/orchestrator.py:313-326 | the present findings, updated in place from the scan before |
| History.Store.Save | src/vantage/persistence/repositories.py:171-200 | upserting one after the other keeps the last finding of each fingerprint |
| History.StoredFirstSeen | src/vantage/scan/orchestrator.py:313-326 | one scan's step: the value comes from the comparable scan before, if that had the fingerprint |
| History.FirstSeenOfStreak | src/vantage/findings/correlation.py:167-178 | over any sequence of scans of any targets with increasing creation times, the stored first-seen is the one correlated in the first scan of the current unbroken run of completed scans that found the fingerprint |
| History.StreakStartExists | src/vantage/findings/correlation.py:167-178 | there is exactly one such first scan |
| History.StoredLastSeen | src/vantage/findings/correlation.py:167-178 | the stored last time of a finding the scan before had is read in this scan, and that of a new one is as correlated |
| History.CorrelatedIndex | src/vantage/findings/correlation.py:88-99 | indexing a correlated list by fingerprint gives each group's finding |
| Registry.CleanExactly | src/vantage/engines/registry.py:100-217 | exactly when an engine registers without a problem |
| Registry.ApprovalOnArrival | src/vantage/engines/registry.py:100-207 | approved for first-party, customer-hosted and GREEN engines; pending for YELLOW ones and for RED ones at arm's length; rejected otherwise |
| Registry.EngineRegistry.RegisterManifest | src/vantage/engines/registry.py:100-217 | the registry after registering, ids keeping their first place |
| Registry.EngineRegistry.BindAdapter | src/vantage/engines/registry.py:219-221 | the adapter is set; an unknown id raises and changes nothing |
| Registry.EngineRegistry.SetEnabled | src/vantage/engines/registry.py:223-230 | the flag is set; an unknown id raises and changes nothing |
| Registry.EngineRegistry.RecordApproval | src/vantage/engines/registry.py:232-237 | settled problems go, a note stays, the status is approved |
| Registry.ApprovalLeaves | src/vantage/engines/registry.py:232-237 | recording an approval approves, drops the problems that speak of a record or of legal approval, leaves the others and a note, and changes no other engine |
| Registry.RunIsValid | src/vantage/engines/registry.py:219-267 | every sequence of operations keeps one entry per id under its own id |
| Registry.UsableExactly | src/vantage/engines/registry.py:71-77 | after any sequence of operations an engine is usable if and only if its last registration was clean, no approval followed, and it was last switched on |
| Registry.ReviewedNeverUsable | src/vantage/engines/registry.py:232-237 | an engine that needs review is never usable, whatever is approved |
| Registry.EnginesForExactly | src/vantage/engines/registry.py:251-267 | an engine is offered if and only if registered, usable, bound and capable; it then has an adapter; native engines lead |
| Planner.MakePlan | src/vantage/planner/planner.py:158-194 | the merging loop yields exactly the group-by: stages in order, engines in first-use order |
| Planner.Schedule | src/vantage/planner/planner.py:178-191 | a choice joins the engine's task of its stage or starts one |
| PlannerLaws.OneTaskPerEngine | src/vantage/planner/planner.py:176-191 | no engine has two tasks in a stage, exactly the chosen engines have one, in first-use order |
| PlannerLaws.NothingIsLost | src/vantage/planner/planner.py:158-194 | in every mode a capability is planned once for each time it is wanted and each engine chosen for it, and skipped each time it is wanted when none is |
| PlannerLaws.PlannedOrSkipped | src/vantage/planner/planner.py:158-194 | with one engine per capability, planned and skipped together are what is wanted, as multisets |
| PlannerLaws.RegistryPlanConserves | src/vantage/planner/planner.py:163-170 | so for every registry in non-redundant mode |
| PlannerLaws.WantedOrder | src/vantage/planner/planner.py:171-191 | in every mode a task's capabilities are the wanted ones of its stage for which its engine was chosen, in wanted order |
| PlannerLaws.ChosenDiffer | src/vantage/engines/registry.py:251-263 | no engine is chosen twice for a capability |
| PlannerLaws.RegistryKeepsOrder | src/vantage/planner/planner.py:163-191 | so with the registry as catalog, redundant or not |
| PlannerLaws.SkippedExactly | src/vantage/planner/planner.py:163-169 | a capability is skipped if and only if it is wanted and no engine that may run offers it |
| PlannerLaws.NativeIsChosen | src/vantage/engines/registry.py:257-263 | a native engine is chosen whenever one may run |
| PlannerLaws.PlannedCanRun | src/vantage/engines/registry.py:265-267 | after any sequence of registry operations every planned task's engine has an adapter, is not disabled and offers its capabilities, all wanted and of the stage |
| Profiles.ProfileExactly | src/vantage/planner/planner.py:33-56 | which profile is the mildest that enables a capability; each enables what milder ones do |
| Profiles.WantedExactly | src/vantage/planner/planner.py:148-156 | wanted is what an explicit list, or else the profile, names and what is for any kind or for this one; for an unknown kind nothing is dropped |
| Profiles.ExplicitListStands | src/vantage/planner/planner.py:148-156 | an explicit list replaces the profile's, in its own order |
| Profiles.ProfilesNest | src/vantage/planner/planner.py:33-56 | for every kind each profile wants all that a milder one wants |
| Profiles.StageExactly | src/vantage/planner/planner.py:107-130 | the stage of every capability |
| Profiles.PlannedExactly | src/vantage/planner/planner.py:158-194 | an engine is planned for a capability at a stage if and only if the capability is wanted, belongs to the stage and the engine is chosen for it; tasks carry the given seeds and stages come in turn |
| Profiles.ChosenExactly | src/vantage/planner/planner.py:163-170 | in redundant mode exactly the registered, clean, approved, enabled, bound and not disabled engines that offer the capability; otherwise one of them if there is any |
| Profiles.PreferredIsChosen | src/vantage/engines/registry.py:251-263 | the first chosen is native if any is, and otherwise, and among natives, the one registered first |
| Profiles.PassivePlan | src/vantage/planner/planner.py:32-41 | without an explicit list a passive scan plans no capability beyond fingerprinting, crawling, analysis and passive audit |
| Profiles.AuditsGoBeyond | src/vantage/planner/planner.py:32 | active, template, API, websocket and authorization audits, callbacks, validation and content discovery are all beyond that |
| Profiles.PassiveRun | src/vantage/scan/orchestrator.py:194-207 | and over its whole run no engine is asked for any |
| Lifecycle.ScanStore.Set | src/vantage/scan/orchestrator.py:146-166 | the scan and its audit trail after a request; illegal ones raise and change nothing |
| Lifecycle.TraceIsPath | src/vantage/scan/orchestrator.py:78-101 | whatever is asked, the trail is a legal path from CREATED; finish time if and only if terminal, start time if and only if ever RUNNING, stamped at the last and first such entry |
| Lifecycle.PathExactly | src/vantage/scan/orchestrator.py:78-94 | a trail is legal if and only if each entry is entered from one of its listed predecessors |
| Lifecycle.CompletedThrough | src/vantage/scan/orchestrator.py:78-94 | a completed scan was queued, planned and run, and ended by running, being correlated, validated and reported |
| Lifecycle.TerminalAbsorbs | src/vantage/scan/orchestrator.py:78-94 | terminal states never change |
| Lifecycle.TraceIsShort | src/vantage/scan/orchestrator.py:78-94 | a trail with k pauses has at most 7 + 2k entries |
| Lifecycle.BoundIsAttained | src/vantage/scan/orchestrator.py:78-94 | the bound is reached for every k |
| Lifecycle.CanAlwaysEnd | src/vantage/scan/orchestrator.py:78-94 | from every other state a terminal one is at most two steps away |
| Feedback.Discovery.Collect | src/vantage/scan/orchestrator.py:51-62 | the list after one call and whether the scope check raised, for any check that may |
| Feedback.RaisesExactly | src/vantage/scan/orchestrator.py:58 | a call raises if and only if it comes, before the list is full, to a URL that is not in it and whose check raises |
| Feedback.AttemptExactly | src/vantage/scan/orchestrator.py:51-62 | the list is what the allowed URLs before the one that raises add, or all of them when none does |
| Feedback.MergeSeeds | src/vantage/scan/orchestrator.py:65-74 | the seeds with the discovered URLs merged in |
| Feedback.CollectedExactly | src/vantage/scan/orchestrator.py:51-62 | a call in which no check raises appends the new in-scope URLs up to the cap, but at least the first |
| Feedback.CollectStep | src/vantage/scan/orchestrator.py:51-62 | no duplicates, in scope, the old list a prefix; the cap is passed if and only if it was reached and something new came; nothing is missed below it |
| Feedback.CollectedIsBounded | src/vantage/scan/orchestrator.py:51-62 | after k calls at most the cap plus k - 1 |
| Feedback.OverrunIsAttained | src/vantage/scan/orchestrator.py:58-62 | that many are reached for every cap and k |
| Feedback.MergedExactly | src/vantage/scan/orchestrator.py:65-74 | seeds below the cap are followed by the new discoveries up to it; seeds at or above it by the first discovered URL, if that is new |
| Feedback.MergedIsBounded | src/vantage/scan/orchestrator.py:65-74 | the planned seeds are a prefix, and the length is at most the cap or the seeds plus one |
| EngineLoop.RunStages | src/vantage/scan/orchestrator.py:195-208 | the loop over stages and tasks, with lookup, seeds, run and collection |
| EngineLoop.RunTask | src/vantage/scan/orchestrator.py:195-208 | one task: lookup, seeds, the engine's run and what it discovered; an engine that cannot describe itself, or a reported URL whose check raises, ends the run |
| EngineRun.RunEngine | src/vantage/scan/orchestrator.py:287-299 | observations that are returned were normalized by a run that got through all six calls, and those of such a run are returned |
| EngineRun.SurviveExactly | src/vantage/scan/orchestrator.py:287-299 | observations survive if and only if the engine is not unavailable and all six calls succeed, and are then what was normalized |
| EngineRun.CleanupDiscards | src/vantage/scan/orchestrator.py:290-299 | what an engine would yield if its cleanup never raised is kept if and only if its cleanup does not raise |
| EngineRun.QuietGathersTheSame | src/vantage/scan/orchestrator.py:287-299 | engines that fail at no call can take the place of any engines, every failing run finding nothing |
| EngineLoop.FailuresAreIsolated | src/vantage/scan/orchestrator.py:195-208 | with those in place of the failing runs, no observation, discovery, request or list of engines changes |
| EngineLoop.FailingEngineMayGo | src/vantage/scan/orchestrator.py:195-208 | taking an always failing engine out of the plan changes nothing for the others |
| EngineLoop.RequestsAreSound | src/vantage/scan/orchestrator.py:204-208 | every request goes to a planned task's engine under the id it describes itself by, its seeds extended only in the audit stage, within the bound and by URLs in scope |
| Feeding.AuditIsFed | src/vantage/scan/orchestrator.py:203-207 | the seeds of every auditing request: the planned ones and then what was discovered before and is not planned, in order, as far as 40 go |
| Feeding.FedAll | src/vantage/scan/orchestrator.py:203-204 | when planned and discovered URLs are at most 40 together, the seeds are exactly those |
| Feeding.FirstIsFed | src/vantage/scan/orchestrator.py:65-74 | below the cap at least the first discovery that is not planned is fed |
| Feeding.ReportedIsKnown | src/vantage/scan/orchestrator.py:51-62 | an allowed URL in the evidence of a run is known to every later unit unless 60 are |
| Feeding.FoundIsAudited | src/vantage/scan/orchestrator.py:194-208 | so what one engine finds is a seed of every later auditing request within the caps |
| EngineLoop.HowItEnds | src/vantage/scan/orchestrator.py:195-208 | cut short if and only if a bound engine cannot describe itself or collecting comes to a reported URL whose check raises; otherwise who is listed as run and as failed |
| Orchestrator.Run | src/vantage/scan/orchestrator.py:168-265 | ending, scan state, audit trail and stored row of a whole run |
| Orchestrator.WhereItEnds | src/vantage/scan/orchestrator.py:168-265 | COMPLETED with a report, FAILED when not authorized, RUNNING when cut short, with a legal trail throughout |
| Orchestrator.ReportsExactly | src/vantage/scan/orchestrator.py:168-265 | a report comes if and only if the scan may start, the target is authorized, every planned engine can describe itself and collecting comes to no URL whose check raises |
| Orchestrator.StartableExactly | src/vantage/scan/orchestrator.py:168-179 | a run may start if and only if the scan is queued or can be, and then planning is reached |
| Orchestrator.ReportLists | src/vantage/scan/orchestrator.py:255-265 | a report lists the engine of every planned task as run, in plan order, none as failed, what was skipped, and as many observations as were gathered |
| ScanScope.BadPatternExactly | src/vantage/scope/engine.py:133-162 | the check of a parsed URL raises if and only if the target is authorized, no guard applies, and the first exclude rule that does not simply fail to match, or, when all do, the first such include rule, reaches a pattern that does not compile |
| ScanScope.CompilingRulesReport | src/vantage/scan/orchestrator.py:192-208 | with rules whose patterns compile a report comes if and only if the scan may start, the target is authorized and every planned engine can describe itself |
| ScanScope.SureExactly | src/vantage/scan/orchestrator.py:192-208 | a report is sure, whatever engines that describe themselves do, if and only if nothing is planned or the check raises at no URL |
| ScanScope.BadPatternLeavesRunning | src/vantage/scan/orchestrator.py:51-62 | an exclude rule with an open bracket for a pattern and an engine that reports a page below it: the run ends without a report and the scan stays RUNNING |
| Orchestrator.FailuresChangeNothing | src/vantage/scan/orchestrator.py:287-299 | failures of engines change nothing up to the report |
| Orchestrator.NothingUnbound | src/vantage/scan/orchestrator.py:197-201 | no planned engine is ever without adapter, so none is listed as failed |
| Orchestrator.RunIsAHistoryStep | src/vantage/scan/orchestrator.py:225-242 | the row a run stores is a step of the history law |
| Orchestrator.ConfirmedViewOfReport | src/vantage/findings/reporting.py:236-249 | the confirmed-only view of a run's report, in terms of the engines' observations and the validator's responses |
| ScopeLaws.AllowedExactly | src/vantage/scope/engine.py:140-162 | allowed if and only if authorized, not guarded, not excluded and included |
| ScopeMeaning.AllowedMeans | src/vantage/scope/engine.py:140-162 | the same in terms of URL and rules: authorized; no private address unless some rule names one or a block; covered by no exclude rule and by some include rule |
| ScopeMeaning.MatchExactly | src/vantage/scope/engine.py:122-138 | a rule matches if and only if it lists the scheme, covers the host, lists the port or names none and it is the usual one, its prefix begins the path, its pattern is found, and the method is listed |
| ScopeMeaning.HostExactly | src/vantage/scope/engine.py:63-79 | a host is covered literally, by a wildcard for what ends in a dot and the domain, as the same address, or in a block, halving both as often as the block has free bits |
| ScopeMeaning.ParseExactly | src/vantage/scope/engine.py:46-60 | what a split URL becomes, and when it is refused |
| ScopeLaws.FirstRuleDecides | src/vantage/scope/engine.py:153-160 | the rule named is the first of its kind that matches |
| ScopeLaws.OrderDoesNotMatter | src/vantage/scope/engine.py:140-165 | permuting the rules changes nothing that is allowed |
| ScopeLaws.GuardIsCoherent | src/vantage/scope/engine.py:63-106 | the private-address guard never rejects what a rule covers other than by a wildcard |
| ScopeLaws.AddingExclude | src/vantage/scope/engine.py:97-106 | exactly what adding an exclude rule takes away and lets in |
| ScopeLaws.ExcludeShrinks | src/vantage/scope/engine.py:140-162 | an exclude rule that is no opt-in only takes away |
| ScopeLaws.ExcludeMayAdmit | src/vantage/scope/engine.py:97-106 | one that is can admit the loopback address |
| GoScope.ScopeEngine.RuleMatches | components/egress-proxy/scope.go:151-194 | a rule match, the same whatever the pattern cache holds |
| GoScope.ScopeEngine.Check | components/egress-proxy/scope.go:197-219 | the decision is a function of rules and URL alone; the cache invariant is kept |
| GoScope.ScopeEngine.CheckAll | components/egress-proxy/scope.go:197-219 | over any sequence of checks the cache never changes an answer |
| GoHandlers.AnswersAreRight | components/egress-proxy/main.go:50-60 | however the steps of any number of handlers fall, each finished check has the answer it would have alone on a fresh engine |
| GoHandlers.EveryCheckEnds | components/egress-proxy/scope.go:197-219 | every schedule has at most 4 r + 2 steps for each handler, r the number of rules, and stops only when every check has answered |
| GoHandlers.CollideExactly | components/egress-proxy/scope.go:174-184 | two handlers can be about to write to the cache at once if and only if each one's check comes to a rule whose pattern it needs and which compiles |
| ScopeAgreement.RuleAgreesExactly | components/egress-proxy/scope.go:151-194 | one rule matches alike in both engines unless its scheme list is empty and the web schemes would make it match |
| ScopeAgreement.AgreeExactly | components/egress-proxy/scope.go:151-219 | for the same parsed URL both engines give the same verdict and rule index if and only if they guard alike, no pattern that does not compile is reached, and the rule the proxy decides by lists its schemes |
| ScopeAgreement.GuardsAgree | components/egress-proxy/scope.go:97-108 | they guard alike where the libraries agree on whether the URL's host and the rules' hosts are private |
| ScopeAgreement.ParseAgreesExactly | components/egress-proxy/scope.go:66-95 | the parsed URLs agree if and only if nothing is parsed, or there is no explicit port 0 and no escape in the path |
| ScopeAgreement.ChecksAgreeExactly | components/egress-proxy/scope.go:197-219 | end to end, without escapes and port 0: agreement if and only if not authorized, not parsed, or the condition on the parsed URL |
| ScopeAgreement.CompleteChecksAgree | components/egress-proxy/scope.go:197-219 | with scheme lists filled in and patterns that compile, agreement end to end if and only if not authorized, not parsed, or guarded alike |
| ScopeAgreement.PortZeroDiffers | components/egress-proxy/scope.go:74-86 | with an explicit port 0 that has a default the checks agree if and only if the target is not authorized |
| ScopeAgreement.ProxyApplies | components/egress-proxy/scope.go:151-219 | for one parsed URL the proxy decides as the other engine does under the rules as applied (web schemes for an empty list, nothing for a pattern that does not compile) if and only if not authorized or guarded alike |
| ScopeAgreement.EscapesExactly | components/egress-proxy/scope.go:87-95 | for any path, escaped or not, and any rules the checks agree if and only if not authorized, or the guards agree and the written path under the rules and the decoded path under the applied rules are decided alike |
| ScopeAgreement.EscapeFlipsVerdict | components/egress-proxy/scope.go:87-95 | an escape by which one engine includes what the other excludes |
| ScopeAgreement.EmptySchemesDiffer | components/egress-proxy/scope.go:152-155 | a rule with an empty scheme list by which the engines differ |
| DefaultRules.DefaultScopeRules | src/vantage/scope/engine.py:168-187 | the loop yields one include rule per base URL with a host |
| DefaultRules.DirectoryIsLongest | src/vantage/scope/engine.py:177 | the path prefix is the longest prefix of the path that ends in a slash |
| DefaultRules.DefaultsExactly | src/vantage/scope/engine.py:168-187 | the default rules admit a URL if and only if it shares scheme, port and host or address with a base URL and lies in its directory |
| DefaultRules.BasesAreAdmitted | src/vantage/scope/engine.py:168-187 | every base URL is in scope, private addresses included |

## Left out

- Output parsing, regex signatures and process handling of the OSS, Burp, TLS, fingerprint and header engines; that none of them emits CONFIRMED (src/vantage/adapters/oss/zap.py:47-53, src/vantage/adapters/external/burp.py:73-77) is a hypothesis of the pipeline lemmas.
- The database beyond keyed rows, the web API, the CLI, the console, report texts, runners, configuration files: input and output.
- The request knowledge base, which records coverage and decides nothing here.
- The AI layer, which annotates findings and may reorder them after scoring, and the list of observations the orchestrator stores.
- SHA-256 and HMAC: the hash of a fingerprint is any function of what it is made of, and is assumed to be free of collisions (`Correlation.Faithful`) just where a law needs it; proof signing and canonical JSON are not modelled. Evidence digests of engines are given strings.
- Titles, OWASP labels, remediation texts, task reasons and log messages; the sorted lists of a finding (engines, detectors, CWEs, references, URLs) are sets.
- Characters beyond ASCII in case folding, and non-ASCII digits in path segments.
- Rounding inside the risk score's decimal constants: they are exact reals here; the final rounding to tenths is half to even.
- Lists of license operands separated by tabs or doubled operators: the printed expressions have single blanks around operators.
- The memory model of the proxy's language: a read or write of the pattern cache is one step, and what overlapping writes do to the map is not modelled, only that they can come about.
- Cancelled coroutines, redirects, body decoding and the size limit of the HTTP client.
- How the crawler's map becomes observations: one INFO observation for each URL with a host.
- Extraction of links and scripts from HTML, URL joining and parsing, regular expressions and the private address ranges: uninterpreted functions. IPv6 hosts are whatever those functions say.
- Rules with patterns that do not compile: that the order of rules does not matter, and what an exclude rule changes, is stated for rules whose patterns compile, because the one engine raises at the first it reaches.
- ScopeAgreement.AgreeExactly: is stated for hosts and rules whose addresses, blocks and patterns the two languages read alike, as their own parsers are not modelled; a netmask in place of a prefix length is read by one only.
- History.FirstSeenOfStreak: is stated for scans whose creation order is the order in which they finish, because the previous scan is chosen by creation time.
- Validation.ValidateAll: the answer to each observation's one request is a parameter, so a server that changes between requests is covered, but not what the request costs.
- A target without authorization ends FAILED in the model as in the code; failures of the database, the prober's factory, the correlator or the risk engine, and what no `except Exception` catches (cancellation, interrupts), are not modelled.
