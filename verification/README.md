# Verified models of the platform's gates

The repository ships a data platform together with Python gates that decide, before and after every
change, whether the manifests, SQL files, images, certificates, policies, sizing and release evidence
are acceptable. A gate is worth what its acceptance means, so this project models the gates with the
hardest logic in Dafny and proves what acceptance means, what is never let through, and where the
code is stricter or laxer than its description.

| file | content |
|---|---|
| `Text.dfy`, `Wrappers.dfy` | characters, trimming, cutting and joining; option and result types |
| `SqlLexer.dfy` | the reference lexer for SQL text: a jump from token to token, one class per character |
| `DataStandards.dfy` | the four hand-written SQL scanners as loops, each proved against the reference lexer |
| `SqlRelex.dfy`, `SqlStripping.dfy`, `SqlPipeline.dfy`, `SqlTables.dfy` | lexing a cut-out piece from scratch, stripping, statements, tables, and all four scanners in a row |
| `SqlShapes.dfy` | the reference lexer in plain characters |
| `ControlEvidence.dfy` | the depth-first walk over the Make graph with its shared set, and the check of a row |
| `ReviewPass.dfy` | the check, act, re-check protocol of the review status among pushes and merges |
| `Sizing.dfy`, `Placement.dfy` | adding up requests, and what the verdict means for placing the pods |
| `DeclaredRequests.dfy` | what is counted for a container, a pod and a workload, by the declared amounts |
| `NetworkPolicy.dfy` | default-deny coverage over several renders, a second implementation of it, and the semantics of NetworkPolicy |
| `GoDuration.dfy`, `CertificateInventory.dfy` | durations, host patterns and the certificate inventory |
| `CertificateFields.dfy` | acceptance of the inventory by the fields and positions of the resources |
| `Cron.dfy` | cron fields |
| `LiveDrift.dfy`, `DriftFields.dfy` | the live cluster against the declared state, and the same by the entries of the lists |
| `EvidenceBundle.dfy`, `EvidenceFields.dfy` | building, sealing and verifying a release bundle, and what a verified one holds by file and field |
| `ImageRefs.dfy`, `PinRatchet.dfy` | two parsers of image references, and the shrinking baseline of unpinned images |
| `SeaweedVolumes.dfy` | the demand for SeaweedFS volume slots |

Where the source loops over variables, the model is a method with the same loop, proved against a
specification function or predicate; the theorems are lemmas about that specification. What a loop and
its specification both rely on (which characters are quotes, what counts as a request, where a workload
keeps its containers) is fixed by lemmas that spell out the characters, fields and positions. Lemmas carry
`{:induction false}`, so every induction is written out. Verify everything with
`dafny verify dfyconfig.toml`.

## What the proofs show about the code

- The two styles of SQL scanner, looking ahead for a doubled quote or toggling at every quote, agree on
  every text. Run one after the other, each on the result of the one before, they find and cut a table as
  one lexing of the original would, exactly when that lexing puts the parenthesis of the table outside
  literals (`SqlTables.ScannersAgree`). The pattern for the header does not see to that: after the name
  `a$$b$` the parenthesis is inside a dollar quote for the scanners of the whole text
  (`SqlTables.HiddenTable`).
- Exit code 3 of the review script is documented as a moved head. It is also the answer when the second
  read returns an object that leaves the head out (`ReviewPass.SecondReadDecides`).
- The sizing report flags a total only when it exceeds the capacity by more than 0.05, since it compares
  after rounding (`Placement.RoundingSlack`); below that it can miss a render that does not fit
  (`Placement.Unflagged`). A flagged total rules out every placement, and so does a pod larger than a
  worker when a worker is at least as large as the master (`Placement.Assess`). The per-pod check has
  false alarms: a workload scaled to zero (`Placement.FlaggedWithoutReplicas`), and Kafka or Flink
  workloads whose pods exceed a worker only together (`Placement.FlaggedTogether`). With such workers,
  exactly the workloads with a single pod larger than a worker cannot be placed on any number of them
  (`Placement.FlagIsConclusive`).
- Of the policies that admit ingress to every pod, the policy gate sees exactly those with `policyTypes`,
  a `podSelector` and no expressions in it (`NetworkPolicy.LeakSeenIff`). It misses one that omits the
  types, one that omits the selector, which Kubernetes reads as the empty one, and one whose expressions
  say nothing, which the API server refuses (`NetworkPolicy.WaysPast`).
- For egress the policy gate asks for one policy that denies both directions, which is stricter than its
  rule 3: two policies that deny one direction each isolate every pod, the report flags both directions,
  and the gate still finds egress open (`NetworkPolicy.ReportAgrees`, `NetworkPolicy.DeniedApart`).
- The cron check accepts steps only at the end of a list (`Cron.SlashFirstIsCommaFirst`).
- Only the last definition of a Secret counts for the certificate inventory. Two definitions in
  different API groups pass as different resources, and then their order can decide
  (`CertificateInventory.OrderMayMatter`): exactly when a reference names a Secret without a Certificate
  that has a definition of the TLS type (`CertificateInventory.OrderIff`).
- `build` writes files before it renders the asset inventory, so a failing rendering leaves some behind.
  Once a failing build has begun to write, what it leaves never verifies, even where a complete bundle was
  before; a build refused for its identity, or like it for a license or the SBOM, writes nothing and
  leaves an older bundle as it was (`EvidenceBundle.UnfinishedIsRejected`).
- The command `build` verifies what it has built, and can fail there for reasons that no checkout makes up
  for: other files or links in the directory, an empty license inventory, empty or miscounted asset
  sections, an SBOM that does not match, or a carriage return in the rendering, which is lost when the
  file is read back (`EvidenceBundle.Bundle.BuildCommand`).
- The description of the slot demand adds the backup volumes always, the code only when the backup
  bucket is among the identities; the model follows the code (`SeaweedVolumes.Validate`).

## Model

| member | source | states |
|---|---|---|
| `DataStandards.StripSqlComments` | scripts/ci/check-data-standards.py:78-131 | fails exactly when the reference lexer finds a block comment that never ends; otherwise returns the text in which exactly the comment characters are blanks and line feeds stay |
| `DataStandards.BlankLine` | scripts/ci/check-data-standards.py:113-117 | a `--` comment ends where the reference lexer says and its text is blanked |
| `DataStandards.BlankBlock` | scripts/ci/check-data-standards.py:118-128 | a block comment ends after the first `*/`, is blanked but for its line feeds, and fails exactly when there is none |
| `DataStandards.SplitSqlStatements` | scripts/ci/check-data-standards.py:134-172 | the look-ahead scanner cuts at exactly the semicolons that the reference lexer puts outside literals and drops a blank last piece |
| `DataStandards.SplitDefinitions` | scripts/ci/check-data-standards.py:175-216 | the toggling scanner cuts at exactly the commas outside literals and parentheses, and trims |
| `DataStandards.TableBody` | scripts/ci/check-data-standards.py:219-251 | returns the first parenthesis outside literals that brings the depth back to 0, with the text between, and fails exactly when there is none |
| `SqlLexer.FollowsToken` | scripts/ci/check-data-standards.py:70-131 | a token that starts in code covers its text with its class, and lexing goes on in code behind it |
| `SqlLexer.ToggleQuote` | scripts/ci/check-data-standards.py:195-203 | leaving a literal at the first of two quotes and entering it again at the second gives every character the class that looking ahead gives it |
| `SqlLexer.StepFollows` | scripts/ci/check-data-standards.py:82-172 | one step of any of the four scanners, looking ahead or toggling, keeps its `quote` variable in agreement with the reference lexer |
| `SqlShapes.QuoteOpens` | scripts/ci/check-data-standards.py:108-111 | in code each of `'`, `` ` `` and `"` opens a literal of itself up to the first repetition that is not doubled, or to the end |
| `SqlShapes.DelimiterOpens` | scripts/ci/check-data-standards.py:70-97 | in code `$$` or `$name$`, not behind a name and the name not starting with a digit, opens a literal up to its first repetition, or to the end |
| `SqlShapes.HyphensOpen` | scripts/ci/check-data-standards.py:113-117 | in code two hyphens open a comment up to the first carriage return or line feed |
| `SqlShapes.SlashOpens` | scripts/ci/check-data-standards.py:118-128 | in code a slash and an asterisk open a comment up to the first asterisk and slash behind them; without these it is torn |
| `SqlShapes.OthersArePlain` | scripts/ci/check-data-standards.py:70-131 | any other character in code is code and leaves the next one in code; with the four rows above this fixes the class of every character |
| `SqlShapes.ClassShape` | scripts/ci/check-data-standards.py:70-131 | a literal is one of the three quotes or of the shape of a delimiter, and no character in code opens anything |
| `SqlShapes.CutsAre` | scripts/ci/check-data-standards.py:134-251 | statements are cut at semicolons in code, definitions at commas in code before which as many parentheses in code are opened as closed, and a table ends at a closing one that makes them equal |
| `SqlShapes.DepthCounts` | scripts/ci/check-data-standards.py:175-251 | the depth is the number of opening parentheses in code less that of closing ones |
| `SqlStripping.StripLex` | scripts/ci/check-data-standards.py:78-131 | stripping keeps the length and every line feed in its place, adds no line feed, changes only comments, and leaves every other character in the class it had |
| `SqlStripping.StripIdempotent` | scripts/ci/check-data-standards.py:78-131 | the stripped text holds no comment any more, so stripping it again succeeds and changes nothing |
| `SqlRelex.Relocate` | scripts/ci/check-data-standards.py:70-75 | a stretch that is cut out at a code position and ends before a separator has, lexed from scratch, the classes it had in place, the look behind a dollar quote included |
| `SqlPipeline.StatementRelex` | scripts/ci/check-data-standards.py:134-172 | a statement lexed from scratch has the classes it had in the text, holds no semicolon in code, and is closed unless it is the last |
| `SqlPipeline.CutsOfOriginal` | scripts/ci/check-data-standards.py:78-172 | splitting the stripped text cuts at exactly the semicolons of the original outside comments and literals |
| `SqlPipeline.StatementsJoin` | scripts/ci/check-data-standards.py:134-172 | joining the statements with semicolons restores the text up to a last semicolon with blanks behind it |
| `SqlPipeline.StatementsRoundTrip` | scripts/ci/check-data-standards.py:134-172 | closed statements joined with semicolons are split into the same list exactly when the last one is not blank |
| `SqlTables.BodyPlaced` | scripts/ci/check-data-standards.py:219-251 | a table body lexed from scratch has the classes it had inside the table, and is closed |
| `SqlTables.BodyBalanced` | scripts/ci/check-data-standards.py:175-251 | on a table body the definition splitter never has a negative depth and ends at depth 0 outside literals |
| `SqlTables.ScannersAgree` | scripts/ci/check-data-standards.py:70-251 | strip, split, take a table body and split it, each step from scratch on the result of the one before: the table ends, and is cut and lexed, as by one lexing of the original text, exactly when that puts the opening parenthesis outside literals |
| `SqlTables.OutOfStep` | scripts/ci/check-data-standards.py:70-251 | two lexings of one text, one inside a literal and one in code, never give the same classes up to a common code character |
| `SqlTables.HiddenTable` | scripts/ci/check-data-standards.py:19-25 | `CREATE TABLE a$$b$ (x int)`: the header pattern takes `a$$b$` for the name, while the lexer finds the literal `$b$` open at the parenthesis |
| `SqlTables.DefinitionsJoin` | scripts/ci/check-data-standards.py:175-216 | the body is the comma join of pieces, each of which is a definition with blanks around it, up to a last comma with blanks behind it |
| `SqlTables.DefinitionsRoundTrip` | scripts/ci/check-data-standards.py:175-216 | trimmed, closed, balanced definitions without a comma of their own survive joining and splitting exactly when the last one is not empty |
| `Text.JoinSegments` | scripts/ci/check-data-standards.py:134-172 | joining the pieces with the separator that was cut out restores the text |
| `ControlEvidence.Walk.OwnRecipe` | scripts/ci/check-control-evidence-map.py:70-84 | one pass over the lines yields the text and the dependencies of the target, in terms of line positions: its recipe lines are those whose nearest rule or other line before is a rule of the target, in order and each once, followed by the run-all text; it brings in exactly the prerequisites of its rules and what those lines call |
| `ControlEvidence.OwnIs` | scripts/ci/check-control-evidence-map.py:65-93 | the text and the dependencies that the walk is stated with are these |
| `ControlEvidence.OccursIff` | scripts/ci/check-control-evidence-map.py:145-146 | a path is found where it stands with none of letter, digit, `_`, `.`, `-` or slash before it and, but for the slash, behind it |
| `ControlEvidence.WorkflowIff` | scripts/ci/check-control-evidence-map.py:143-144 | workflows are the paths that start with `.github/` |
| `ControlEvidence.Walk.RecipeText` | scripts/ci/check-control-evidence-map.py:65-93 | called with the shared set `seen`, the walk terminates on cyclic graphs, adds exactly the targets reachable by paths that avoid the set, and emits the recipe of each exactly once |
| `ControlEvidence.Make.ReachesInside` | scripts/ci/check-control-evidence-map.py:65-93 | a set that holds a target and is closed under dependencies outside `avoid` holds everything reachable around `avoid` |
| `ControlEvidence.Recipe` | scripts/ci/check-control-evidence-map.py:65-93 | from the empty set exactly the reachable targets are covered, each once, and a path occurs in the text exactly when it occurs in the own recipe of a reachable target |
| `ControlEvidence.OccursInLine` | scripts/ci/check-control-evidence-map.py:144-146 | a path without a line feed is found in a text exactly when it is found in one of its lines |
| `ControlEvidence.FoundIffReachable` | scripts/ci/check-control-evidence-map.py:65-93 | the match in the whole text is the match in some reachable target's own recipe |
| `ControlEvidence.Search` | scripts/ci/check-control-evidence-map.py:144-146 | the search with both look-arounds, at every position |
| `ControlEvidence.CheckRow` | scripts/ci/check-control-evidence-map.py:141-152 | a row is accepted exactly when every cited target reaches a recipe that runs every cited verifier that is no workflow; otherwise one verifier is named with exactly the cited targets that do not run it |
| `ControlEvidence.Missing` | scripts/ci/check-control-evidence-map.py:146 | exactly the cited targets that do not run the verifier |
| `ReviewPass.PlanStatus` | scripts/ci/mark-review-pass.py:30-49 | a status may be posted exactly when the SHA is full, is the head of the answer in lower case, and the pull request is open and no draft; the SHA it is posted on is that one |
| `ReviewPass.PlanIff` | scripts/ci/mark-review-pass.py:30-49 | in plain characters: 40 digits and letters `a` to `f`, capital or small where the SHA is given, small in the answer |
| `ReviewPass.StepInv` | scripts/ci/mark-review-pass.py:52-79 | every step of a run, of a pusher, of a merger and of anyone else keeps the invariant |
| `ReviewPass.ReachableInv` | scripts/ci/mark-review-pass.py:63-79 | the invariant holds after any interleaving of any number of runs with pushes, draft and state changes and merges |
| `ReviewPass.OnlyReviewedIsMerged` | scripts/ci/mark-review-pass.py:5-10 | every status is on the full SHA that a run was given and that was the open head when it read it first, so every merged SHA was reviewed |
| `ReviewPass.ExitZero` | scripts/ci/mark-review-pass.py:6-10 | exit 0: the status is posted and the head was the reviewed SHA at both reads |
| `ReviewPass.ExitThree` | scripts/ci/mark-review-pass.py:10 | exit 3: the status is posted and the head was the reviewed SHA at the first read; at the second it had moved or was not named; the other exit codes are 0 and 1 |
| `ReviewPass.SecondReadDecides` | scripts/ci/mark-review-pass.py:74-79 | exactly when the second answer gives 0 and when it gives 3: with an unmoved head the code is 3 exactly when the answer is an object without the head, which the documented meaning of exit 3 leaves out |
| `ReviewPass.ThreeWithoutPush` | scripts/ci/mark-review-pass.py:63-79 | a reachable world, for every full SHA, in which nobody pushed and a run ended with 3 |
| `Sizing.Pod` | scripts/generate_sizing_report.py:109-135 | a pod requests the larger of the sum of its containers and the largest init container, a missing request counting as the limit |
| `DeclaredRequests.SamePod` | scripts/generate_sizing_report.py:109-135 | writing out every missing request, as the limit where there is one and as nothing otherwise, changes neither the requests nor the limits of a pod |
| `DeclaredRequests.SameWorkload` | scripts/generate_sizing_report.py:162-232 | nor the pods and the record of a workload |
| `DeclaredRequests.SameVerdict` | scripts/generate_sizing_report.py:268-312 | nor the verdict on a render |
| `DeclaredRequests.PodIs` | scripts/generate_sizing_report.py:109-135 | with all requests written out a pod requests, of CPU and of memory, the largest of the sum over its containers and of each init container |
| `DeclaredRequests.WorkloadIs` | scripts/generate_sizing_report.py:162-232 | what the pods of each kind of workload request together: the pod as often as it runs and once for a job, the block of a Cluster or node pool as often as there are instances, all blocks of a Kafka, all managers of Flink |
| `DeclaredRequests.LimitsTogetherIs` | scripts/generate_sizing_report.py:162-232 | the same for limits, where a missing one counts as nothing |
| `DeclaredRequests.FirstDocsAre` | scripts/generate_sizing_report.py:235-240 | exactly the documents that no earlier one of the same kind, namespace and name replaces, in order |
| `DeclaredRequests.RenderGrows` | scripts/generate_sizing_report.py:251-261 | one more document adds what its pods request to the render, unless it is a Job or a CronJob |
| `DeclaredRequests.CapacityIs` | scripts/generate_sizing_report.py:84-93 | capacity and worker of a profile in millicores and MiB |
| `Sizing.ScatteredTotal` | scripts/generate_sizing_report.py:196-205 | the requests and the limits of the resource blocks found in a document add up |
| `Sizing.ManagersTotal` | scripts/generate_sizing_report.py:212-230 | job and task managers add up, each as many times as it runs |
| `Sizing.WorkloadRecord` | scripts/generate_sizing_report.py:162-232 | a record adds up the requests and the limits of its pods and takes as pod requests those of one of them where they are equal, and their sum for Kafka and FlinkDeployment; it fails exactly for a Cluster or node pool without instances |
| `Sizing.CollectRender` | scripts/generate_sizing_report.py:235-240 | exactly one record for each kind, namespace and name, that of the first document; their order is left out |
| `Sizing.Summarize` | scripts/generate_sizing_report.py:247-265 | for requests and for limits, the total is the sum of the steady workloads and of the namespaces; each namespace counts and adds up its own |
| `Placement.Evaluate` | scripts/generate_sizing_report.py:268-291 | exactly which violations are reported: totals after rounding, pods as they are |
| `Placement.LoadsSum` | scripts/generate_sizing_report.py:268-291 | however pods are assigned to machines, the loads add up to the pods |
| `Placement.FitsWithin` | scripts/generate_sizing_report.py:268-291 | what fits on the machines does not request more than they have together |
| `Placement.MachinesSum` | scripts/generate_sizing_report.py:84-93 | one master and n workers have together the capacity of the profile |
| `Placement.RoundingSlack` | scripts/generate_sizing_report.py:243-291 | the rounded comparison flags a total exactly when it exceeds the capacity by more than 0.05 |
| `Placement.TotalsSound` | scripts/generate_sizing_report.py:180-282 | OVERSUBSCRIBED is sound: totals above the capacity, flagged ones in particular, rule out every placement of the pods |
| `Placement.PodSound` | scripts/generate_sizing_report.py:268-291 | a flagged pod of a workload with at least one replica rules out every placement when a worker is at least as large as the master |
| `Placement.FlaggedWhen` | scripts/generate_sizing_report.py:180-292 | exactly which workloads are flagged: those with a pod larger than a worker, those of equal pods without replicas whose pod would be, and those of Kafka and Flink whose pods are together |
| `Placement.BigPodSound` | scripts/generate_sizing_report.py:268-291 | a workload with a pod larger than a worker rules out every placement of a render that holds it when a worker is at least as large as the master |
| `Placement.FlagIsConclusive` | scripts/generate_sizing_report.py:268-291 | when a worker is at least as large as the master, no number of workers is enough for a workload exactly when a single pod of it is larger than a worker |
| `Placement.FlaggedWithoutReplicas` | scripts/generate_sizing_report.py:268-291 | a workload scaled to zero is flagged for its pod although nothing has to be placed |
| `Placement.FlaggedTogether` | scripts/generate_sizing_report.py:212-230 | two equal Flink managers that fit a machine each but not one worker together are flagged although they can be placed |
| `Placement.FlaggedTogetherAt` | scripts/generate_sizing_report.py:212-230 | two managers of 600 MiB on two machines of 1024 MiB are such a deployment |
| `Placement.Unflagged` | scripts/generate_sizing_report.py:243-291 | a total above the capacity by no more than 0.05 is not flagged, and no placement exists |
| `Placement.UnflaggedAt` | scripts/generate_sizing_report.py:243-291 | four pods of 512.01 MiB on two machines of 1024 MiB are such a deployment |
| `Placement.Assess` | scripts/generate_sizing_report.py:301-312 | from the documents to the verdict: exactly which violations there are, that a total among them rules out every placement, and that a pod larger than a worker does when a worker is at least as large as the master |
| `NetworkPolicy.WorkloadNamespaces` | scripts/ci/check-networkpolicy-coverage.py:120-125 | exactly the namespaces with a workload |
| `NetworkPolicy.NetpolsByNamespace` | scripts/ci/check-networkpolicy-coverage.py:128-135 | the policies of each namespace, in order |
| `NetworkPolicy.AnyDefaultDeny` | scripts/ci/check-networkpolicy-coverage.py:149-172 | some policy of the list is a namespace-wide default deny |
| `NetworkPolicy.PolicyViolations` | scripts/ci/check-networkpolicy-coverage.py:225-239 | exactly the policies that leak ingress or have an egress rule without peers |
| `NetworkPolicy.EvaluateCombo` | scripts/ci/check-networkpolicy-coverage.py:210-241 | for one render exactly the workload namespaces, the namespaces with a default deny for ingress and for both directions, and the violations |
| `NetworkPolicy.CheckCoverage` | scripts/ci/check-networkpolicy-coverage.py:271-332 | exactly which findings are reported over all renders |
| `NetworkPolicy.CleanIff` | scripts/ci/check-networkpolicy-coverage.py:271-332 | nothing is reported exactly when no policy breaks a rule, the namespaces that lack ingress default deny in some render are the baseline, the baseline is within the ceiling, and no other namespace with a workload lacks egress default deny |
| `NetworkPolicy.PolicyReportedIff` | scripts/ci/check-networkpolicy-coverage.py:138-239 | by their fields exactly the policies with an empty selector, the ingress type and ingress rules are reported, and those with an egress rule without peers; a policy whose egress rules all have peers never is |
| `NetworkPolicy.CleanWhen` | scripts/ci/check-networkpolicy-coverage.py:271-332 | by the fields of the policies and resources: when the gate reports nothing over all renders |
| `NetworkPolicy.CleanMeansIsolated` | scripts/ci/check-networkpolicy-coverage.py:149-207 | under the additive semantics of NetworkPolicy, in every render every pod of a namespace outside a clean baseline is isolated both ways; a policy that admits ingress there leaves out some possible pod unless it omits its types or its selector or has expressions, and egress goes to named peers only |
| `NetworkPolicy.SelectsEveryIff` | scripts/ci/check-networkpolicy-coverage.py:138-146 | a selector selects every possible pod exactly when it is omitted, or has no labels and only expressions that say nothing |
| `NetworkPolicy.LeakSeenIff` | scripts/ci/check-networkpolicy-coverage.py:175-190 | of the policies that admit some ingress to every pod the gate sees exactly those that name their types, give a selector, and have no expressions in it |
| `NetworkPolicy.WaysPast` | scripts/ci/check-networkpolicy-coverage.py:175-190 | three policies that let everybody reach every pod and break no rule, one for each of the conditions |
| `NetworkPolicy.NetworkPolicyCoverage` | scripts/ci/check-k8s-security-baseline.py:225-247 | the report has an entry for exactly the namespaces with policies, with their names and both flags |
| `NetworkPolicy.FlagsIff` | scripts/ci/check-k8s-security-baseline.py:225-247 | by the fields: which policies the report flags in which direction |
| `NetworkPolicy.ReportAgrees` | scripts/ci/check-k8s-security-baseline.py:225-247 | for ingress the gate finds a default deny exactly when the report flags a policy that names its types, for egress exactly when the report flags one and the same policy both ways |
| `NetworkPolicy.FlaggedIsIsolated` | scripts/ci/check-k8s-security-baseline.py:225-247 | in a direction that the report flags every pod is isolated |
| `NetworkPolicy.DeniedApart` | scripts/ci/check-networkpolicy-coverage.py:149-172 | two policies, one of which denies ingress and the other egress: the report flags both directions, every pod is isolated both ways, and the gate reports open egress |
| `NetworkPolicy.CleanMeansFlagged` | scripts/ci/check-k8s-security-baseline.py:225-247 | the report flags both directions for every namespace with a workload outside a clean baseline |
| `CertificateInventory.CoversExactly` | scripts/ci/check-certificate-inventory.py:98-101 | a `*.` pattern covers exactly the hosts made of one dot-free label, possibly empty, and the rest of the pattern; any other pattern only itself |
| `CertificateInventory.FirstPass` | scripts/ci/check-certificate-inventory.py:221-238 | passes exactly when all identities differ, certificates and issuers have the right API and no Secret holds inline keys; collects exactly the issuers |
| `CertificateInventory.CheckCertificate` | scripts/ci/check-certificate-inventory.py:245-263 | exactly when a Certificate is valid: a name, a lifetime of an hour or more renewed five minutes or more before its end, an issuer that is there |
| `CertificateInventory.SecondPass` | scripts/ci/check-certificate-inventory.py:240-274 | passes exactly when all Certificates are valid and no two manage one Secret, and then holds exactly them |
| `CertificateInventory.CheckListener` | scripts/ci/check-certificate-inventory.py:137-213 | exactly when a Kafka listener passes |
| `CertificateInventory.CheckConsumer` | scripts/ci/check-certificate-inventory.py:276-296 | exactly when a resource passes, and whether it uses a certificate |
| `CertificateInventory.ThirdPass` | scripts/ci/check-certificate-inventory.py:276-299 | all resources pass, and some of them uses a certificate |
| `CertificateInventory.Inventory` | scripts/ci/check-certificate-inventory.py:218-304 | the three passes accept exactly the lists that satisfy one declarative predicate, and return the one map of certificates that satisfies it |
| `CertificateInventory.AcceptedMeans` | scripts/ci/check-certificate-inventory.py:218-302 | a Secret that is used for TLS is managed by exactly one Certificate, which has an issuer that is there and a proper lifetime and covers the hosts |
| `CertificateFields.AcceptedIff` | scripts/ci/check-certificate-inventory.py:218-302 | a list is accepted exactly when every resource, by its fields and by those of the others in the list, is as described there, without the sets and maps of the gate: API version, inline keys, lifetime, percentage, issuer, one Certificate for a Secret, hosts, references, listeners, endpoints |
| `CertificateFields.ForbiddenIsRejected` | scripts/ci/check-certificate-inventory.py:137-302 | no list is accepted that holds a malformed resource, a Secret with inline keys, a cert-manager resource of another API version, a Certificate with a percentage, another issuer group or no name, or a Kafka listener without host verification, with its own certificate but no TLS, with endpoints but no TLS or trust, or with trust that is no CA |
| `CertificateFields.RefIff` | scripts/ci/check-certificate-inventory.py:276-296 | when a reference is about TLS and when it passes, by the fields of the resources in the list |
| `CertificateFields.ListenerIff` | scripts/ci/check-certificate-inventory.py:137-213 | when a Kafka listener passes, by the fields of the resources in the list |
| `CertificateInventory.NormalIs` | scripts/ci/check-certificate-inventory.py:98-101 | normalising takes small letters and drops all dots at the end, nothing else |
| `CertificateInventory.EndpointsTrusted` | scripts/ci/check-certificate-inventory.py:171-213 | an OAuth endpoint is covered by a certificate whose issuer also issued one that the listener trusts |
| `CertificateInventory.OrderIff` | scripts/ci/check-certificate-inventory.py:218-302 | every order of an accepted list is accepted exactly when no reference names a Secret that no Certificate manages and that has a definition of the TLS type; then issuers and certificates are the same in every order |
| `CertificateInventory.SecretsAre` | scripts/ci/check-certificate-inventory.py:234-235 | of every Secret that is defined the last definition counts |
| `CertificateInventory.OrderDoesNotMatter` | scripts/ci/check-certificate-inventory.py:218-302 | the order never matters when no Secret of one name has two definitions |
| `CertificateInventory.OrderMayMatter` | scripts/ci/check-certificate-inventory.py:221-238 | with two definitions of one Secret in different API groups the order decides: a list that is accepted and a reordering that is rejected |
| `GoDuration.FindAll` | scripts/ci/check-certificate-inventory.py:84-86 | the matches make up the whole text exactly when it is a concatenation of tokens, and then are these tokens |
| `GoDuration.Duration` | scripts/ci/check-certificate-inventory.py:82-90 | accepts exactly the concatenations of number-unit tokens with a positive total, with that total |
| `GoDuration.TokenMatches` | scripts/ci/check-certificate-inventory.py:37 | a token is matched to its end whatever follows it |
| `GoDuration.TokensUnique` | scripts/ci/check-certificate-inventory.py:37 | a text is cut into tokens in at most one way |
| `GoDuration.DurationsAdd` | scripts/ci/check-certificate-inventory.py:82-90 | two accepted durations written one after the other are accepted and mean the sum |
| `GoDuration.DurationIsOne` | scripts/ci/check-certificate-inventory.py:82-90 | a duration means one number of seconds |
| `GoDuration.NumberIff` | scripts/ci/check-certificate-inventory.py:37 | a number is digits, or digits around a dot with at least one of them |
| `GoDuration.TokenIff` | scripts/ci/check-certificate-inventory.py:37-87 | a token is a number and `h`, `m` or `s`, worth 3600, 60 or 1 second each |
| `GoDuration.DecimalParts` | scripts/ci/check-certificate-inventory.py:87 | the digits before the dot count whole units and those behind it the rest |
| `Cron.SlashFirstIsCommaFirst` | scripts/ci/check-postgres-backup-config.py:82-106 | the slash-first recursion accepts exactly the fields of a comma-first grammar in which only the last item has a step |
| `Cron.FieldMeaning` | scripts/ci/check-postgres-backup-config.py:82-106 | an accepted field denotes at least one value, and only values in range |
| `Cron.ItemValues` | scripts/ci/check-postgres-backup-config.py:82-106 | every item of the list denotes a non-empty set of values in range |
| `Cron.RangeIff` | scripts/ci/check-postgres-backup-config.py:99-105 | a range is a star, a number within the bounds, or two numbers in order within them with a hyphen between |
| `Cron.FirstToken` | scripts/ci/check-postgres-backup-config.py:119 | what `split()` returns: the first word up to a blank, then the words of the rest |
| `Cron.ExpressionIff` | scripts/ci/check-postgres-backup-config.py:109-124 | the six fields with their ranges |
| `Cron.EachFieldHasValue` | scripts/ci/check-postgres-backup-config.py:109-124 | an accepted expression has six fields, each with a value in range |
| `LiveDrift.Ignored` | scripts/ops/check-live-drift.py:319-330 | exactly when some rule matches by kind, group, name and namespace |
| `LiveDrift.ContainerFindings` | scripts/ops/check-live-drift.py:333-345 | exactly the containers that are missing, undeclared or of another image, in both lists |
| `LiveDrift.ResourceFindings` | scripts/ops/check-live-drift.py:388-406 | exactly the findings of one tracked resource |
| `LiveDrift.AppFindings` | scripts/ops/check-live-drift.py:358-406 | exactly the findings of one Application, and exactly the workloads that it tracks |
| `LiveDrift.AppsFindings` | scripts/ops/check-live-drift.py:351-406 | the same for all expected Applications; a missing one is reported |
| `LiveDrift.LiveWorkloads` | scripts/ops/check-live-drift.py:408-411 | the live workloads: exactly the identities that occur, each with the last workload that has it |
| `LiveDrift.ImagesAre` | scripts/ops/check-live-drift.py:157-165 | of the containers of one name in a list the image of the last one counts |
| `LiveDrift.LastByIs` | scripts/ops/check-live-drift.py:351 | a dictionary that is filled in order holds exactly the keys that occur, each with its last entry |
| `LiveDrift.WorkloadFindings` | scripts/ops/check-live-drift.py:412-422 | exactly the declared workloads that are missing or differ, the tracked ones that are missing, and the tracked ones that nobody declares |
| `LiveDrift.Evaluate` | scripts/ops/check-live-drift.py:348-435 | exactly which findings are in the report, with the counts and the skipped workloads |
| `LiveDrift.PassesIff` | scripts/ops/check-live-drift.py:348-435 | no unauthorized finding exactly when the root paths are known, every expected Application is there, synced and at the revision, every OutOfSync resource is covered by a rule, every declared workload is live with exactly the declared images, and every tracked workload is declared |
| `DriftFields.PassesWhen` | scripts/ops/check-live-drift.py:333-435 | by the entries of the lists: no unauthorized finding exactly when the root is known, the last Application of every expected name is synced, at the revision, with every OutOfSync resource covered and every tracked Deployment, StatefulSet, DaemonSet and CronJob declared, and the last live workload under every declared key runs exactly the declared images |
| `DriftFields.RunsImagesIff` | scripts/ops/check-live-drift.py:143-162 | the containers of a CronJob are those of its job template, of any other workload those of its template, in both lists, the last of a name counting |
| `DriftFields.SameKey` | scripts/ops/check-live-drift.py:388-411 | a tracked resource and a workload of one kind, namespace and name have one key |
| `DriftFields.QuietApp` | scripts/ops/check-live-drift.py:358-406 | when nothing at all, tolerated or not, is reported of an Application |
| `LiveDrift.EveryWorkloadIsCounted` | scripts/ops/check-live-drift.py:408-434 | every live workload is image-checked, flagged as undeclared or skipped, never two of them, and the counts add up |
| `LiveDrift.SkippedAreUnseen` | scripts/ops/check-live-drift.py:23-27 | whatever becomes of a workload that is neither declared nor tracked, the findings stay the same |
| `EvidenceBundle.NewlinesKeep` | scripts/release/evidence_bundle.py:128 | reading a text file changes it exactly when it holds a carriage return |
| `EvidenceBundle.LinesEnded` | scripts/release/evidence_bundle.py:90-91 | splitting into lines undoes ending every line with a line feed |
| `EvidenceBundle.LineRoundTrip` | scripts/release/evidence_bundle.py:38 | a line parses to a digest and a name exactly when it is their printed line |
| `EvidenceBundle.ParseSums` | scripts/release/evidence_bundle.py:127-135 | the loop over the lines: malformed lines, repeated names and SHA256SUMS itself are errors |
| `EvidenceBundle.ListedSays` | scripts/release/evidence_bundle.py:127-135 | what is listed is what the lines say, one entry a line |
| `EvidenceBundle.SameEntries` | scripts/release/evidence_bundle.py:127-135 | two accepted lists are the same map exactly when their lines say the same, in whatever order |
| `EvidenceBundle.SumsRoundTrip` | scripts/release/evidence_bundle.py:90-135 | the parser reads back exactly the entries that the printer was given |
| `EvidenceBundle.Bundle.Verify` | scripts/release/evidence_bundle.py:114-207 | accepts exactly the directories that are sealed by their SHA256SUMS and whose documents agree with each other, the expected commit and the checkout |
| `EvidenceBundle.Bundle.Agreement` | scripts/release/evidence_bundle.py:94-207 | exactly when the documents agree |
| `EvidenceBundle.Bundle.Build` | scripts/release/evidence_bundle.py:65-91 | whether it succeeds and what is in the directory afterwards, whatever was there: nothing new without a valid identity, and otherwise the files up to the first one that fails, the list last |
| `EvidenceBundle.Bundle.DigestLines` | scripts/release/evidence_bundle.py:90 | the lines hold the digests of the files as they are in the directory |
| `EvidenceFields.AgreeIff` | scripts/release/evidence_bundle.py:94-207 | the checks on the documents by file name and field: the manifest's schema, version and commit, the SBOM's, non-empty licenses, sections that are counted and rendered, as many components of each name from VERSIONS.md as in the checkout, and the three files of the checkout |
| `EvidenceFields.VersionsCounted` | scripts/release/evidence_bundle.py:202-207 | the names that are compared with VERSIONS.md: each as often as a marked component has it |
| `EvidenceFields.ComponentAdded` | scripts/release/evidence_bundle.py:202-207 | a component without the mark makes no difference; one with it keeps the agreement exactly when its name is added to the checkout too |
| `EvidenceFields.IdentityIff` | scripts/release/evidence_bundle.py:36-62 | `v`, three numbers with dots and a suffix; 40 small hexadecimal digits |
| `EvidenceFields.LineIff` | scripts/release/evidence_bundle.py:38 | a line of the list in plain characters: 64 small hexadecimal digits, two spaces, a name |
| `EvidenceFields.RequiredNames` | scripts/release/evidence_bundle.py:26-35 | the eight files that a bundle must hold |
| `EvidenceFields.NewlinesAre` | scripts/release/evidence_bundle.py:128 | how a text file is read character by character |
| `EvidenceFields.WritableIff` | scripts/release/evidence_bundle.py:79-91 | what can be written is what can be read, or is not there; then it reads as what was written |
| `EvidenceBundle.SameSumsSameFiles` | scripts/release/evidence_bundle.py:137-150 | with an injective digest two sealed directories with the same list have the same files |
| `EvidenceBundle.SealedUnder` | scripts/release/evidence_bundle.py:137-150 | under an unchanged SHA256SUMS exactly the directories with the same names and, in ordinary files, contents of the same digests are sealed |
| `EvidenceBundle.TamperingIsRejected` | scripts/release/evidence_bundle.py:137-150 | with an injective digest, whoever leaves SHA256SUMS alone cannot change, add or remove a file without being rejected against every checkout |
| `EvidenceBundle.ReplacedSums` | scripts/release/evidence_bundle.py:124-150 | replacing SHA256SUMS in an accepted bundle is accepted exactly when it lists the same entries |
| `EvidenceBundle.WrittenAt` | scripts/release/evidence_bundle.py:79-91 | under every name stands the part that was written there, through a link where there was one, or what was there before |
| `EvidenceBundle.BuiltIsListed` | scripts/release/evidence_bundle.py:90-135 | the SHA256SUMS of a build is read back as the digests of its parts |
| `EvidenceBundle.BuiltIsSealed` | scripts/release/evidence_bundle.py:65-150 | the directory in which all nine files have been written is sealed exactly when it held nothing else before and no part was a link |
| `EvidenceBundle.WrittenVerifies` | scripts/release/evidence_bundle.py:79-207 | the directory in which all nine files have been written is accepted exactly when nothing else was in it, no part was a link, and the inputs agree: among others the checked-out inventory is the generated one, its sections are non-empty and counted, and the rendering holds no carriage return |
| `EvidenceBundle.StepsToTheEnd` | scripts/release/evidence_bundle.py:79-91 | all files get written exactly when no folder and no link to one is under a name that is left, and a rendering that is left succeeds |
| `EvidenceBundle.BuildThenVerify` | scripts/release/evidence_bundle.py:65-207 | a build succeeds and leaves what is accepted exactly when the identity is valid, the assets can be rendered, every name can be written to, nothing else was in the directory, no part was a link, and the inputs agree |
| `EvidenceBundle.Bundle.BuildCommand` | scripts/release/evidence_bundle.py:227-231 | the same for the command `build`, which verifies at once what it has built, with the commit it was given |
| `EvidenceBundle.HalfBuiltIsRejected` | scripts/release/evidence_bundle.py:79-91 | where there was no list before, no stage of a build is sealed |
| `EvidenceBundle.UnfinishedIsRejected` | scripts/release/evidence_bundle.py:65-207 | what a failing build leaves is accepted exactly when it was refused for its identity before the first write and what was there before is accepted; otherwise the files it has written are there and nothing verifies, even where a complete bundle was before |
| `PinRatchet.ScanImages` | scripts/ci/check-pin-enforcement.py:182-188 | exactly the floating images that are not exempt, and exactly the repositories without a digest |
| `PinRatchet.FloatsIff` | scripts/ci/check-image-tag-immutability.py:141-159 | for every repository, tag and digest: floats exactly without a digest and without a tag or with `latest`, a branch or channel name, by itself or before a hyphen, or a snapshot |
| `PinRatchet.EvaluateImages` | scripts/ci/check-pin-enforcement.py:179-196 | exactly which findings are reported about one state |
| `PinRatchet.CheckBaseGrowth` | scripts/ci/check-pin-enforcement.py:199-206 | exactly the entries that were added and a ceiling that grew; nothing without a base |
| `PinRatchet.ConsistentIff` | scripts/ci/check-pin-enforcement.py:179-196 | nothing is found exactly when no image floats, the repositories without a digest are the baseline, and the ceiling is its size |
| `PinRatchet.OnlyShrinks` | scripts/ci/check-pin-enforcement.py:179-206 | over any history of accepted changes the repositories without a digest are the baseline, the ceiling is its size, and both only shrink |
| `PinRatchet.NeverReturns` | scripts/ci/check-pin-enforcement.py:179-206 | a repository that left the baseline never turns up without a digest again |
| `PinRatchet.ShrinksBounded` | scripts/ci/check-pin-enforcement.py:179-206 | at most as many changes shrink the baseline as it had entries |
| `ImageRefs.Rejoins` | scripts/ci/check-image-tag-immutability.py:127-138 | rejoining the parts gives the reference back, for every string |
| `ImageRefs.ParsesPrinted` | scripts/ci/check-image-tag-immutability.py:127-138 | parsing printed parts gives them back exactly when they are well formed, registry ports included |
| `ImageRefs.ParsersAgree` | scripts/release/generate_sbom.py:53-65 | `split_image` succeeds exactly when `parse_ref` finds a non-empty repository and version and the reference is no template, and returns these two |
| `SeaweedVolumes.Buckets` | scripts/ci/check-seaweedfs-volume-limits.py:144-148 | exactly the buckets that the actions name behind their first colon |
| `SeaweedVolumes.Validate` | scripts/ci/check-seaweedfs-volume-limits.py:97-170 | accepts exactly the settings with capacity for twice the data and slots for every growth from 1 to the larger of the configured and the default one, and reports the demands |
| `SeaweedVolumes.AcceptsWhen` | scripts/ci/check-seaweedfs-volume-limits.py:97-170 | by the numbers and the set of named buckets: exactly when settings are accepted with which report |
| `SeaweedVolumes.NamesIff` | scripts/ci/check-seaweedfs-volume-limits.py:146-148 | an action names what stands behind its first colon |
| `SeaweedVolumes.DemandIs` | scripts/ci/check-seaweedfs-volume-limits.py:157-160 | the demand in full; with a new backup bucket at least the backup volumes more |
| `SeaweedVolumes.BackupVolumesHold` | scripts/ci/check-seaweedfs-volume-limits.py:128-131 | the backups take the least number of volumes that holds them |
| `SeaweedVolumes.CapacityIff` | scripts/ci/check-seaweedfs-volume-limits.py:128-135 | the capacity holds twice the backups and the lake |
| `SeaweedVolumes.AllGrowths` | scripts/ci/check-seaweedfs-volume-limits.py:157-166 | the two growths that are checked stand for all between 1 and the larger of them |
| `SeaweedVolumes.LakeSlots` | scripts/ci/check-seaweedfs-volume-limits.py:158 | rounding two volumes up to growth steps gives the larger of 2 and one step |
| `SeaweedVolumes.DemandGrows` | scripts/ci/check-seaweedfs-volume-limits.py:157-160 | the demand never falls when the growth step rises |
| `SeaweedVolumes.OneMoreBucket` | scripts/ci/check-seaweedfs-volume-limits.py:157-160 | up to three other new buckets cost nothing, every further one costs exactly one growth step |
| `SeaweedVolumes.BackupsFit` | scripts/ci/check-seaweedfs-volume-limits.py:131-138 | the capacity check forces twice the backup volumes to be at most three less than the slots |
| `SeaweedVolumes.AtLeast` | scripts/ci/check-seaweedfs-volume-limits.py:131-166 | accepted settings have at least 36 slots, 43 with a new backup bucket |

## Left out

- Subprocesses, files, YAML and JSON decoding, and command lines: parsed values are the inputs. JSON, UTF-8, SHA-256 and the generators of a bundle's documents are parameters of `EvidenceBundle`; a round trip of the codecs and, where files are compared instead of digests, an injective digest are hypotheses.
- The type checks on decoded values (a list where a mapping is expected and the like) appear as absent values or as one `malformed` flag.
- Character classes beyond ASCII: `isalnum`, `isdigit`, `\w` and `lower` are modelled for ASCII.
- The regular expressions for CREATE TABLE headers, Make rules, `$(MAKE)` calls, `echo` texts and comments: their results are parts of the input lines.
- `tests/run-all.sh` as a further recipe text: its text is not part of this model.
- Messages, tables and the order of findings: findings are data, and the order in which a set is walked is left open.
- `CertificateInventory.Inventory` tells whether there are errors, not which; the issuer of a certificate is a triple instead of a text joined with slashes; consumers are counted only as far as acceptance asks for them.
- Floating point and `Decimal` precision: amounts are reals, and rounding to even is exact.
- Gaps, partial limits and percentages of the sizing report, and how a quantity is parsed.
- `EvidenceBundle.Bundle.Build`: links that share a target with each other or with a file of the bundle; a write that fails for another reason than a folder in the way; the license inventory and the SBOM that the generators produce are inputs.
- `ReviewPass.PlanStatus`: the texts of the refusals.
- `ReviewPass.OnlyReviewedIsMerged`: assumes that only runs of the script post the status, as any account with write access could, and follows a single pull request, although a status belongs to a commit and counts for every pull request with that head.
- `Sizing.CollectRender`: the order of the records, which the script sorts by namespace, kind and name; sums and violations do not depend on it.
- `LiveDrift.Evaluate`: fetching, the choice of the Git revision and the rendering of the declared state; whether the root paths are known is an input.
- `SeaweedVolumes.Validate`: finding the StatefulSet, its flags and its environment, the PVC size, which is only reported, and the texts of the errors.
- The other gates (APISIX, Kafka and SSO contracts, Trivy and endpoint ratchets, licenses, QA reports): they have the shape of the gates modelled here, with less logic.
- The policy compiler and the web application of the repository.
