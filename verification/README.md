# Latchway release tooling: a verified model

This project models, in Dafny, the scripts that guard a Latchway release, and proves what they promise:

- **Release controls** (`Release*.dfy`, `Pagination.dfy`): the reconciler that inspects repositories, rulesets and
  deployment environments on GitHub, plans additive repairs and withdrawals of the sealing sentinel, and applies them one
  request at a time. `ReleaseState` is the live configuration and what each request does to it, `ReleaseInspect` the
  inspection and its plan, `ReleaseApply` the inspection loops, the journal and `apply` as they run. The other `Release*`
  modules prove what holds along every run, and what the verdicts mean. `Pagination` is the paged reader of the API.
- **Archives** (`Ustar.dfy`, `TarArchive.dfy`, `DocsBundle.dfy`, `Capture.dfy`): the ustar header byte by byte, whole
  archives, the strict acceptor for SDK documentation bundles, and sealing and extracting a deployment capture.
- **Conformance evaluation** (`Json.dfy`, `Schema.dfy`, `SchemaSound.dfy`, `SchemaStandard.dfy`, `SchemaDiffers.dfy`,
  `Staged.dfy`, `StagedReport.dfy`): the JSON Schema evaluator with its references, where it agrees with JSON Schema and
  where it does not, and the staged evaluator that writes the conformance report.
- **Fault runs** (`FaultModel.dfy`, `FaultController.dfy`): the controller that kills, drains and cuts off containers of a
  disposable topology, against a world that may change between any two commands.
- **Trees and evidence** (`Rendering.dfy`, `GeneratedTree.dfy`, `Aggregate.dfy`, `Conformance.dfy`, `Versions.dfy`): the
  paths of generated documentation and writing it into a managed file tree, merging evidence trees, framework conformance
  reports, and version order.

`Lex.dfy` (orderings and lexicographic comparison) and `Options.dfy` are shared. `dafny verify dfyconfig.toml` checks
everything.

Code that updates state is modelled by methods and classes whose contracts tie the new state to a function of the old one;
the theorems are lemmas about those functions. Everything outside a script's control is a parameter that the theorems
quantify over: what the server answers and which requests are lost, what happens to containers between two Docker commands,
which checks hold in the checked-out repositories, what the driver prints, gzip, digests and regular expressions.

Where the code does not do what its setting suggests, the model follows the code, and the exact condition is proved:

- One apply is not always enough: a sentinel is withheld for a whole round while its environment is being completed
  (`ReleaseConvergence.OneApplyEnough`; a state that needs two is `ReleaseConvergence.OneApplyNotEnough`).
- The evaluator is not JSON Schema's. In values: `const` and `enum` use Python's equality, in which `true == 1`;
  `uniqueItems` compares texts, in which `1` and `1.0` differ; `type: integer` does not take `1.0`
  (`Json.ConfusionExact`, `Json.SpelledExact`, `SchemaDiffers.IntegerExact`). In schemas: a boolean under `items`,
  `propertyNames` or `if` is passed over, so is an upper bound spelled as a float, and a reference is not percent-decoded;
  otherwise a schema is read as JSON Schema reads it (`SchemaStandard.ReadingExact`). On schemas clear of the second kind
  and values clear of the first, the verdict is that of JSON Schema (`SchemaStandard.DecidesStandard`). For schemas of one
  keyword the agreement is an exact condition (`SchemaDiffers.ConstantValueExact` and its neighbours); `{"items": false}`
  accepts `["x"]` (`SchemaDiffers.ItemsFalse`), and `{"const": 1}`, which the schema of the release evidence has, accepts
  `true` (`SchemaDiffers.ConstantTrue`).
- A disconnect that Docker carried out but reported as failed is not followed by a reconnect, and the database stays off
  the network (`FaultController.UnacknowledgedCut`).
- Nor is an acknowledged disconnect if one command of the ownership check before the reconnect fails, although the
  container is still the recorded one (`FaultController.UncheckedCut`). With nothing else acting there is a reconnect
  exactly when the four commands of that check are answered, and the commands whose answers decide whether the database is
  left on the network are known before (`FaultController.Controller.CutAndRestore`).
- Two documents of a bundle can render to one path, such as the snippet of `x` and the raw file of `x.mdx`, and one of the
  files is lost. When none is lost is an exact condition (`Rendering.RenderedExact`).
- A cleanup succeeds although containers are left, exactly those whose existence probe answered no because it failed
  (`FaultController.Controller.Cleanup`); if Docker answers nothing, that is all of them (`FaultController.SilentCleanup`).
- An input file named like the aggregate manifest is overwritten, and the manifest then describes another file
  (`Aggregate.ManifestDescribes`).
- A common case of a claimed capability is sure to be passed if and only if it is a canonical case and the manifest has a
  common suite, which manifests of schema version 1 have not (`Conformance.ClaimedCasesPass`).
- A version key identifies its text, among conforming versions, if and only if no prerelease identifier is numeric, because
  leading zeros are not forbidden there (`Versions.KeyIdentifies`).

## Model

| member | source | states |
|---|---|---|
| `ReleaseSafety.SealSafety` | scripts/github-release-controls.py:2166-2797 | along every run of an apply plan, between any two of its prefixes, no selected environment becomes sealed while blocked |
| `ReleaseSafety.SealedIsExactAfterApply` | scripts/github-release-controls.py:3515-3535 | after all planned requests, every selected environment whose sentinel accepts equals its desired projection and nothing blocks it |
| `ReleaseSafety.SealedBlockedFromStart` | scripts/github-release-controls.py:2676-2797 | an environment sealed and blocked after some requests was so before the first one |
| `ReleaseSafety.UntouchedWhileSealedBlocked` | scripts/github-release-controls.py:2761-2786 | and it has received no request yet |
| `ReleaseSafety.QuarantineKeepsScene` | scripts/github-release-controls.py:3515-3535 | while drift is destructive only quarantine requests are sent, so what blocks a repository stays the same at every prefix |
| `ReleaseConvergence.Additive` | scripts/github-release-controls.py:1532-1586 | between any two prefixes of a plan no environment loses a reviewer, branch policy, variable or secret, nor changes a variable other than its sentinel; no ruleset loses a rule, counted with multiplicity, or changes its target, bypass actors or conditions; administrator bypass, wait timers, branch modes and everything outside rulesets and environments stay. The self-review flag may be set or cleared, the value of the sentinel changed, and enforcement switched on |
| `ReleaseConvergence.Converges` | scripts/github-release-controls.py:3478-3586 | without destructive drift and with every environment provisioned, two applies reach a state where every check passes and nothing is planned, which a further apply leaves unchanged |
| `ReleaseConvergence.OneApplyEnough` | scripts/github-release-controls.py:2676-2797 | one apply is enough if and only if nothing blocked a selected environment before it |
| `ReleaseConvergence.OneApplyNotEnough` | scripts/github-release-controls.py:2676-2797 | a state without destructive drift from which one apply does not pass: the branch policy is added and the sentinel withheld |
| `ReleaseConvergence.PlanTarget` | scripts/github-release-controls.py:1815-2799 | every planned request is addressed to a selected repository's rulesets or to one of its manifest environments |
| `ReleaseMeaning.PassedMeansExact` | scripts/github-release-controls.py:3551-3555 | every check passes if and only if everything selected equals the desired state: the projection of every environment and its accepting sentinel, one observable ruleset of each name equal to the desired one up to rule order, default branch, no fallback variable or secret, observed contexts, and an independent reviewer; then the plan is empty and nothing is destructive |
| `ReleaseMeaning.ExactIsDesired` | scripts/github-release-controls.py:1419-1599 | a ruleset is classified as exact if and only if exactly one ruleset bears its name, can be observed and equals it up to rule order |
| `ReleaseMeaning.FactsAsDesired` | scripts/github-release-controls.py:1826-2133 | the repository comparisons hold if and only if no desired name is provided by the repository or by the organization, and branch and contexts are as desired |
| `ReleaseRepair.DestructiveMeans` | scripts/github-release-controls.py:1602-2799 | the destructive flag is raised if and only if no state reached by adding reviewers, branch policies, variables, secrets, rules, rulesets and environments, which leaves the self-review flag and the sentinel's value free and may switch enforcement on, equals the desired state, or a selected environment accepts releases while it, its repository or its organization is not as desired |
| `ReleaseRepair.SealedBlockedMeans` | scripts/github-release-controls.py:2676-2797 | the seal of an accepting environment is blocked if and only if its projection, its repository, its rulesets or its organization is not as desired; an environment without reviewers needs no independent one |
| `ReleaseRepair.RepairableIsDriftFree` | scripts/github-release-controls.py:2261-2675 | whatever can be repaired by adding, and accepts no release where it is not as desired, has no destructive drift |
| `ReleaseRepair.DriftFreeIsRepairable` | scripts/github-release-controls.py:2261-2675 | without destructive drift, adding reaches the desired state |
| `ReleaseExactness.PassedMeansClear` | scripts/github-release-controls.py:3551-3555 | every check passes if and only if no comparison objects |
| `ReleaseExactness.OrganizationMeans` | scripts/github-release-controls.py:1791-1813 | the organization checks pass exactly when no policy variable shadows the sentinels and a reviewer is independent |
| `ReleaseExactness.PoliciesPassed` | scripts/github-release-controls.py:1683-1704 | the policy variable checks pass exactly when no broader variable of that name exists |
| `ReleaseEnvironments.PassedIsSealedExact` | scripts/github-release-controls.py:2166-2797 | an environment's checks pass exactly when its sentinel accepts and nothing blocks it; then it has no plan and no destructive drift |
| `ReleaseEnvironments.UnblockedIsExact` | scripts/github-release-controls.py:2261-2675 | nothing blocks an environment exactly when its projection is the desired one and nothing in its repository blocks it |
| `ReleaseEnvironments.PlanReconciles` | scripts/github-release-controls.py:2353-2518 | running an environment's plan gives exactly the reconciled environment |
| `ReleaseRulesets.RulesetsInspection` | scripts/github-release-controls.py:1419-1599 | ruleset checks pass exactly when every ruleset is classified as exact, which `ReleaseMeaning.ExactIsDesired` spells out, and are destructive exactly when one cannot be managed |
| `ReleaseRulesets.DoneExact` | scripts/github-release-controls.py:1532-1586 | once every planned ruleset request is done, every manageable desired ruleset is exact |
| `ReleaseAcceptance.PlanAccepted` | scripts/github-release-controls.py:3405-3422 | at its turn, every planned request is one the server accepts: nothing is created twice or updated while absent |
| `ReleaseApply.ScanPolicies` | scripts/github-release-controls.py:1683-1704 | the loop reports drift exactly for the policy variables present |
| `ReleaseApply.ScanRulesets` | scripts/github-release-controls.py:1419-1599 | the loop's checks, requests, flag and blockers are the ruleset inspection |
| `ReleaseApply.ScanProtection` | scripts/github-release-controls.py:2261-2535 | protection checks, requests, flag and blockers of one environment |
| `ReleaseApply.ScanInventory` | scripts/github-release-controls.py:2536-2675 | variable and secret checks, flag and blockers of one environment |
| `ReleaseApply.ScanSentinel` | scripts/github-release-controls.py:2676-2797 | the sentinel is posted, updated, withdrawn or left alone according to the blockers collected |
| `ReleaseApply.ScanEnvironment` | scripts/github-release-controls.py:2166-2797 | the inspection of one environment, absent or present |
| `ReleaseApply.ScanReviewers` | scripts/github-release-controls.py:1765-1790 | some reviewer is not the authenticated actor alone |
| `ReleaseApply.ScanNames` | scripts/github-release-controls.py:1869-1990 | the loop over the environments collects the sentinel, variable and secret names to audit |
| `ReleaseApply.ScanFallbacks` | scripts/github-release-controls.py:1910-1926 | the loop finds exactly the names whose organization scope covers the repository |
| `ReleaseApply.ScanFacts` | scripts/github-release-controls.py:1826-2133 | the loops and set operations give the seven comparisons of a repository |
| `ReleaseApply.ScanBlockers` | scripts/github-release-controls.py:1826-2133 | findings and blockers are collected step by step in the order of the comparisons |
| `ReleaseApply.ScanRepository` | scripts/github-release-controls.py:1815-2165 | the inspection of one repository, its blockers passed on to its environments and deciding whether a sentinel is shadowed |
| `ReleaseApply.ScanGitHub` | scripts/github-release-controls.py:1602-2799 | the whole inspection, an error exactly when a selected repository cannot be read |
| `ReleaseApply.GitHub.Send` | scripts/github-release-controls.py:1135-1178 | a request takes effect if it arrives and is accepted, and succeeds only if that is also acknowledged |
| `ReleaseApply.ExecuteMutations` | scripts/github-release-controls.py:3405-3422 | however it ends, applied and pending together are the plan and the live state is the run of a prefix of it |
| `ReleaseApply.Apply` | scripts/github-release-controls.py:3478-3586 | the live state ends as the run of a prefix of the plan, the whole plan unless the status is an error, and the status says whether all checks pass |
| `Pagination.ParseNextLink` | scripts/github-release-controls.py:1083-1119 | the only next link if it is on the API origin, none if there is none, otherwise the error |
| `Pagination.ReadPage` | scripts/github-release-controls.py:1183-1226 | one page and the next URL; an error means that the server offers no acceptable page here |
| `Pagination.Advance` | scripts/github-release-controls.py:1183-1226 | a page extends the walk, or no complete walk exists |
| `Pagination.Collection` | scripts/github-release-controls.py:1183-1226 | at most 100 requests to distinct URLs, later ones on the API origin; it succeeds exactly when a complete walk exists and returns its items in order |
| `Ustar.HeaderParses` | scripts/docs_sdk_bundle.py:361-387 | reading the canonical header gives back the name, size and time it was written for |
| `Ustar.UstarFaithful` | scripts/docs_sdk_bundle.py:361-387 | the concrete header format fills one block, and reading undoes writing |
| `TarArchive.WalkArchive` | scripts/docs_sdk_bundle.py:347-354 | walking a written archive yields one member per entry, in order, at its offset |
| `TarArchive.EntriesBack` | scripts/docs_sdk_bundle.py:403-415 | the members of a written archive carry the entries that were written |
| `TarArchive.CanonicalSizeLeast` | scripts/docs_sdk_bundle.py:423-430 | the canonical length is the least multiple of 10240 that leaves two zero blocks |
| `DocsBundle.NameFromRelative` | scripts/docs_sdk_bundle.py:301-313 | a member name is the bundle root and its relative path |
| `DocsBundle.CheckMember` | scripts/docs_sdk_bundle.py:355-413 | the checks on one member: name, canonical header, size, zero padding |
| `DocsBundle.ArchiveMembers` | scripts/docs_sdk_bundle.py:342-431 | it accepts exactly the payloads that meet the acceptor's conditions and returns their files |
| `DocsBundle.AcceptedIsArchive` | scripts/docs_sdk_bundle.py:342-431 | an accepted payload is, byte for byte, the canonical archive of its entries, which form a valid bundle |
| `DocsBundle.ArchiveIsAccepted` | scripts/docs_sdk_bundle.py:342-431 | the canonical archive of a valid bundle within the size limit is accepted |
| `DocsBundle.AcceptedIffArchive` | scripts/docs_sdk_bundle.py:342-431 | the acceptor accepts exactly the canonical archives of valid bundles |
| `DocsBundle.ArchiveFiles` | scripts/docs_sdk_bundle.py:342-431 | reading the canonical archive of a valid bundle gives back its files |
| `DocsBundle.AcceptedUnique` | scripts/docs_sdk_bundle.py:342-431 | two accepted payloads of one bundle with the same file map are equal byte for byte |
| `DocsBundle.AcceptedLength` | scripts/docs_sdk_bundle.py:423-430 | an accepted payload has the least admissible length |
| `Capture.SealCapture` | scripts/deployment-evidence.py:3022-3047 | sealing succeeds exactly for a valid, readable, complete directory and writes the compressed canonical archive of its eight files |
| `Capture.ExtractCapture` | scripts/deployment-evidence.py:3050-3089 | extraction succeeds exactly when every check passes, and yields the members' contents by name |
| `Capture.SealedNamesSorted` | scripts/deployment-evidence.py:47-55 | the eight capture names are written in strictly increasing order |
| `Capture.ExtractableIff` | scripts/deployment-evidence.py:3050-3089 | on an archive of plain files only the size limits can reject |
| `Capture.SealThenExtract` | scripts/deployment-evidence.py:3022-3089 | a sealed capture always passes extraction and comes back unchanged |
| `Capture.SealedInjective` | scripts/deployment-evidence.py:3022-3047 | a sealed archive determines the directory it was made from |
| `Json.ReferenceRoundTrip` | scripts/cross-repo-conformance.py:1872-1883 | the escaped reference of any member path resolves to what the path leads to |
| `Json.DecodeEscape` | scripts/cross-repo-conformance.py:1876-1877 | decoding undoes escaping, in the order the code decodes |
| `Json.ConstantsExact` | scripts/cross-repo-conformance.py:1954-1957 | Python's equality is JSON's against a constant exactly when the constant holds no boolean and no 0 or 1 |
| `Json.TrueIsOne` | scripts/cross-repo-conformance.py:1954-1957 | the two equalities differ on true and 1 |
| `Json.UniqueExact` | scripts/cross-repo-conformance.py:2000-2006 | text equality is JSON's against an element exactly when it holds no integral number |
| `Json.OneIsOnePointZero` | scripts/cross-repo-conformance.py:2000-2006 | the two equalities differ on 1 and 1.0 |
| `SchemaSound.EvaluatorCorrect` | scripts/cross-repo-conformance.py:1914-2036 | with the keywords as the code reads them and acyclic in-place references, the evaluator ends, does not raise on a proper document, and finds no error exactly when the value is valid by the rules in force, at any location |
| `SchemaSound.KeywordsMean` | scripts/cross-repo-conformance.py:1914-2036 | no error means that every keyword holds, in spite of the early return on a wrong type |
| `SchemaSound.OneOfSound` | scripts/cross-repo-conformance.py:1935-1941 | counting passing alternatives finds the only valid one |
| `SchemaSound.ConditionSound` | scripts/cross-repo-conformance.py:1942-1947 | the branch taken is the one validity selects |
| `SchemaSound.ObjectSound` | scripts/cross-repo-conformance.py:1959-1992 | required members, properties, additional properties, counts and names |
| `SchemaSound.ArraySound` | scripts/cross-repo-conformance.py:1994-2014 | lengths, distinct elements and element schemas |
| `SchemaSound.Relocates` | scripts/cross-repo-conformance.py:1914-1920 | the report about a nested value is the report about it alone, moved to its location |
| `SchemaSound.ValidityExists` | scripts/cross-repo-conformance.py:1914-2036 | the keyword equations have a solution |
| `SchemaSound.ValidityUnique` | scripts/cross-repo-conformance.py:1914-2036 | and only one |
| `SchemaSound.RankIndependent` | scripts/cross-repo-conformance.py:1914-2036 | the verdict depends neither on the rank that shows acyclicity nor on the other schemas in use |
| `SchemaStandard.StratifiedIsAcyclic` | scripts/cross-repo-conformance.py:1872-1883 | a document in which no definition leads to itself has acyclic references, by a rank of its height and size |
| `SchemaStandard.ReferenceFreeIsStratified` | scripts/cross-repo-conformance.py:1914-1926 | so has every document without references |
| `SchemaStandard.StratifiedDecided` | scripts/cross-repo-conformance.py:1914-2036 | on such a document with readable schemas the evaluator ends without raising and decides validity, which exists |
| `SchemaStandard.InPlaceInside` | scripts/cross-repo-conformance.py:1921-1947 | every schema applied to the same value is inside the schema that applies it, or what its reference names |
| `Json.ConfusionExact` | scripts/cross-repo-conformance.py:1954-1957 | two values equal in Python are equal in JSON exactly if nowhere one holds a boolean where the other holds the number it equals |
| `Json.SpelledExact` | scripts/cross-repo-conformance.py:2000-2006 | values without integers spelled as floats are equal in JSON exactly if their texts are |
| `SchemaStandard.ReadingExact` | scripts/cross-repo-conformance.py:1872-2036 | a readable schema is read as JSON Schema reads it if and only if no boolean is under `if`, `items` or `propertyNames`, upper bounds are spelled as integers, and percent-decoding leaves the reference alone |
| `SchemaStandard.DecidesStandard` | scripts/cross-repo-conformance.py:1914-2036 | the evaluator decides JSON Schema's validity on every document of schemas it reads as JSON Schema does, of every value that is nowhere confused with a constant, holds no integral float where elements must differ, and meets `type: integer` with none |
| `SchemaDiffers.ConstantValueExact` | scripts/cross-repo-conformance.py:1954-1955 | for `{"const": c}` the verdicts agree on a value if and only if it is not equal to `c` in Python, or nowhere a boolean for a number |
| `SchemaDiffers.ConstantSchemaExact` | scripts/cross-repo-conformance.py:1954-1955 | they agree on all values if and only if `c` holds no boolean, 0 or 1 |
| `SchemaDiffers.ItemsSchemaExact` | scripts/cross-repo-conformance.py:2007-2013 | for `{"items": b}` the verdicts agree on all values if and only if `b` is `true` |
| `SchemaDiffers.NamesSchemaExact` | scripts/cross-repo-conformance.py:1985-1991 | so for `{"propertyNames": b}` |
| `SchemaDiffers.LimitSchemaExact` | scripts/cross-repo-conformance.py:1997-1998 | for `{"maxItems": n}` the verdicts agree on all values if and only if `n` is spelled as an integer |
| `SchemaDiffers.IntegerExact` | scripts/cross-repo-conformance.py:1893-1894 | `type: integer` differs from JSON Schema exactly on floats with an integral value |
| `SchemaDiffers.ItemsFalse` | scripts/cross-repo-conformance.py:2007-2008 | a document with `{"items": false}`, on which the evaluator accepts `["x"]` and JSON Schema does not |
| `SchemaDiffers.ConstantTrue` | scripts/cross-repo-conformance.py:1954-1955 | a document with `{"const": 1}`, on which the evaluator accepts `true` and JSON Schema does not |
| `Staged.RunConsistent` | scripts/cross-repo-conformance.py:346-388 | at every point of every evaluation a key is present exactly when the single check that writes it passed, a passed check found all it reads, and times are bounded |
| `Staged.WriterUnique` | scripts/cross-repo-conformance.py:441-442 | every key has exactly one writer |
| `Staged.PrerequisiteClosure` | scripts/cross-repo-conformance.py:1298-1317 | a passed external domain rests on promotion preconditions, versions, locks, bundle, core contract and layout having passed |
| `Staged.WindowRests` | scripts/cross-repo-conformance.py:1332-1342 | a passed window rests on every evidence domain its scope requires |
| `Staged.WindowFits` | scripts/cross-repo-conformance.py:1343-1352 | accepted intervals span at most seven days |
| `Staged.WindowNeverTooWide` | scripts/cross-repo-conformance.py:1350-1352 | no run contains the failure of a window that is too wide |
| `StagedReport.VerdictLattice` | scripts/cross-repo-conformance.py:305-335 | release readiness implies promotion readiness implies source conformance, and the verdict is the readiness flag of the scope |
| `StagedReport.VerdictIsSummary` | scripts/cross-repo-conformance.py:1406-1438 | the verdict is passed exactly when every required entry of the folded summary is |
| `StagedReport.EntryMeans` | scripts/cross-repo-conformance.py:1416-1426 | a domain's entry is required exactly if its scope requires it, and passed exactly if all its checks are |
| `StagedReport.Evaluator.Operate` | scripts/cross-repo-conformance.py:1361-1364 | a check that misses a prerequisite or fails writes nothing; one that passes writes exactly its keys |
| `StagedReport.Evaluator.Run` | scripts/cross-repo-conformance.py:346-388 | the check's outcome is appended and its effect kept |
| `StagedReport.Evaluator.VerifyExternal` | scripts/cross-repo-conformance.py:1277-1317 | missing evidence leaves the domain unverified, and an evidence root that is not a real directory ends the evaluation |
| `StagedReport.Evaluator.Evaluate` | scripts/cross-repo-conformance.py:232-344 | the report describes the whole program of checks, and there is none exactly when the evidence root is invalid where needed |
| `StagedReport.Evaluator.Summarize` | scripts/cross-repo-conformance.py:1406-1438 | the loop builds the folded summary in domain order |
| `FaultModel.DecodePhase` | scripts/fault-controller.py:620-668 | a document is accepted exactly when its identity and marker fit and, for verification, its assertions are the required ones, each once and passed |
| `FaultController.Controller.RequireOwned` | scripts/fault-controller.py:817-830 | success means that the last four commands read the recorded identity and labels; failure leaves the reading that differs; with nothing else acting, a container that stands is verified exactly if four commands are answered, and the check ends with the first that is not |
| `FaultController.Controller.ValidateTopology` | scripts/fault-controller.py:728-815 | every container is recorded, and with nothing else acting all are up and attached only to the run network |
| `FaultController.Controller.RunPhase` | scripts/fault-controller.py:844-859 | the driver is executed right after its ownership check, and only an acceptable document is returned |
| `FaultController.Controller.WaitStopped` | scripts/fault-controller.py:861-870 | polling ends, with the container observed stopped or an error |
| `FaultController.Controller.KillScenario` | scripts/fault-controller.py:880-896 | the history stays safe, and a success restores the topology |
| `FaultController.Controller.DrainScenario` | scripts/fault-controller.py:919-938 | the history stays safe, and a success restores the topology |
| `FaultController.Controller.CutAndRestore` | scripts/fault-controller.py:897-914 | the database is reconnected, at the recorded address, exactly when the disconnect was acknowledged and the container verified again. With nothing else acting, there is an acknowledged disconnect exactly if the first five commands are answered, and a reconnect exactly if also the four from a command number fixed by the earlier answers; the database is left on the network exactly if it was not cut off, or a reconnect took effect, which is said in terms of the commands that fail or are lost |
| `FaultController.UnacknowledgedCut` | scripts/fault-controller.py:897-914 | a world and an order of answers in which a disconnect takes effect, is reported as failed, and leaves the database off the network without a reconnect |
| `FaultController.UncheckedCut` | scripts/fault-controller.py:897-914 | the same after an acknowledged disconnect, when the first command of the check before the reconnect is the only one that fails and the container is still the recorded one |
| `FaultController.UncutHistory` | scripts/fault-controller.py:898-909 | a disconnect that is not issued or reported as failed leaves a history without a reconnect |
| `FaultController.Controller.PartitionScenario` | scripts/fault-controller.py:897-918 | the history stays safe, a success restores the topology, and with nothing else acting each acknowledged disconnect is followed by a reconnect or a failed command of the check before it |
| `FaultController.Controller.RunScenario` | scripts/fault-controller.py:872-962 | a capture carries exactly its scenario's assertions, and the topology holds again |
| `FaultController.Controller.RunScenarios` | scripts/fault-controller.py:1012-1019 | one capture per scenario in order, the topology holding across the whole sequence |
| `FaultController.Controller.Perform` | scripts/fault-controller.py:1010-1019 | from validation to the last scenario: with nothing else acting, the topology that was validated is the one left, and all six captures are complete |
| `FaultController.Controller.Cleanup` | scripts/fault-controller.py:964-1008 | only containers verified during cleanup are removed, and the network only right after its label and identity were read back; after a success with nothing else acting, a container of the plan is left exactly if its existence probe answered no although it was there, hence none if no probe failed |
| `FaultController.SilentCleanup` | scripts/fault-controller.py:255-261 | a cleanup to which Docker answers nothing succeeds and leaves every container |
| `FaultController.Controller.Run` | scripts/fault-controller.py:1010-1031 | captures come back only if all six scenarios and the cleanup succeeded, and a container that is then left was reported missing; removals follow the cleanup's rules; in every run each kill, start, disconnect, connect and exec directly follows an ownership check, and each acknowledged disconnect is followed by a reconnect to the recorded address or by a reading that does not show the recorded container; with nothing else acting, that reading is a command that failed |
| `GeneratedTree.Tree.ValidateDestination` | scripts/docs_sdk_bundle.py:215-241 | safe exactly when every existing parent is a directory and the file, if there, is regular |
| `GeneratedTree.Tree.AtomicWrite` | scripts/docs_sdk_bundle.py:244-267 | a safe destination is written with the directories above it, and nothing else changes |
| `GeneratedTree.Tree.ListManaged` | scripts/docs_sdk_bundle.py:984-998 | the managed regular files, unless a root or a link makes the tree unsafe |
| `GeneratedTree.Tree.CheckGenerated` | scripts/docs_sdk_bundle.py:1001-1011 | it succeeds exactly when paths and bytes are the expected ones |
| `GeneratedTree.Tree.PruneRoot` | scripts/docs_sdk_bundle.py:1021-1027 | empty directories below a root are removed children first, so none is left |
| `GeneratedTree.Tree.WriteGenerated` | scripts/docs_sdk_bundle.py:1014-1027 | it succeeds exactly when the managed part can be listed and every expected file has a place of its own; the check then succeeds and unmanaged files keep their contents; a failed write may leave expected files and directories for them, and removes nothing; a tree that agrees and has no empty directory is left untouched, so a second write changes nothing |
| `Rendering.RenderOutputs` | scripts/docs_sdk_bundle.py:880-967 | every rendered file has its own contents at its own path if and only if no document clashes with another |
| `Rendering.RenderedExact` | scripts/docs_sdk_bundle.py:886-916 | files with one path have one text if and only if no document of a bundle is named like another with `.mdx` added, or like a Markdown one with `.txt` added and a different raw file |
| `Rendering.Render` | scripts/docs_sdk_bundle.py:880-967 | exactly the paths of the files are written, and all are kept exactly if files with one path have one text |
| `Rendering.PlainSuffixesSuffice` | scripts/docs_sdk_bundle.py:51-157 | documents of which none ends in `.mdx` or `.txt`, as all listed ones, never clash |
| `Rendering.ClashingDocuments` | scripts/docs_sdk_bundle.py:891-901 | a bundle whose documents clash |
| `Rendering.RenderedIsManaged` | scripts/docs_sdk_bundle.py:169-175 | the managed roots are not inside one another, and every rendered file lies below one of them or is one of the two single files |
| `Aggregate.Workspace.Place` | scripts/aggregate-release-evidence.py:196-213 | one file is placed exactly when it fits all files before it and the total stays within the limit |
| `Aggregate.Workspace.Merge` | scripts/aggregate-release-evidence.py:163-233 | it succeeds exactly when the trees can be merged, the output is then the union with the manifest, and otherwise nothing is left behind |
| `Aggregate.UnionHolds` | scripts/aggregate-release-evidence.py:195-213 | the union holds exactly the paths of all trees, each with the data of one of them |
| `Aggregate.UnionDigest` | scripts/aggregate-release-evidence.py:204-207 | every input file has the digest of the merged file at its path |
| `Aggregate.OrderIndependent` | scripts/aggregate-release-evidence.py:194-213 | neither success nor, with digests that identify contents, the output depends on the order of the domains |
| `Aggregate.ManifestDescribes` | scripts/aggregate-release-evidence.py:214-229 | the manifest describes the output exactly when no input has the manifest's name, up to a file with the manifest's own digest |
| `Aggregate.ManifestOverwrites` | scripts/aggregate-release-evidence.py:226-229 | an input file under the manifest's name is listed with its digest, but the output holds the manifest there |
| `Conformance.LoadManifest` | scripts/framework_conformance.py:75-130 | a suite of distinct cases whose policies concern its own cases, exactly for well-formed manifests |
| `Conformance.CheckItem` | scripts/framework_conformance.py:213-375 | an integration passes exactly when it meets the acceptance conditions |
| `Conformance.ValidateReport` | scripts/framework_conformance.py:185-376 | a report passes exactly when its integrations are distinct, registered for its repository and accepted |
| `Conformance.Partition` | scripts/framework_conformance.py:247-339 | every canonical case is in exactly one of pass, not applicable and pending, once |
| `Conformance.ClaimedCasesPass` | scripts/framework_conformance.py:340-350 | every accepted supported integration that claims a capability passes its common case if and only if the case is canonical and the manifest has a common suite |
| `Conformance.ClaimWithoutCase` | scripts/framework_conformance.py:340-350 | a claim can be accepted without its common case when the manifest does not list the case |
| `Conformance.ClaimWithoutSuite` | scripts/framework_conformance.py:81-83 | and when the manifest has no common suite: the case may then be excused |
| `Conformance.ForbiddenIsPassed` | scripts/framework_conformance.py:294-303 | a common case that may not be excused is passed, or pending if not supported |
| `Conformance.CheckAll` | scripts/framework_conformance.py:454-481 | success means one accepted report per repository covering its integrations; with aggregate, exactly one entry of one report per registered integration |
| `Versions.KeyIsPrecedence` | scripts/framework_compatibility.py:118-128 | comparing keys is precedence as section 11 of Semantic Versioning 2.0.0 defines it, missing numbers counting as zero |
| `Versions.KeyIdentifies` | scripts/framework_compatibility.py:56-59 | among conforming versions a key identifies its text if and only if no prerelease identifier is numeric |
| `Versions.ZeroedCollides` | scripts/framework_compatibility.py:124-127 | a zero in front of a numeric prerelease identifier gives another conforming version with the same key |
| `Versions.KeyOrder` | scripts/framework_compatibility.py:118-128 | the key order is a total preorder |
| `Versions.RangeAccepted` | scripts/framework_compatibility.py:200-205 | a tested range is accepted exactly when its latest version does not precede its minimum |
| `Versions.Refines` | scripts/cross-repo-conformance.py:1760-1764 | the key order refines the coarse order of numbers and stability |
| `Versions.LeadingZero` | scripts/framework_compatibility.py:124-127 | a zero in front of any numeric identifier gives another text for the same identifier |

## Left out

- npm trusted publishers: inspecting them repeats the GitHub pattern in a simpler form.
- Finding codes, summaries and details, and the final sorting of checks: a finding is its repository, control, name and status.
- Ruleset blocker names: all causes that make a ruleset inexact are one blocker; the cases of the classification are kept.
- Rule normalisation (`normalize_rules`): a rule is its canonical form.
- Malformed API responses in the inspection: they count as a repository or a read that is not reachable.
- The manifest's static text checks, and the plan-only and offline modes of the release controls.
- Extended tar headers (pax, GNU long names, sparse files) and the signed checksum variant: the walk takes every header as one member.
- `Ustar.ReadNumber`: signs, underscores, an octal prefix and base-256 numbers, which tarfile also reads, make a number field unreadable here.
- `Capture.ExtractCapture`: names are compared as bytes; a name that is not UTF-8 would be compared by its escaped text.
- gzip framing: compression is a pair of functions of which only the round trip is used; the fixed gzip header of bundles is not modelled, the size rules on the decompressed payload are.
- Keywords the evaluator does not look at: a schema that uses them means more to JSON Schema than to the evaluator.
- `Schema.Read`: a keyword whose value has a shape the keyword does not admit makes the evaluation raise at once, where Python may fail later or not at all; NaN, infinite numbers and negative zero are not modelled.
- `SchemaStandard.DecidesStandard`: `format` is asserted, and regular expressions have one dialect, on both sides.
- The contents that the checks of the staged evaluator verify: each check is what it reads, what it writes, its time conditions and one further condition that may hold or not.
- `Staged.RunConsistent`: failure reasons other than the window that is too wide are one cause.
- Deadlines and timeouts of fault runs: whether a deadline has passed, and how often a stop is polled, are parameters.
- `FaultController.Controller.ValidateTopology`: image digests, port bindings, isolation and address ranges are one further condition that may hold or not.
- Writing phase artifacts to disk and emitting the final fault evidence.
- `GeneratedTree.Tree.ListManaged`: a link above a managed root is not followed.
- `GeneratedTree.Tree.PruneRoot`: a removal the operating system refuses for another reason than a non-empty directory is not modelled.
- The text of generated pages: a rendered file is its path and its text, of which only the first character is looked at.
- Validation of each domain's evidence document before merging: one condition.
- Evidence references in framework reports, and reading the registry's YAML subset.
- Field-by-field checks of cloud platforms, load diagnostics, release profiles and operational drills.
- The Go server and its packages.
