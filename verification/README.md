# goldfive: verified models

goldfive watches an LLM agent at work. It keeps a plan of tasks for the run, revises that plan when
it sees drift, prunes the agent's transcript, queues notes for the agent, and compares the decisions
of two supervision regimes. This project models the parts of it where a small slip does lasting
damage, and proves what they guarantee.

- **Plans** (`Plans`, `Validator`, `Revisions`, `Steer`, `Install`, `Previews`, `Runs`, `Validity`,
  `RepairValidity`, `InstalledPlans`, `InstalledExamples`, `PlanFields`, `PinFields`). Plan validation with Kahn's cycle check, the
  repairs applied to a candidate, the user-steer path with its deterministic fallback, descriptive growth,
  the installation of a revision on a session, and exactly when the installed plan is still one the
  validator accepts.
- **Rewiring** (`Graph`, `Rewire`, `RewireLoop`, `RewireSettle`, `RewireFixed`, `RewireShared`, `Arrivals`).
  The in-place rewriting of dependency edges for corrections, with the set of known edges that can mislead
  it.
- **Concurrency** (`Cascade`, `Protocol`, `ProtocolLaws`, `ProtocolRaces`,
  `ProtocolSections`, `ProtocolFields`). Refinements and user steers are
  checked against the plan, prepared a little later against the plan of that moment, and installed inside the
  plan lock; growth takes the lock too. Task transitions and cancellation cascades, which walk a snapshot and
  write to the live plan, do not. The writes inside the lock have no suspension point between them, so other
  work runs before the first and after the last of them.
- **Correction slots** (`Corrections`, `SlotFields`). The string-keyed store of pending corrections and its
  prefix-and-suffix garbage collection.
- **Transcript editing** (`Transcript`, `Editor`, `EditorLaws`, `EditRules`, `Compaction*`, `RepeatLaws`,
  `RuleChain`, `RuleFields`). The guarded
  rule chain and the four built-in rules, compaction of repeated failed calls above all.
- **Observer notes** (`NoteQueue`, `NoteRuns`, `NoteShadow`, `NoteDrain`, `NotePriority`, `NoteFields`,
  `PromptBlock`, `PromptText`). The delivery
  queue, and the marked block in the system prompt that is stripped and refreshed.
- **Shadow comparison** (`SignalLog`, `ShadowDiff`, `ShadowLaws`, `ShadowFields`). Aligning two decision logs.

Where the source updates state in place the model has a class or a loop method, proved equal to a
function on values; the laws are lemmas about those functions. The modules whose names end in `Fields`,
and `PromptText`, `NotePriority`, `EditorLaws` and `RepeatLaws`, say what those functions do in terms of the
data alone: fields, characters, and the words a severity says. Python strings are `seq<char>`.
Task and note identities, timestamps, payload sizes, error classification and content hashes are
parameters.

## Where the code and its documentation part

The model follows the code. Each of these is a lemma, with the exact condition beside it where one
is known.

- The rewiring for corrections is described as idempotent. When no correcting task is itself corrected, it is
  exactly when no task is corrected twice, whatever the edges (`RewireShared.UnchainedSettlesIff`). Where its
  result is acyclic, it is exactly when no task is corrected twice and no corrected task is refilled by a later
  correction (`RewireSettle.SettlesIff`). For distinct corrected tasks, circular chains and cyclic results
  included, it is exactly when no edge moves on from where the first run took it
  (`Arrivals.DistinctSettlesIff`). In a chain that ends with a cycle two corrections of one task can settle
  (`RewireSettle.SharedTargetMaySettle`); `RewireFixed.SecondRunFixedIff` is the exact condition for every list
  of corrections, edge by edge. A chain listed backwards moves edges again
  (`Rewire.BackwardChainNotIdempotent`).
- The rewiring is meant to route work through the correction. With two corrections of one task the loop
  can drop a link it believes present, make an acyclic plan cyclic (`Rewire.SharedTargetMisleads`) and lose
  a dependency path (`RewireLoop.SharedTargetLosesPath`). `RewireLoop.IntegrateAcyclicIff` says exactly when
  the result is acyclic, for every list of corrections; no path is lost then.
- The deterministic minimum of the user-steer path is documented as always a valid revision. It is
  exactly when the supersedes links of the current plan are sound (`Steer.MinimalValidIff`), and a
  plan that replaced an open task and dropped it is reachable and fails (`Steer.ReplacedTaskBlocksMinimum`).
  The same plan refuses all descriptive growth (`Validity.ReplacedTaskBlocksGrowth`).
- Validation happens before the edges are rewired, and nothing is validated after. A valid revision can
  install a cycle (`Validity.ValidRevisionInstallsCycle`), a correction that can never run because it waits
  on a failed task (`InstalledExamples.FailedTaskCorrected`), or a plan without an edge between two
  completed tasks that the rules promise to keep (`InstalledExamples.TerminalEdgeLost`).
  `InstalledPlans.InstalledValidIff` is the exact condition for all the rules, and
  `InstalledPlans.RefinedValidIff` and `InstalledPlans.SteeredValidIff` are it for what a refinement and a
  user steer install, ledger repair included.
- A revision is prepared before the lock and installed later without looking again. A task that completes
  in between is open again after the install, although no other install is involved
  (`ProtocolRaces.CompletionLost`); `ProtocolLaws.CompletionSurvivesIff` says exactly when every recorded
  terminal status survives.
- The revision index is described as rising with each install. If another install fell in between, the index
  repeats and that install is overwritten (`ProtocolRaces.RacingInstallsCollide`). An install raises the index
  exactly when the accepted plan carries a higher index than the live plan, or the plan it was prepared
  against has an index at least as high (`ProtocolLaws.IndexRisesIff`).
- The cancellation cascade takes terminal statuses to be settled by the snapshot it starts from. It first
  suspends after its first write. From then on, wherever it has got to, a completion that comes just before
  its next write is overwritten (`ProtocolRaces.CascadeOverwrites`), as it happens when the initiator has two
  open successors and the second completes while the first is reported (`ProtocolRaces.SuccessorOverwritten`,
  `ProtocolRaces.ForkOverwritten`). A write keeps the terminal statuses exactly when its task is still open, or
  cancelled, by then (`ProtocolLaws.CascadeSurvivesIff`). A cascade that nothing disturbs cancels exactly the
  open tasks reached through open tasks (`Cascade.CascadeCancel`).
- The validator reports every unplaced task as part of a cycle; it reports those behind one as well
  (`Validator.Unplaced`, `Validator.ReportedBystander`).
- Slots of a task with a dotted id are collected with the task its last segment names
  (`Corrections.DottedTaskCollected`), and a dotted id takes slots of dotted agents with it
  (`Corrections.DottedAgentCollected`).
- The shadow comparison speaks of disjoint task namespaces; a key is set aside as soon as the other
  log fired the kind on any other task, even when the namespaces overlap (`ShadowLaws.OverlapSetAside`).
- Showing a block over an empty prompt and stripping it again leaves no prompt rather than the empty one
  (`PromptBlock.StripRestoresIff`).

## Model

| member | source | states |
|---|---|---|
| `Validator.Unplaced` | goldfive/types.py:918-941 | Kahn's loop leaves exactly the tasks that lie on or behind a cycle, so nothing is left if and only if the edges are acyclic |
| `Validator.PlaceAll` | goldfive/types.py:923-938 | the placing loop ends with a ranking of the placed tasks that every edge climbs, and with every other task held back by an unplaced one |
| `Validator.CheckStructure` | goldfive/types.py:900-941 | the structural verdict is positive if and only if ids are present and unique, edges are between known tasks and the graph is acyclic; a reported cycle names exactly the tasks on or behind one |
| `Validator.CheckIds` | goldfive/types.py:900-908 | the id loop accepts if and only if every id is non-empty and no two are equal |
| `Validator.ReportedBystander` | goldfive/types.py:918-941 | a task reported as part of a cycle need not lie on one |
| `PlanFields.OpenOrEnded` | goldfive/types.py:81-107 | a task ends as completed, failed, cancelled or not needed, and is open as pending, running or blocked |
| `PlanFields.RevisionValidIff` | goldfive/types.py:951-1172 | a structurally sound plan is a valid revision if and only if nothing is pending behind a task that will not complete, every finished task and edge between finished tasks is kept, and every link names another known task, is not mutual, and, when it supersedes open work that the revision does not finish, either that work waits on it or every open consumer does |
| `Rewire.RewireAcyclicIff` | goldfive/plan_reviser.py:1658-1682 | one correction keeps an acyclic graph acyclic if and only if the correcting task does not reach the corrected one and no other direct successor of the corrected task reaches the correcting one |
| `Rewire.RewireAllAcyclicIff` | goldfive/plan_reviser.py:1658-1692 | the step-by-step rewiring by a list of corrections ends acyclic if and only if the input is acyclic and each correction is safe in the graph it meets |
| `Rewire.PathsSurvive` | goldfive/plan_reviser.py:1658-1682 | the step-by-step rewiring keeps every dependency path, for any list of corrections |
| `RewireLoop.IntegrateAcyclicIff` | goldfive/plan_reviser.py:1641-1692 | the loop with its set of known edges, for every list of corrections, ends acyclic if and only if the input is acyclic and each correction is safe in the graph it should meet; then it computes exactly the step-by-step rewiring |
| `RewireLoop.IntegrateKeepsPaths` | goldfive/plan_reviser.py:1641-1692 | every dependency path of the input is a path of the output of the loop when no task is corrected twice, and whenever the output is acyclic |
| `RewireLoop.SharedTargetLosesPath` | goldfive/plan_reviser.py:1660-1682 | with two corrections of one task the loop leaves that task without successors and a path is lost |
| `RewireLoop.StepCovered` | goldfive/plan_reviser.py:1660-1682 | after every step, misled or not, each known edge is a path or leads to a task on or behind a cycle; a misled step makes a cycle and happens only where the correction is unsafe |
| `Rewire.RewireAllSettles` | goldfive/plan_reviser.py:1658-1682 | with distinct corrected tasks in chain order, each corrected task ends with its correction as its only successor |
| `Rewire.RedirectInPlace` | goldfive/plan_reviser.py:1665-1682 | the in-place inner loop computes the scan with its set of known edges, stale entries included |
| `Rewire.KeepFirst` | goldfive/plan_reviser.py:1683-1692 | the final pass keeps the first occurrence of each edge |
| `Rewire.DropRepeatsMeaning` | goldfive/plan_reviser.py:1683-1692 | removing repeats changes no edge set, leaves no repeat, and is the identity on a list without repeats |
| `Rewire.IntegrateCorrections` | goldfive/plan_reviser.py:1641-1692 | the whole loop yields no duplicate edge and, for distinct corrected tasks, exactly the step-by-step rewired edge set |
| `Rewire.BookkeepingSound` | goldfive/plan_reviser.py:1656-1682 | for distinct corrected tasks the set of known edges never misleads the loop: the result is the plain list rewiring without repeats |
| `Rewire.IntegrateIdempotent` | goldfive/plan_reviser.py:1604-1640 | with distinct corrected tasks in chain order a second run changes nothing, edge order included |
| `RewireSettle.IntegrateIdempotentIff` | goldfive/plan_reviser.py:1604-1692 | for distinct corrected tasks without a circular chain, a second run changes nothing if and only if, whenever a later correction is made by an already corrected task, the task it corrects has no successors but the two corrections in the graph that step meets |
| `RewireSettle.SharedTargetNeverSettles` | goldfive/plan_reviser.py:1658-1692 | if two different tasks correct one task and the first run ends acyclic, a second run ends with a cycle |
| `RewireSettle.SettlesIff` | goldfive/plan_reviser.py:1604-1692 | where the loop ends acyclic and each correcting task occurs once, a second run changes nothing if and only if no task is corrected twice and no corrected task is refilled |
| `RewireSettle.SharedTargetMaySettle` | goldfive/plan_reviser.py:1658-1692 | three corrections, two of one task, and a cyclic list of edges that a run leaves as it is, order included |
| `RewireFixed.SecondRunFixedIff` | goldfive/plan_reviser.py:1604-1692 | for every list of edges and corrections, a second run changes nothing if and only if the edges of the first run and the links the second appends come to rest on those edges, each after the ones listed before it, and on all of them |
| `RewireFixed.FixedIff` | goldfive/plan_reviser.py:1641-1692 | the same for any list without repeats as the input of a run |
| `RewireFixed.SameEdgesIff` | goldfive/plan_reviser.py:1641-1692 | order aside: a run keeps the set of edges if and only if every edge moves to one of them, every appended link lands on one, and an edge that moves away is replaced |
| `RewireFixed.DropRepeatsIff` | goldfive/plan_reviser.py:1683-1692 | removing repeats gives a list if and only if its edges come in its order and all of them come |
| `RewireShared.SharedRootUnsettled` | goldfive/plan_reviser.py:1658-1692 | each correcting task once: if a task that corrects nothing is corrected twice and its first correction is not corrected, a run changes every set of edges |
| `RewireShared.UnchainedSettlesIff` | goldfive/plan_reviser.py:1604-1692 | when no correcting task is itself corrected and each occurs once, a second run changes nothing if and only if no task is corrected twice, for all edges |
| `Arrivals.RewireAllArrives` | goldfive/plan_reviser.py:1658-1682 | each edge travels alone: an edge is in the step-by-step rewiring if and only if some input edge or some link comes to rest there |
| `Arrivals.IntegrateLands` | goldfive/plan_reviser.py:1641-1692 | the same for the loop and every list of corrections, where a misled step contributes no link |
| `Arrivals.EdgeSurvivesIff` | goldfive/plan_reviser.py:1665-1682 | for distinct corrected tasks, an edge out of a task that corrects nothing survives the loop if and only if no correction of that task names another successor |
| `Arrivals.DistinctSettlesIff` | goldfive/plan_reviser.py:1604-1692 | for distinct corrected tasks, circular chains included, a second run changes nothing, edge order included, if and only if no edge moves on from where the first run took it |
| `Arrivals.UnchainedArrivesIff` | goldfive/plan_reviser.py:1658-1682 | for distinct corrected tasks, when no correcting task is corrected: what arrives is exactly the links, the edges out of uncorrected tasks, and the edges of corrected tasks moved to their corrections |
| `PlanFields.SingleCorrection` | goldfive/plan_reviser.py:1641-1652 | a task contributes one correction of its trimmed ids exactly when its link is a correction of another task of the plan; a replacement contributes none |
| `PlanFields.CorrectionsInOrder` | goldfive/plan_reviser.py:1641-1652 | tasks contribute each on its own and in task order |
| `PlanFields.CorrectionMembers` | goldfive/plan_reviser.py:1641-1652 | the corrections of a list are exactly those of its correcting tasks |
| `PlanFields.ReplacementsRewireNothing` | goldfive/plan_reviser.py:1641-1692 | a plan whose links only replace is installed with its edges as they are |
| `Rewire.SharedTargetMisleads` | goldfive/plan_reviser.py:1660-1682 | two corrections of one task: the second one's link is missing and an acyclic plan becomes cyclic |
| `Rewire.BackwardChainNotIdempotent` | goldfive/plan_reviser.py:1660-1682 | a correction chain whose later link comes first: the second run of the loop takes away an edge of the first |
| `Revisions.FoldIdempotent` | goldfive/plan_reviser.py:1379-1460 | folding runtime terminal statuses twice is folding once |
| `Revisions.LedgerRepairIdempotent` | goldfive/plan_reviser.py:1462-1564 | the ledger identity repair is idempotent against any prior plan with unique ids |
| `Revisions.FoldLedgerCommute` | goldfive/plan_reviser.py:1917-1934 | fold and ledger repair commute |
| `PlanFields.FoldedFields` | goldfive/plan_reviser.py:1379-1460 | a recorded end comes back onto an open task with its reason, unless the candidate gives one; every other task is left alone |
| `PlanFields.RepairedFields` | goldfive/plan_reviser.py:1525-1540 | for a task the ledger knows: kind and identity from the ledger, a recorded hash and contribution first, the assignee of the revision first, everything else as the revision says |
| `PlanFields.NewTaskIsOutcome` | goldfive/plan_reviser.py:1541-1543 | a task new to a ledger-shaped plan becomes an outcome unless it is labelled already |
| `PlanFields.ForecastStays` | goldfive/plan_reviser.py:1544-1545 | a task the ledger has as a forecast keeps what the revision says |
| `PlanFields.ReturnedTasks` | goldfive/plan_reviser.py:1546-1554 | exactly the open discovered tasks that the revision drops come back after its own |
| `PlanFields.NothingRepaired` | goldfive/plan_reviser.py:1513-1519 | outside ledger mode and against a plan that was no ledger nothing is repaired |
| `PlanFields.StampFields` | goldfive/plan_reviser.py:1935-1967 | the cause the revision states stays and the drift fills in what is blank; the index is its own or the next one, whichever is higher |
| `PlanFields.RefinementInstalls` | goldfive/plan_reviser.py:596-649 | a valid refinement that lands is installed exactly when some id, assignee or status differs or the edges do as a set |
| `PlanFields.RefinementRefused` | goldfive/plan_reviser.py:596-625 | an invalid refinement, or one that does not land, changes nothing |
| `Runs.TerminalIsAbsorbing` | goldfive/plan_reviser.py:596-649 | over every serial run of refinements, user steers, growth and task transitions, a terminal task keeps exactly its status |
| `Runs.StepKeepsStatuses` | goldfive/plan_reviser.py:1379-1417 | every single step keeps ids unique and non-empty and every terminal status in place |
| `Runs.DiscoveriesSurvive` | goldfive/plan_reviser.py:1462-1564 | in ledger mode, over every run with planner revisions that carry no discovery fields, a discovered task stays in the plan with its kind and hash, and no hash has two open discovered tasks |
| `Runs.StepDiscoveries` | goldfive/plan_reviser.py:826-942 | each step keeps the discovered tasks recorded, labelled, and at most one open per hash |
| `Runs.TransitionKeepsStatuses` | goldfive/task_state_machine.py:239-252 | a transition of a task that is not yet terminal changes no terminal status |
| `PlanFields.TransitionFields` | goldfive/task_state_machine.py:239-252 | a transition gives the named task its new status if it is open, and changes nothing else |
| `Runs.CascadeKeepsIff` | goldfive/task_state_machine.py:645-651 | a single write of the cancellation cascade keeps every terminal status if and only if its task is not already terminal with another status in the live plan |
| `Cascade.CascadeCancel` | goldfive/task_state_machine.py:600-670 | the queue loop, with nothing running in between, terminates and cancels exactly the open tasks that follow the initiator through open tasks; every other task, the edges and the index stay |
| `Cascade.PopOk` | goldfive/task_state_machine.py:618-670 | every step keeps: what is queued follows the initiator or a cancelled task, what is cancelled is downstream, and every successor of a cancelled task is queued or visited |
| `Cascade.SweptKeeps` | goldfive/task_state_machine.py:588-598 | an undisturbed cascade changes no terminal status |
| `Cascade.SweptLeavesNoOrphan` | goldfive/task_state_machine.py:569-598 | after it nothing open follows the initiator or a task it cancelled |
| `Steer.MinimalValidIff` | goldfive/plan_reviser.py:488-568 | the deterministic minimum of a well-formed plan is a valid revision if and only if every supersedes link of that plan names another known task and is not mutual |
| `Steer.MinimalIsSettled` | goldfive/plan_reviser.py:522-568 | the minimum leaves no open task, keeps exactly the edges among terminal tasks, and is its own minimum; it differs from the plan unless everything was terminal |
| `PlanFields.MinimalTasks` | goldfive/plan_reviser.py:524-546 | task by task: a finished one is as it was, an open one is cancelled for the given reason and otherwise as it was |
| `PlanFields.SteerCancels` | goldfive/plan_reviser.py:425-486 | a user steer without a valid planner revision installs a plan of the same tasks in which exactly the open ones are cancelled, with the reason, whether or not steering is active |
| `PlanFields.SteerInstalls` | goldfive/plan_reviser.py:425-486 | a user steer installs the planner's revision when it is valid and the minimum otherwise, unless that changes nothing or does not land |
| `Steer.SteerValidIff` | goldfive/plan_reviser.py:425-453 | whatever the planner returned, the plan selected is a valid revision if and only if the planner's own folded revision validates or the plan's links are sound |
| `RepairValidity.SteerReturnsValidIff` | goldfive/plan_reviser.py:425-486 | the plan the user steer returns, repaired and stamped, is a valid revision if and only if the planner's folded revision validates and the ledger repair holds on it, or that revision is rejected or missing and the plan's links are sound |
| `Steer.SteerKeepsTerminals` | goldfive/plan_reviser.py:425-453 | the plan selected keeps every terminal task and the edges among them, and is structurally valid |
| `InstalledPlans.SteeredKeeps` | goldfive/plan_reviser.py:373-486 | what a user steer installs keeps every terminal status; an edge among terminal tasks is still there if and only if something comes to rest on it, and, for distinct corrected tasks and out of a task that corrects nothing, if and only if no correction of that task names another successor |
| `InstalledPlans.RefinedKeeps` | goldfive/plan_reviser.py:570-654 | the same for a drift-driven refinement |
| `Steer.ReplacedTaskBlocksMinimum` | goldfive/types.py:1061-1092 | a valid revision leads to a plan whose minimum the validator rejects |
| `Validity.GrowthLandsIff` | goldfive/plan_reviser.py:826-942 | growth with a fresh id and an unseen hash is accepted if and only if the current plan validates as a revision of itself |
| `Validity.GrownStays` | goldfive/plan_reviser.py:826-942 | a growth that lands records the discovered task with its hash, and no later run loses it |
| `PlanFields.GrownFields` | goldfive/plan_reviser.py:855-915 | a growth that lands appends one pending discovered task with the given id, title, assignee and hash, adds no edge, and stamps the plan with its drift and the next index |
| `PlanFields.GrowsIff` | goldfive/plan_reviser.py:830-915 | growth with a fresh id lands if and only if no open discovered task has the hash, though finished ones may, and the current plan is a valid revision of itself |
| `Validity.ReplacedTaskBlocksGrowth` | goldfive/plan_reviser.py:826-942 | a plan left by replacing and dropping an open task admits no growth |
| `RepairValidity.RepairValidIff` | goldfive/plan_reviser.py:1513-1564 | ledger repair keeps a valid revision valid if and only if no returning task is in a mutual link, none consumes what a revision task supersedes without its waiting on it, and every returning task's own link is known, not mutual and supersedes nothing with live consumers |
| `RepairValidity.RepairKeepsValid` | goldfive/plan_reviser.py:1513-1564 | in particular when the open discovered tasks are isolated |
| `Validity.IntegratedStructuralIff` | goldfive/plan_reviser.py:2083-2166 | the installed plan is structurally valid if and only if each of its corrections is safe where it is applied and every correcting task is known by its trimmed id |
| `InstalledPlans.InstalledValidIff` | goldfive/plan_reviser.py:2083-2166 | a structurally valid plan that keeps the terminal history is a valid revision once installed if and only if its corrections are safe and known, no edge comes to rest between a task that never completes and a pending one, every edge among terminal tasks is still there, and every link is sound and keeps its routes |
| `InstalledPlans.RefinedValidIff` | goldfive/plan_reviser.py:596-649 | what a refinement installs over a well-formed plan, folded, repaired, stamped and rewired, is a valid revision of it if and only if the prepared plan meets that condition |
| `InstalledPlans.SteeredValidIff` | goldfive/plan_reviser.py:425-486 | the same for what a user steer installs |
| `InstalledPlans.MinimumInstallableIff` | goldfive/plan_reviser.py:488-568 | for the deterministic minimum the condition comes down to sound links in the current plan, safe and known corrections, and every edge among terminal tasks still there |
| `InstalledPlans.InstalledExecutableIff` | goldfive/types.py:981-1028 | the installed plan has nothing pending behind a task that never completes if and only if no edge and no link comes to rest there |
| `InstalledPlans.InstalledTerminalsIff` | goldfive/types.py:951-980 | the installed plan keeps the terminal history if and only if something comes to rest on every edge of it |
| `InstalledPlans.UncorrectedKeepsRoutes` | goldfive/types.py:1093-1172 | a superseding task that is not itself corrected keeps its routes |
| `InstalledPlans.UnchainedRoutesIff` | goldfive/types.py:1093-1172 | for distinct corrected tasks without chains: a superseding task keeps its routes if and only if it is not corrected, or its correction is the superseded pending task or that task's only live consumer |
| `InstalledPlans.UnchainedExecutableIff` | goldfive/types.py:981-1028 | for distinct corrected tasks without chains: no correction pending behind a task that never completes, and no pending consumer moved behind a correction that never completes |
| `InstalledPlans.UnchainedTerminalsIff` | goldfive/types.py:951-980 | for distinct corrected tasks without chains: no edge among terminal tasks leaves a corrected task other than to its correction |
| `InstalledExamples.FailedTaskCorrected` | goldfive/plan_reviser.py:2083-2166 | correcting a failed task validates and its correction is safe, yet the installed plan never runs it and refuses all growth |
| `InstalledExamples.TerminalEdgeLost` | goldfive/plan_reviser.py:2083-2166 | a valid revision whose installation drops the edge between two completed tasks |
| `Validity.ValidRevisionInstallsCycle` | goldfive/plan_reviser.py:2083-2166 | a revision that passes the validator can install a cyclic plan |
| `Install.ResolveChain` | goldfive/plan_reviser.py:1743-1755 | the chain-following loop terminates on every link map, circular ones included, and computes the resolved pin |
| `Install.ResolveEnds` | goldfive/plan_reviser.py:1694-1800 | a pin moves only along supersession links and, unless they run in a circle, ends on a task that nothing supersedes |
| `PinFields.LinksMean` | goldfive/plan_reviser.py:1733-1739 | a task has a successor exactly when some other task names it as superseded under trimmed ids, and then the last such task is it |
| `PinFields.PinFollows` | goldfive/plan_reviser.py:1743-1755 | a pin moves to the end of its lineage of successors |
| `PinFields.PinMoves` | goldfive/plan_reviser.py:1757-1768 | a pin on a task with a successor that has none itself moves to that successor |
| `PinFields.PinStays` | goldfive/plan_reviser.py:1757-1768 | a pin on a task that nothing supersedes stays |
| `PinFields.StatePinFollows` | goldfive/plan_reviser.py:1770-1789 | the state's own pin moves along the lineage of its trimmed text, and nothing else in the state changes |
| `PinFields.InstallMovesPin` | goldfive/plan_reviser.py:2265-2278 | an install moves the session pin along the lineage in the installed plan |
| `Install.Session.Repin` | goldfive/plan_reviser.py:1694-1800 | the pinned task and the state's current-task entry both move to the end of their chains; nothing else changes |
| `Install.Session.ApplyRevision` | goldfive/plan_reviser.py:1813-2044 | without touching the session: the candidate's tasks come first and in order, an open one recorded terminal takes the recorded status, no open discovered task is missing, the index is above the current one, and the revision lands exactly when steering is active or the drift is bootstrap, user-authored or a discovery |
| `Install.Session.EmitPlanRevised` | goldfive/plan_reviser.py:2083-2278 | a dry run changes no session field; otherwise plan, watermark, current-plan entry, correction slots and pins become those of the installed revision, all of them |
| `SlotFields.InstalledMarks` | goldfive/plan_reviser.py:2165-2180 | an install puts the plan on the session and records its index for the kind and task of the drift, unless an operator caused it; every other mark stays |
| `SlotFields.InstalledPlanId` | goldfive/plan_reviser.py:2181-2187 | the state names the installed plan |
| `Install.Session.Revise` | goldfive/plan_reviser.py:1917-2044 | applying then emitting is the session transformation the run lemmas reason about, and emits the integrated plan with its preview flag |
| `Previews.ChangesIffLands` | goldfive/plan_reviser.py:1935-2044 | a revision changes the session if and only if steering is active or a carve-out applies |
| `Previews.PreviewFidelity` | goldfive/plan_reviser.py:2101-2187 | at every point of every run, the emitted plan is the one active steering would install in that state, flagged dry exactly when the session did not change |
| `Previews.SuppressedLeavesNoTrace` | goldfive/plan_reviser.py:1917-2044 | an observation-only run ends as an actively steered run of just the revisions a carve-out let through |
| `Previews.IndexClimbs` | goldfive/plan_reviser.py:1935-1967 | the revision index rises at least by the number of installs of a run |
| `Protocol.ExecInv` | goldfive/plan_reviser.py:2083-2278 | the protocol invariant holds under every schedule of checks, preparations, acquisitions, single writes, releases, growth, task transitions and cascade steps |
| `Protocol.ReadersSeeWholeRevisions` | goldfive/plan_reviser.py:2083-2278 | work that runs between the locked writes sees the last committed session; every committed session is a whole install of a revision accepted and prepared against earlier ones, a whole growth of the one before, a task transition of it, or one cancellation of a task that was open in an earlier one |
| `ProtocolLaws.SchedulesAreHistories` | goldfive/plan_reviser.py:637-648 | every schedule from a well-named plan produces a history the laws below apply to |
| `ProtocolLaws.IndexRisesIff` | goldfive/plan_reviser.py:1935-1967 | an install raises the index if and only if the accepted plan carries a higher index than the live plan, or the plan it was prepared against has an index at least as high as the live one |
| `ProtocolLaws.IndexRises` | goldfive/plan_reviser.py:1935-1967 | in particular: the index rises by one at a growth, stays at a transition and at a cancellation, and rises at an install when no other install or growth was committed since its revision was prepared |
| `ProtocolLaws.CompletionSurvivesIff` | goldfive/plan_reviser.py:2083-2166 | an install keeps every recorded terminal status if and only if each terminal task of the live plan is in the accepted plan with that status, or open there and recorded with that status in the plan the revision was prepared against |
| `ProtocolLaws.CascadeSurvivesIff` | goldfive/task_state_machine.py:645-651 | a cascade write keeps every recorded terminal status if and only if its task, open in the snapshot, is still open or already cancelled in the live plan |
| `ProtocolLaws.QuietStepsKeep` | goldfive/plan_reviser.py:2083-2166 | growth and transitions keep every terminal status, and so do installs with nothing committed since their candidate was accepted and cascade writes with nothing committed since their snapshot |
| `ProtocolRaces.SectionInstalls` | goldfive/plan_reviser.py:2101-2278 | a critical section run through its single writes amounts to one atomic install |
| `ProtocolSections.GrowthInstalls` | goldfive/plan_reviser.py:826-942 | a growth that lands, run through its single writes inside the lock, amounts to one commit of the grown plan |
| `ProtocolSections.CascadeSweeps` | goldfive/task_state_machine.py:600-670 | a cascade process that nothing disturbs ends, and the live plan has exactly the open tasks reached through open tasks cancelled |
| `ProtocolRaces.CompletionLost` | goldfive/plan_reviser.py:637-649 | for any refinement or steer that leaves a task open, a completion of that task between preparation and install is lost, with no other install involved |
| `ProtocolRaces.LoneCompletionLost` | goldfive/plan_reviser.py:637-649 | there is such a schedule: one task, and a refinement that adds another |
| `ProtocolRaces.RacingInstallsCollide` | goldfive/plan_reviser.py:596-649 | two revisions prepared before either installs: the second repeats the index and drops the first one's completed task |
| `ProtocolRaces.CascadeOverwrites` | goldfive/task_state_machine.py:618-670 | once a cascade has cancelled a task, wherever it has got to, if the task it is about to cancel completes first, the completion is committed and then undone |
| `ProtocolRaces.SuccessorOverwritten` | goldfive/task_state_machine.py:600-670 | for any plan in which the first two successors of the initiator are open: snapshot and first write, then the second successor completes, then it is cancelled |
| `ProtocolRaces.ForkOverwritten` | goldfive/task_state_machine.py:600-670 | there is such a plan: a failed task and two that wait on it |
| `ProtocolFields.StartedFields` | goldfive/task_state_machine.py:151-171 | a task that starts becomes the pinned one, and the state names it with its title |
| `ProtocolFields.EndedFields` | goldfive/task_state_machine.py:239-256 | a task that ends is no longer named by the state if it was the one named; the pin and the mark of another task stay |
| `ProtocolFields.GrownMarks` | goldfive/plan_reviser.py:926-942 | a growth swaps the plan and the state's plan id and nothing else of the session |
| `ProtocolFields.RefinementAccepted` | goldfive/plan_reviser.py:596-625 | a refinement is accepted if and only if, folded, it is valid and changes something |
| `ProtocolFields.SteerAccepted` | goldfive/plan_reviser.py:425-468 | a steer is accepted as the planner's valid revision or the minimum, if that changes something |
| `ProtocolFields.InstallsLand` | goldfive/plan_reviser.py:1983-2006 | in every history of a session that is only observed, nothing but operators and discovered work installs |
| `Corrections.ClearCorrectionsForTask` | goldfive/_correction_injection.py:512-568 | the loop removes exactly the slots that pass the prefix-and-suffix test and returns exactly the removed keys |
| `Corrections.ClearObsoleteOnRevision` | goldfive/_correction_injection.py:571-617 | the sweep removes every slot matching some superseded task and nothing else |
| `Corrections.QueueCorrections` | goldfive/_correction_injection.py:222-353 | the loop writes one payload per eligible correction, in task order |
| `Corrections.SuffixSelects` | goldfive/_correction_injection.py:540-552 | for every collected id: exactly the slots of that task, those of tasks whose id ends in a dot and it, and those of a task that ends it under an agent that ends what comes before |
| `Corrections.SuffixExact` | goldfive/_correction_injection.py:540-552 | with dot-free task ids the suffix test selects one task's slots exactly, whatever the agent names |
| `Corrections.SlotKeyInjective` | goldfive/_correction_injection.py:95-104 | slot keys determine agent and task when task ids have no dot |
| `Corrections.DottedTaskCollected` | goldfive/_correction_injection.py:540-552 | the slot of a dotted task is lost when the task of its last segment is collected |
| `Corrections.DottedAgentCollected` | goldfive/_correction_injection.py:540-552 | a dotted collected id takes the slot of another task under a dotted agent |
| `Corrections.SlotsAfterRevision` | goldfive/plan_reviser.py:2203-2247 | after an install a slot exists if and only if the revision queued it or it existed and its task is not superseded; its content is the new payload or the old entry, and other state keys are untouched |
| `SlotFields.CorrectiveSlot` | goldfive/_correction_injection.py:146-185 | a correcting, assigned task gets a slot with its agent, id and title, the id and title of the corrected task, and the kind, reason, index and time of the revision |
| `SlotFields.InstalledSlot` | goldfive/plan_reviser.py:2214-2247 | an install writes that slot with the kind and detail of its drift, the installed index and the time |
| `SlotFields.OtherSlots` | goldfive/_correction_injection.py:283-330 | any other slot is there exactly when it was and no task of the revision supersedes its task, by replacement or correction |
| `SlotFields.ReplacementGetsNoSlot` | goldfive/_correction_injection.py:288-290 | a replacing task gets no slot of its own |
| `SlotFields.ClearedKeys` | goldfive/_correction_injection.py:536-555 | a sweep for a task takes exactly the keys of the family that end in its id; one for no task takes none |
| `Editor.LlmRequest.ApplyRules` | goldfive/context_editor.py:529-765 | the rule loop computes the guarded chain; contents and report are the chain's, or the originals when the swap fails, and observation mode changes nothing |
| `Editor.EditorGuarantees` | goldfive/context_editor.py:554-765 | for arbitrary rules: contents unchanged, or non-empty, paired, no more bytes and no more entries; reported deltas sum to the saving; drop-only rules leave only original entries |
| `Editor.ChainGuarantees` | goldfive/context_editor.py:602-732 | the same from any intermediate state of the chain |
| `Editor.EveryRuleOnce` | goldfive/context_editor.py:602-732 | each rule is reported exactly once, as applied, rejected or skipped, under its own name |
| `EditorLaws.EditTaken` | goldfive/context_editor.py:632-733 | an edit that adds no bytes and no entries, is made of entries that were there when drop-only, is paired and not empty is taken: listed with its measures, and the chain goes on from it |
| `EditorLaws.EditRefused` | goldfive/context_editor.py:632-716 | any other edit is refused for the first of these it fails, and the chain goes on from what was there |
| `EditorLaws.OneFault` | goldfive/context_editor.py:632-716 | an edit that is not admissible has exactly one first fault |
| `EditorLaws.RuleSkips` | goldfive/context_editor.py:626-630 | a rule that makes no edit, or offers what is there already, is skipped |
| `EditorLaws.SingleRuleIff` | goldfive/context_editor.py:602-733 | the request ends with the edit of a single rule, listed with its measures, if and only if it is admissible |
| `EditorLaws.PartWeights` | goldfive/context_editor.py:312-345 | a text weighs its length, a call its tool and arguments, a response its tool and payload |
| `EditorLaws.TranscriptWeights` | goldfive/context_editor.py:302-318 | a transcript weighs the sum of its contents |
| `EditorLaws.PairedIff` | goldfive/context_editor.py:384-397 | a transcript is paired if and only if the ids called are the ids answered |
| `Transcript.WellFormedPaired` | goldfive/context_editor.py:384-397 | a well-formed transcript passes the pairing gate |
| `EditRules.PruneCancelledReasoning` | goldfive/context_editor.py:1003-1033 | the loop drops exactly the contents with a part of a cancelled id, and reports no edit when that is none or all of them |
| `EditRules.PruneTransientErrors` | goldfive/context_editor.py:1395-1474 | the loop redacts exactly the transient payloads that are larger than the marker |
| `EditRules.PruneStaleSteer` | goldfive/context_editor.py:1558-1661 | the loop drops exactly the goldfive notes that are neither fresh nor the active steer |
| `EditRules.PruneCancelledClean` | goldfive/context_editor.py:1003-1033 | on a well-formed transcript pruning cancelled calls passes every gate and keeps the transcript well-formed |
| `EditRules.RedactTransientClean` | goldfive/context_editor.py:1395-1474 | the same for redaction |
| `EditRules.PruneStaleClean` | goldfive/context_editor.py:1558-1661 | the same for stale notes |
| `EditRules.PruneCancelledErases` | goldfive/context_editor.py:1003-1033 | an edit leaves no call or response of a cancelled id, keeps exactly the untouched contents, and has nothing left to do on its output |
| `EditRules.RedactTransientErases` | goldfive/context_editor.py:1395-1474 | no transient payload larger than the marker is left, entries keep their role and call id, and a second run makes no edit |
| `EditRules.PruneStaleErases` | goldfive/context_editor.py:1558-1661 | exactly the stale notes are gone, every tool content stays, and a second run makes no edit |
| `RuleFields.CancelledGone` | goldfive/context_editor.py:1003-1033 | run by the editor on a well-formed transcript, exactly the contents that mention a cancelled id are gone, unless that would leave nothing |
| `RuleFields.TransientRedacted` | goldfive/context_editor.py:1395-1474 | run by the editor, every content and part keeps its place, and exactly the raw transient results larger than the marker become the marker |
| `RuleFields.StaleGone` | goldfive/context_editor.py:1558-1661 | run by the editor, exactly the note-like contents without the steer in force and without a fresh body are gone, unless that would leave nothing |
| `RuleFields.BuiltinTaken` | goldfive/context_editor.py:602-733 | on a well-formed transcript the editor ends with exactly a built-in rule's answer |
| `RuleFields.LinesJoin` | goldfive/context_editor.py:1558-1661 | the texts of a content are joined by single newlines |
| `Compaction.LocateCalls` | goldfive/context_editor.py:1793-1805 | the first pass records the first content and signature of each call id |
| `Compaction.LocateAnswers` | goldfive/context_editor.py:1807-1833 | the second pass records the first response content and payload of each id |
| `Compaction.GroupFailed` | goldfive/context_editor.py:1835-1839 | failed, answered calls are grouped by signature in transcript order |
| `Compaction.CallsInOrder` | goldfive/context_editor.py:1846-1846 | recorded calls are in transcript order, so sorting a group by call position changes nothing |
| `Compaction.CompactPriorReasoning` | goldfive/context_editor.py:1784-1919 | the whole rule, loop by loop, is the compaction function |
| `CompactionTables.GroupsListed` | goldfive/context_editor.py:1835-1839 | the group of a signature lists exactly its failed answered calls, in order, and no signature has two groups |
| `CompactionLaws.EditMatches` | goldfive/context_editor.py:1841-1906 | after any number of groups, an index is dropped or replaced exactly as the fate of its call says |
| `CompactionLaws.CompactIsRebuild` | goldfive/context_editor.py:1901-1919 | the rule's index sets amount to one content-by-content decision: stay, go, or survive with a summary |
| `CompactionBytes.DropMany` | goldfive/context_editor.py:1893-1906 | dropping several calls saves exactly the bytes of their contents; none is counted twice |
| `CompactionBytes.CompactionShrinks` | goldfive/context_editor.py:1881-1906 | an edit strictly lowers the total bytes and the number of entries |
| `CompactionOutcome.OwnedDisjoint` | goldfive/context_editor.py:1248-1272 | contents of different call ids are disjoint |
| `CompactionOutcome.CollapsesIff` | goldfive/context_editor.py:1841-1900 | a group collapses if and only if it is large enough and the summary is smaller than what it replaces |
| `RepeatLaws.GroupIff` | goldfive/context_editor.py:1791-1839 | a group is exactly the calls of one tool with the same arguments whose result failed; a result redacted before counts as failed, a summary does not |
| `RepeatLaws.GroupInOrder` | goldfive/context_editor.py:1846-1846 | a group lists its calls in transcript order |
| `RepeatLaws.RepeatsGoIff` | goldfive/context_editor.py:1777-1899 | a repeat of a group goes if and only if the session is known to loop or the group has the configured size, and the summary is smaller than what it stands for |
| `RepeatLaws.SurvivorShown` | goldfive/context_editor.py:1876-1919 | the survivor's response stands in the output as a copy that keeps role, tool, id and other parts; only the result is the summary |
| `RepeatLaws.BatchedUntouched` | goldfive/context_editor.py:1850-1860 | on any transcript, well-formed or not, a content that batches parts of different calls is neither dropped nor summarized |
| `RepeatLaws.TablesNamed` | goldfive/context_editor.py:1798-1817 | calls and responses without an id are never looked at |
| `CompactionOutcome.SummaryTruthful` | goldfive/context_editor.py:1924-1967 | the summary says identical, elided or differing exactly when the compared results are, and quotes the last result when they differ |
| `CompactionOutcome.CollapsedGroup` | goldfive/context_editor.py:1784-1919 | a collapsed group keeps its first call untouched with a truthful summary as its only response, and no half of any other member is left |
| `CompactionOutcome.OthersUntouched` | goldfive/context_editor.py:1784-1919 | every content outside a collapsed group is still there as it was |
| `CompactionOutcome.CompactClean` | goldfive/context_editor.py:1784-1919 | compaction passes every gate and keeps a well-formed transcript well-formed and non-empty |
| `CompactionFixpoint.CompactIdempotent` | goldfive/context_editor.py:1784-1919 | compaction applied to its own output makes no edit |
| `RuleChain.NoReverts` | goldfive/context_editor.py:602-732 | the four built-in rules in any order and number never trigger a revert on a well-formed transcript, and the result is well-formed |
| `NoteQueue.Queue.EnqueueNote` | goldfive/observer_note_queue.py:589-646 | a new id is appended and the list pruned, a pending duplicate is refreshed, a delivered one is left alone |
| `NoteQueue.Queue.PruneNotes` | goldfive/observer_note_queue.py:736-764 | over the cap, the oldest delivered notes are dropped until the list is at the cap or holds no more of them |
| `NoteQueue.Queue.MarkDelivered` | goldfive/observer_note_queue.py:648-687 | succeeds exactly when the note is pending, and changes that note only |
| `NoteQueue.Queue.EvictPendingCorrections` | goldfive/observer_note_queue.py:689-734 | removes exactly the pending correction notes of the task and agent and returns their ids |
| `NoteQueue.Queue.PeekForRender` | goldfive/observer_note_queue.py:400-489 | returns an eligible note that no eligible note outranks by severity, turn and sequence, or nothing when none is eligible |
| `NotePriority.PeekBySeverity` | goldfive/observer_note_queue.py:119-128 | while an eligible note says critical, in any letter case, a critical one is peeked; otherwise while one says warning a warning is; otherwise while one says info an info is |
| `NotePriority.PeekedIsFirst` | goldfive/observer_note_queue.py:455-477 | no eligible note outranks the peeked one by what its severity says, and none of the same severity has a later turn, or the same turn and a later place |
| `NoteFields.EligibleIff` | goldfive/observer_note_queue.py:451-473 | who may see a note, in terms of its kind, drift id, agent and delivery |
| `NoteFields.QualifiedAgent` | goldfive/observer_note_queue.py:231-244 | a qualified agent name and its last segment name the same agent, whatever the case |
| `NoteFields.SameDriftSameNote` | goldfive/observer_note_queue.py:589-622 | drafts of one drift id share one note |
| `NoteFields.EnqueuedFields` | goldfive/observer_note_queue.py:610-646 | a refreshed note has the newest text, severity, turn and level and its old identity, scope and place; a new one is the draft, placed last |
| `NoteFields.PrunedExactly` | goldfive/observer_note_queue.py:736-747 | over the cap of 256 the delivered notes at the front go, one for each note too many, and everything else stays |
| `NoteFields.SweptIff` | goldfive/observer_note_queue.py:714-734 | a sweep takes exactly the task's pending correction notes, those of one agent when it names one |
| `NoteFields.DeliveredFields` | goldfive/observer_note_queue.py:674-687 | a delivery stamps channel, surface, turn and dry flag and touches nothing else |
| `NoteFields.SignalsCounted` | goldfive/observer_note_queue.py:531-566 | the escalation counter is the number of signal notes of the pair, corrections excluded |
| `NoteFields.ShownPairs` | goldfive/observer_note_queue.py:568-585 | a pair counts as shown if and only if a signal of it was delivered and not just consumed |
| `NoteRuns.EnqueueHolds` | goldfive/observer_note_queue.py:589-646 | after an enqueue the note is in the list with the newest text, or was delivered already and nothing changed |
| `NoteRuns.LastRenderedIsLargest` | goldfive/observer_note_queue.py:507-529 | the grace anchor is the largest delivery turn of the pair's consumed signal notes, dry ones included, or -1 |
| `NoteRuns.RunOk` | goldfive/observer_note_queue.py:383-384 | at every point of every run ids are unique and sequence numbers strictly increase along the list |
| `NoteRuns.CapHolds` | goldfive/observer_note_queue.py:610-646 | after an appending enqueue the list is within the cap or holds only pending notes |
| `NoteRuns.TombstoneStays` | goldfive/observer_note_queue.py:736-764 | a delivered note stays delivered until an append over the cap prunes it |
| `NoteRuns.ExactlyOnce` | goldfive/observer_note_queue.py:648-687 | between two successful deliveries of one id its tombstone was pruned |
| `NoteRuns.AtMostOnceBelowCap` | goldfive/observer_note_queue.py:648-687 | a run that never appends beyond the cap delivers each id at most once |
| `NoteRuns.PendingLeavesOnlyBySweep` | goldfive/observer_note_queue.py:689-747 | a pending note is removed by a matching sweep and by nothing else; its delivery and its refresh are the only changes to it |
| `NoteShadow.ShadowParity` | goldfive/observer_note_queue.py:400-585 | runs that differ only in dry-run flags peek, mark, evict and pace alike at every point, and drier runs can only shrink the rendered keys |
| `NoteDrain.DrainDelivers` | goldfive/observer_note_queue.py:451-478 | peek-then-mark ends after exactly the eligible notes, each delivered once in strictly falling priority, all other notes unchanged |
| `NotePriority.DrainBySeverity` | goldfive/observer_note_queue.py:451-478 | draining delivers by what severities say, and within one severity later notes first |
| `NoteDrain.DrainRespectsAgents` | goldfive/observer_note_queue.py:231-244 | a note scoped to another agent is never delivered |
| `PromptBlock.CollapseNewlines` | goldfive/observer_note_queue.py:341-345 | the collapse loop terminates and leaves no three newlines in a row |
| `PromptBlock.StripPriorBlock` | goldfive/observer_note_queue.py:324-345 | strips from the first marker to the end marker, or to the end of the text without one |
| `PromptText.CollapseByRuns` | goldfive/observer_note_queue.py:343-345 | collapsing works run by run: each maximal run of k newlines becomes one of k, or of two when there are more |
| `PromptText.SolidLineStays` | goldfive/observer_note_queue.py:343-345 | text without newlines is left as it is |
| `PromptText.StripBetween` | goldfive/observer_note_queue.py:324-345 | stripping a text with a block takes the block out and joins what was before and after it, collapsed and without outer newlines |
| `PromptText.StripKeepsText` | goldfive/observer_note_queue.py:324-345 | nothing of the text around a block is lost apart from newlines, and no triple newline is left |
| `PromptText.StripUnclosed` | goldfive/observer_note_queue.py:338-345 | a block without its closing line takes everything after it away and nothing before it |
| `PromptText.StripNewlinesEnds` | goldfive/observer_note_queue.py:345-345 | what is stripped from the ends are newlines, and none is left there |
| `PromptBlock.GoldfiveProper` | goldfive/observer_notes.py:116-138 | the real markers have the shape the round trip needs |
| `PromptText.MarkerLines` | goldfive/observer_notes.py:116-138 | the marker lines in use |
| `PromptBlock.RoundTripIff` | goldfive/observer_note_queue.py:286-345 | stripping an appended block restores the text if and only if the text has no triple newline and no newline at either end |
| `PromptBlock.StripRestoresIff` | goldfive/prompt_shaper.py:902-966 | showing a block and stripping it restores the prompt if and only if there was none, or a non-empty text with no triple newline and no outer newline |
| `PromptBlock.Request.InjectObserverNote` | goldfive/prompt_shaper.py:839-988 | one call strips the prior block, shows the best note unless dry, and marks exactly that note delivered |
| `PromptText.ShownAtEnd` | goldfive/prompt_shaper.py:934-966 | a shown note stands at the end of what was left of the prompt, after a blank line, its trimmed body and plan line between the two marker lines |
| `PromptText.HiddenOrAbsent` | goldfive/prompt_shaper.py:902-970 | a note that is only consumed, and a call without one, leave just what was left of the prompt |
| `PromptText.AgentSees` | goldfive/prompt_shaper.py:920-927 | the prompt of an agent shows notes for everyone and its own, of every kind |
| `PromptBlock.InjectionsNeverStack` | goldfive/prompt_shaper.py:902-966 | after any number of calls the prompt is the base, plus exactly the last call's block if it showed one; an empty base is gone once a block was shown |
| `SignalLog.SortedIsStable` | bench/shadow_diff.py:331-333 | signals are ordered by sequence number, none lost, list order kept among equals |
| `SignalLog.AssignOccurrences` | bench/shadow_diff.py:321-338 | the counter loop gives each signal the number of earlier ones of its kind and task |
| `SignalLog.OccurrencesExact` | bench/shadow_diff.py:321-338 | a pair's keys are exactly its first numbers from zero, and a log has as many keys as signals |
| `SignalLog.DictValue` | bench/shadow_diff.py:368-369 | the dictionary leads from each key back to its own signal |
| `ShadowDiff.SortedUnion` | bench/shadow_diff.py:370-370 | the sorted union of both key sets |
| `ShadowDiff.AllKeysSpec` | bench/shadow_diff.py:370-370 | the key list is strictly ascending and holds exactly the keys of either log |
| `ShadowDiff.Namespaces` | bench/shadow_diff.py:372-381 | the tasks on which a log fired each kind |
| `ShadowDiff.DiffTwoLogs` | bench/shadow_diff.py:346-443 | the alignment loop computes the report the laws are about |
| `ShadowLaws.NothingLost` | bench/shadow_diff.py:383-443 | each log's count is its two-sided plus its one-sided entries |
| `ShadowLaws.TwoSidedTotal` | bench/shadow_diff.py:383-407 | the two-sided entries number the sum of the smaller counts over all kind and task pairs |
| `ShadowLaws.VerdictsPartition` | bench/shadow_diff.py:169-175 | diverged, un-joinable and agreeing entries partition the report |
| `ShadowLaws.SelfDiff` | bench/shadow_diff.py:346-443 | a log compared with itself shows no difference |
| `ShadowLaws.SwapMirrors` | bench/shadow_diff.py:346-443 | swapping the logs mirrors the report entry by entry |
| `ShadowLaws.ReportOrderFree` | bench/shadow_diff.py:331-333 | the report does not depend on the order of the logs' records when sequence numbers tell them apart |
| `ShadowLaws.DivergesIff` | bench/shadow_diff.py:387-392 | a two-sided entry diverges if and only if the signals differ on a decision field; transport alone never counts |
| `ShadowFields.DivergesByField` | bench/shadow_diff.py:94-101 | an aligned pair diverges if and only if the ladder level, the dry-run flag or one of the four recorded decisions differs |
| `ShadowFields.TransportListed` | bench/shadow_diff.py:103-109 | the channel and its action are listed beside an aligned pair if and only if they differ |
| `ShadowFields.ReportOrder` | bench/shadow_diff.py:370-370 | the report is ordered by kind, then task, then occurrence, strings lexicographically |
| `ShadowFields.PresenceIff` | bench/shadow_diff.py:383-443 | an entry is two-sided, legacy-only or new-only according to the keys of the logs |
| `ShadowFields.EntryShows` | bench/shadow_diff.py:383-443 | an entry shows for each log that has its key the fields of that log's own signal, and nothing for a log that has not |
| `ShadowLaws.SilenceIff` | bench/shadow_diff.py:408-424 | a legacy-only entry diverges if and only if the other log never fired the kind or fired that kind and task fewer times |
| `ShadowLaws.OverlapSetAside` | bench/shadow_diff.py:408-424 | a silent task is set aside as un-joinable although the namespaces overlap |

## Left out

- RewireSettle.IntegrateIdempotentIff: distinct corrected tasks without circular chains; `Arrivals.DistinctSettlesIff` covers circular ones, `RewireFixed.SecondRunFixedIff` every list.
- RewireSettle.SettlesIff: each correcting task once; `RewireFixed.SecondRunFixedIff` covers lists in which trimming makes two ids equal.
- RewireShared.UnchainedSettlesIff: each correcting task once and without chains; `RewireFixed.SecondRunFixedIff` covers every list.
- Arrivals.EdgeSurvivesIff: distinct corrected tasks; `Arrivals.IntegrateLands` covers every list.
- Arrivals.UnchainedArrivesIff: distinct corrected tasks without chains; `Arrivals.RewireAllArrives` and `Arrivals.IntegrateLands` cover every list.
- InstalledPlans.UnchainedRoutesIff: distinct corrected tasks without chains; `InstalledPlans.InstalledValidIff` covers every list.
- InstalledPlans.UnchainedExecutableIff: distinct corrected tasks without chains; `InstalledPlans.InstalledExecutableIff` covers every safe list.
- InstalledPlans.UnchainedTerminalsIff: distinct corrected tasks without chains; `InstalledPlans.InstalledTerminalsIff` covers every safe list.
- Rewire.IntegrateIdempotent: the sufficient condition; `RewireSettle.SettlesIff` is the exact one.
- Rewire.PathsSurvive: of the step-by-step rewiring, not of the loop; `RewireLoop.IntegrateKeepsPaths` is of the loop.
- Rewire.RewireAllAcyclicIff: of the step-by-step rewiring, not of the loop; `RewireLoop.IntegrateAcyclicIff` is of the loop.
- Steer.SteerKeepsTerminals: of the plan selected, before it is installed; `InstalledPlans.SteeredKeeps` is of the installed one.
- Steer.SteerValidIff: of the plan selected; `RepairValidity.SteerReturnsValidIff` is of the one returned.
- RepairValidity.RepairKeepsValid: the sufficient condition; `RepairValidity.RepairValidIff` is the exact one.
- InstalledPlans.UncorrectedKeepsRoutes: one way only; `InstalledPlans.UnchainedRoutesIff` has the exact condition without chains, `InstalledPlans.InstalledValidIff` in general.
- Corrections.ClearCorrectionsForTask: the slots only; the correction notes that the same call evicts are `NoteQueue.Queue.EvictPendingCorrections`.
- Events, sinks, spans, refine-attempt telemetry and wire formats: the emitted event is a plan and its dry-run flag.
- LLM calls, planner prompts, JSON parsing of plans, configuration and command lines.
- Pivots, the initial install's creation-time rule that all tasks are pending, growth on a session without a plan, and the corrections-as-notes regime inside the install.
- The adapter's pin-rewrite hook, in-flight cancellation, and drift classification.
- Descriptions, timestamps and other task fields that no modelled operation reads; derivation of titles and of identity hashes.
- The validator's rules 6 to 8 as loops: they are the predicates that define a valid revision.
- The request object's own append helper and the planner-instruction, tool-hint and resolver parts of the prompt shaper: the block is written by direct assignment.
- Text of notes, annotations and summaries, serialised sizes, content hashes, and the words by which errors are recognised: parameters, except that a redaction counts as failed and is not transient, and a summary is neither.
- A content part that is a call and a response at once, and parts with neither; text parts stand for every other part.
- Whitespace trimming and lower-casing beyond ASCII.
- Fallbacks for malformed objects, attribute errors and failing deep copies.
- The single-log report, the text rendering and the loading of shadow logs.
