# A verified model of the plan governance server and its guards

The repository is a governance server for coding agents and the programs that
sit beside the agent. An agent submits an execution plan; the server validates
it and issues a signed, expiring capability ticket scoped to the plan; a guard
hook lets an edit through only on such a ticket; a store on disk carries
tickets and the active session between these processes. Around this core stand
a livelock detector, a journal tail, a hot-reloadable skill registry, an upload
cache with a self-healing retry, and a report. This project models those pieces
in Dafny and proves what they promise, over all inputs and whole runs.

| file | what it models |
|---|---|
| `Text.dfy` | strings, sorting, splitting |
| `CycleSearch.dfy`, `PlanGraph.dfy` | the three-colour cycle search and structural validation |
| `Conflict.dfy`, `ConflictHistory.dfy` | the livelock detector, its state file, and its history over runs |
| `JournalTail.dfy` | the resumable journal reader |
| `Skills.dfy`, `Verdicts.dfy` | the two-tier registry on the heap, verdicts, reload, isolation |
| `UploadCache.dfy`, `SelfHeal.dfy` | the client's upload cache and the registration retry |
| `Paths.dfy`, `Scope.dfy` | path cleaning, scope matching, the scope cap, derived scopes |
| `Guard.dfy` | tickets, scope guards and the guards' decision |
| `Store.dfy` | the map store, and the file store as interleaved file-system steps |
| `Authority.dfy`, `Safety.dfy` | the whole protocol as an interleaved state machine, its invariant and its safety |
| `HookVerdicts.dfy` | what every verdict of a hook means |
| `SessionEnd.dfy` | when a ticket dies with its session |
| `Sessions.dfy`, `Endpoints.dfy` | the store calls of hooks and client; the server's two handlers |
| `Report.dfy`, `Aggregate.dfy`, `ReportMeaning.dfy` | the report as a specification, the single pass that computes it, and what it says |

Objects the source mutates are classes here (detector, state file, linter and
its inner maps, cache, stream, memory store), with methods proved against a
specification function; concurrent programs are state machines whose steps are
the source's atomic actions, with theorems over every sequence of steps.
Evaluated policies, hashes and the ticket encoding are parameters: a policy is
a deterministic function that may fail, the conflict id is an injective
function where distinctness matters, the plan fingerprint is the plan, and a
ticket is a record only the key's holder makes. Clocks, home directories,
working directories and request fates are parameters too. In `Authority.dfy`
a store call is one step, which `Store.FilesystemRefinesMemory` justifies.

Where the code and its documentation differ, the model follows the code:

- `cmd/ppg/events.go:131-133` promises a resume offset at a line boundary; with
  no newline in the last 256 KiB it is the end of the file, and the line under
  way never arrives whole (`JournalTail.ConnectAtBoundaryIff`, `GiantLineRun`).
- `adapters/claudecode/mcpserver/main.go:252-255` promises self-healing; a skill
  name that `strconv.Quote` escapes is read back wrongly, and heals only if the
  disk holds several contents for it (`SelfHeal.HealsIff`).
- `adapters/claudecode/guard/main.go:212-215` says a ticket dies with its
  session; it does exactly when nothing of the session is in flight at its end
  (`SessionEnd.TicketReturnsIff`, `TicketOutlivesPurge`). The guard still refuses
  such a ticket to every payload naming another session, by the safety theorem.
- `internal/linter/linter.go:454-456` applies the scope cap to the text left when
  wildcards are stripped; it also strips white space, which the matcher does not
  (`Scope.ReachesOutIff`, `Guard.StaysInsideEverywhereIff`).
- Rebuilding the detector from its file is silent except when a command-line
  resolution waits in the file (`ConflictHistory.RestartUnnoticedIff`), and a
  resolution sticks only if no server mutation, of any set, precedes the sync
  (`ConflictHistory.ResolutionSticksIff`, `OtherSetsDoNotMatterIff`).

## Model

| member | source | states |
|---|---|---|
| `Safety.EveryAllowedEditIsAuthorised` | adapters/claudecode/guard/main.go:302-363 | whole-system safety: in every interleaving of session starts, locks, saves, hooks, uploads, reloads, restarts, clock changes and foreign store writes, an edit with verdict "ok" has a trail of earlier steps: the server validated a plan against a registry it then served; the hook read the payload's session, or the one active at that step; it read the ticket's text under that session; it decided at the recorded time; and the server answered the content check. The plan covers the edited path, its ticket was unexpired at both times, it was locked for the payload's session (for the session read, when nothing else wrote to the store), and the content verdict was empty |
| `Authority.RunInv` | adapters/claudecode/mcpserver/main.go:508-532 | the store invariant behind it, over every run: a ticket under key k was issued by the server for session k, for a plan it had validated; with foreign writes, at least issued by the server |
| `Authority.SaveInv` | adapters/claudecode/mcpserver/main.go:174-190 | saving the ticket of a lock reply keeps the store invariant: it goes under the session the plan was stamped with and locked for |
| `Authority.IssueInv` | cmd/ppg/main.go:426-438 | issuing keeps the invariant: only plans past validation get a ticket |
| `Authority.CheckedAuthorises` | cmd/ppg/main.go:489-520 | a ticket that passed the guard and an empty answer of the artifact endpoint point to one recorded lock that authorises the edit |
| `Safety.LockWasValidated` | cmd/ppg/main.go:325-345 | every ticket the server ever issued is for a plan validated at an earlier step, on a registry served at that step |
| `Safety.AllowedEditIsUnderATarget` | adapters/claudecode/guard/main.go:368-377 | with the scope cap on and an absolute working directory, an allowed edit touches a file at or under a target of the locked plan, and stays in that directory when each target is relative and does not escape the cap, or at least names a file of it |
| `Safety.HookAllowsIff` | adapters/copilot/guard/main.go:325-383 | the converse: a hook that finds a plan's ticket under its session and runs undisturbed takes exactly one decision, and allows the edit if and only if the tool writes, the path is a project path covered by the plan, the ticket is unexpired, the sessions agree, and the content verdict is empty |
| `Safety.PermittedIff` | adapters/copilot/guard/main.go:354-382 | guard and server together allow an edit on an issued ticket exactly when scope and content conditions hold |
| `HookVerdicts.VerdictTable` | adapters/claudecode/guard/main.go:302-363 | the verdict table: a hook left to itself takes one decision, and its verdict is nothing-to-guard, guard error, no ticket, ticket rejected, out of scope, session mismatch, violation or allowed if and only if that verdict's cause holds, stated on the payload's fields, the stored ticket, the time and the registry |
| `HookVerdicts.UngatedIff` | adapters/claudecode/guard/main.go:307-318 | over every run: a decision is nothing-to-guard if and only if the tool is none of the ten write names and contains neither "Edit" nor "Write", or the path lies in the plans directory |
| `HookVerdicts.ServerAnswer` | cmd/ppg/main.go:479-521 | the server's answer to a content check, case by case: cannot run, out of scope, or one message for each violation |
| `HookVerdicts.WriteToolIff` | adapters/copilot/guard/main.go:102-109 | the guarded tools: ten names, and every name that contains "Edit" or "Write" anywhere |
| `Authority.AroundTheSessions` | cmd/ppg/main.go:325-466 | time, restarts, uploads and evictions are free to happen at any step and change what they reach |
| `SessionEnd.TicketReturnsIff` | adapters/claudecode/guard/main.go:212-224 | exactly when a ticket dies with its session: some run in which nobody speaks for the session brings a ticket of it back to the store if and only if the session has a ticket, is active, or has a start, a claim or a well-formed lock of its own in flight |
| `SessionEnd.OverStaysOver` | adapters/claudecode/guard/main.go:212-224 | once a session is over it stays over in every run in which nobody speaks for it |
| `SessionEnd.TicketOutlivesPurge` | adapters/claudecode/guard/main.go:216-224 | a run from the very beginning in which a lock answered but not yet saved outlives the purge of the next session's start |
| `SessionEnd.LateSave` | adapters/claudecode/mcpserver/main.go:508-532 | in any state, a purge followed by the save of a lock in flight leaves exactly that session's ticket |
| `Sessions.RecordSession` | adapters/claudecode/guard/main.go:216-224 | both variants of the session start: full purge (Claude Code) or own ticket only (Copilot), then activation; a refused id is not activated |
| `Sessions.ClaimSession` | adapters/copilot/guard/main.go:279-287 | after a tool call of a session with a valid id that session is the active one; no ticket changes |
| `Sessions.ReadTicket` | adapters/copilot/guard/main.go:292-309 | finds the ticket of the payload's session, else of the active one, else none, and changes nothing |
| `Sessions.StampSessionID` | adapters/claudecode/mcpserver/main.go:201-214 | the plan gets the active session's id exactly when there is one |
| `Sessions.SaveTicket` | adapters/claudecode/mcpserver/main.go:508-532 | stores the ticket under the plan's session, and nothing else changes |
| `Sessions.FreshSessionThenSaved` | adapters/copilot/guard/main.go:265-273 | after a session start no ticket answers for the session; a ticket then saved for it is the one its hooks read, with or without the id in the payload |
| `Sessions.StartStepsRecord` | adapters/claudecode/guard/main.go:216-224 | the interleaved steps of a session start, run together, are the session start |
| `Sessions.HookStepsRead` | adapters/claudecode/guard/main.go:229-246 | the interleaved reading steps of a hook, run together, read what the hook reads |
| `Sessions.SubmitStamps` | adapters/claudecode/mcpserver/main.go:201-214 | a plan submitted through the client carries the active session's id, if there is one; a direct one is sent as it is |
| `Sessions.ClaimStepsClaim` | adapters/copilot/guard/main.go:279-287 | the claiming steps of Copilot's hook make the payload's valid session the active one; Claude Code's leave the store alone |
| `Sessions.SaveStepSaves` | adapters/claudecode/mcpserver/main.go:508-532 | the saving step puts the reply's ticket under the plan's session, for the client only |
| `Sessions.RefusedStart` | adapters/claudecode/guard/main.go:216-224 | a start under a refused id activates nothing; Claude Code's has purged by then |
| `Endpoints.Endpoint.HandleLockInPlan` | cmd/ppg/main.go:325-466 | decision order: a malformed plan touches no counter, a clean plan is locked whatever is escalated and clears its session's counters, any other plan is counted once under its canonical policy set and blocked exactly when the detector says so; the ticket is the one for that plan, and the state file follows the counters |
| `Endpoints.Endpoint.HandleVerifyArtifact` | cmd/ppg/main.go:479-521 | answers exactly what the safety theorem assumes of the artifact check: blank path, ticket, scope, then content |
| `Endpoints.LockStepsAgree` | cmd/ppg/main.go:325-438 | the protocol's validate and issue steps, run together, lock a plan with that ticket exactly when the handler does |
| `Endpoints.SamePoliciesSameSet` | cmd/ppg/main.go:346-348 | two rejected plans count towards the same set exactly when their verdicts name the same policies |
| `PlanGraph.ValidateStructure` | internal/plan/plan.go:69-113 | accepts exactly the plans with the required fields, unique ids, existing dependencies and an order in which every dependency precedes its dependent; each refusal names the first defect in the order of the checks |
| `PlanGraph.WellStructuredIff` | internal/plan/plan.go:69-113 | what it accepts, spelled out on the fields of the plan and its steps |
| `PlanGraph.ByteLengthIs` | internal/plan/plan.go:73-75 | the intent's length is counted in bytes of UTF-8 (section 3 of RFC 3629) |
| `PlanGraph.CheckSteps` | internal/plan/plan.go:85-94 | finds the first step with a missing field or repeated id, or none and the set of ids |
| `PlanGraph.CheckDependencies` | internal/plan/plan.go:95-112 | finds the first unknown or self dependency, else a cycle, else none exactly when an execution order exists |
| `PlanGraph.FindDependencyCycle` | internal/plan/plan.go:119-154 | for unique non-empty ids and existing dependencies: empty exactly when the depends-on graph is acyclic, equivalently when the steps can be executed in order; otherwise an id on a cycle |
| `CycleSearch.Search.Visit` | internal/plan/plan.go:132-146 | the recursive visit: terminates as white ids shrink, keeps black ids closed and gray ids above the current one, turns its id black, or returns an id on a cycle |
| `CycleSearch.FindCycle` | internal/plan/plan.go:147-153 | over any closed graph: none exactly when acyclic, with a dependencies-first order as witness, else an id on a cycle |
| `CycleSearch.OrderMeansAcyclic` | internal/plan/plan.go:119-154 | a dependencies-first order of all ids rules out every cycle |
| `CycleSearch.GrayAboveDependency` | internal/plan/plan.go:134-142 | the gray-path invariant passes to the dependency about to be visited |
| `PlanGraph.OrderGivesExecution` | internal/plan/plan.go:69-113 | an ordering of ids found by the search is a permutation of the steps in dependency order |
| `PlanGraph.ExecutionMeansAcyclic` | internal/plan/plan.go:119-154 | conversely, a plan whose steps have an execution order has no dependency cycle |
| `Conflict.ConflictDetector.constructor` | cmd/ppg/conflict.go:71-102 | a new detector starts from the state file, or empty |
| `Conflict.ConflictDetector.ObserveRejection` | cmd/ppg/conflict.go:117-152 | the whole new state, file and answer: blocked and counted when escalated, escalated and cleared at the threshold, else one more |
| `Conflict.ConflictDetector.ObserveSuccess` | cmd/ppg/conflict.go:158-166 | drops the session's counters and nothing else; rewrites the file only if there were any |
| `Conflict.ConflictDetector.SyncFromDisk` | cmd/ppg/conflict.go:172-198 | adopts the file's escalations, keeps the live counters, leaves file and memory equal |
| `Conflict.ConflictDetector.Resolve` | cmd/ppg/conflict.go:204-214 | removes exactly the given escalation, in memory and on file |
| `Conflict.ConflictDetector.Persist` | cmd/ppg/conflict.go:220-255 | the file then holds the whole state |
| `Conflict.EscalationsResolve` | cmd/ppg/escalations.go:260-296 | the command-line process removes the escalation from the file alone |
| `Conflict.ViolationPolicyIDs` | cmd/ppg/conflict.go:259-266 | the sorted, duplicate-free set of policy ids, whatever the order and repetition |
| `Conflict.CanonicalKeyFaithful` | cmd/ppg/conflict.go:118-119 | two non-empty violation lists without NUL in an id get the same key exactly when they name the same set of policies |
| `Conflict.NULBreaksKey` | cmd/ppg/conflict.go:118-119 | with a NUL in an id two different sets can share a key |
| `ConflictHistory.Server.Step` | cmd/ppg/conflict.go:117-214 | the detector class and state file take exactly the steps of the history model, and answer the same |
| `ConflictHistory.RunInStep` | cmd/ppg/conflict.go:220-255 | over every run: stored counters lie in 1..threshold-1, no session keeps an empty map, and the file holds the live counters |
| `ConflictHistory.CounterIsHistory` | cmd/ppg/conflict.go:117-166 | over every run: a counter equals the number of rejections of the set by the session, made while the set was not escalated, since the session's last lock or own escalation of the set |
| `ConflictHistory.EscalatesAtThreshold` | cmd/ppg/conflict.go:134-146 | a set becomes escalated exactly when the rejection just made brings some session's count to the threshold |
| `ConflictHistory.AnswerMeaning` | cmd/ppg/conflict.go:117-152 | after any history, the answer to a rejection: blocked if and only if the set is escalated now; for a set not escalated before, its standing rejections and this one, blocked exactly at the third; for an escalated one, the escalation's new total |
| `ConflictHistory.EscalationRecord` | cmd/ppg/conflict.go:134-146 | a new escalation records the set, and the session and time of the third rejection |
| `ConflictHistory.EscalationPermanent` | cmd/ppg/conflict.go:120-128 | an escalation on file survives every run without a resolve of its id, restarts and syncs included, and every rejection of the set is blocked, from any session |
| `ConflictHistory.EscalationCounts` | cmd/ppg/conflict.go:120-128 | an open escalation keeps its policies, first session and time over every run without a resolve of its id, restarts and syncs included, and counts every further rejection of its set |
| `ConflictHistory.RestartsTransparent` | cmd/ppg/conflict.go:71-102 | restarts anywhere in a run change neither the state nor any answer, as long as none meets a resolution still waiting in the file |
| `ConflictHistory.RestartsTransparentWithoutResolves` | cmd/ppg/conflict.go:71-102 | in particular, in every run without command-line resolves |
| `ConflictHistory.RestartIsSilentIff` | cmd/ppg/conflict.go:71-102 | in any run a restart changes nothing exactly when no resolution waits in the file |
| `ConflictHistory.RestartUnnoticedIff` | cmd/ppg/conflict.go:71-102 | after any history, a restart changes no answer in any continuation if and only if no resolution waits in the file |
| `ConflictHistory.RestartAdoptsPending` | cmd/ppg/conflict.go:71-102 | the witness: a run of four events that leaves a resolution waiting, where a restart turns the next answer from blocked to not blocked |
| `ConflictHistory.OtherSetsDoNotMatter` | cmd/ppg/conflict.go:117-152 | in every history without a resolve of the set's own id, rejections of other sets, however interleaved with locks, restarts, syncs and other resolves, change neither its counters nor its escalation |
| `ConflictHistory.OtherSetsDoNotMatterIff` | cmd/ppg/conflict.go:123-127 | after any history, rejections of other sets make no difference to a set from then on if and only if no resolution of it waits in the file: with one waiting, another set's rejection writes the escalation back |
| `ConflictHistory.ResolutionAdopted` | cmd/ppg/conflict.go:172-198 | resolve, then no mutation, then sync: exactly that escalation is gone, live counters unchanged, memory equals file |
| `ConflictHistory.ResolutionSticksIff` | cmd/ppg/conflict.go:123-127 | a resolution survives to the sync if and only if no server event before it rewrites the state file |
| `ConflictHistory.MutationRestores` | cmd/ppg/conflict.go:123-127 | the first mutation writes the in-memory escalation back to the file |
| `ConflictHistory.OtherCountersSurvive` | cmd/ppg/conflict.go:137-146 | other sessions' counters for a set outlive its escalation and its resolution |
| `JournalTail.TailLines` | cmd/ppg/events.go:134-177 | the newest n of the non-empty complete lines of the scanned window, or all if there are fewer, and the offset just past the last newline; nothing, at the end of file, when the window shows no newline and is not the whole file |
| `JournalTail.FindWindow` | cmd/ppg/events.go:144-158 | where the scanned bytes begin to show whole lines, or that they show none |
| `JournalTail.WindowStartIs` | cmd/ppg/events.go:144-158 | that place is the file's start up to 256 KiB, else the first line boundary inside the last 256 KiB |
| `JournalTail.ReadNewLines` | cmd/ppg/events.go:182-212 | one poll: the complete non-empty lines between the offset and the size seen at the stat, the next offset, and whether the file was replaced |
| `JournalTail.EventStream.constructor` | cmd/ppg/events.go:95-99 | the replayed lines and the resume offset |
| `JournalTail.EventStream.Tick` | cmd/ppg/events.go:108-116 | one turn of the polling loop |
| `JournalTail.BoundarySplitsLines` | cmd/ppg/events.go:182-212 | a line boundary cuts the lines of a file in two, none lost and none torn |
| `JournalTail.PollDelivers` | cmd/ppg/events.go:182-212 | a poll from a boundary ends at a boundary and delivers exactly the lines between, however much the file grew after the stat |
| `JournalTail.ExactlyOnceFrom` | cmd/ppg/events.go:108-116 | over any run of appends and polls from a boundary: the lines sent are exactly the complete lines up to the offset, in order; a reading poll leaves none unsent |
| `JournalTail.ExactlyOnce` | cmd/ppg/events.go:95-116 | the whole stream of one client: the newest n lines of the window, or all if there are fewer, then every line completed since connect, once each, in order, untorn |
| `JournalTail.MissingFileThenAll` | cmd/ppg/events.go:134-138 | a client that connects before there is a file gets every line of it once it comes |
| `JournalTail.RotationRestarts` | cmd/ppg/events.go:110-113 | after a detected rotation the offset is 0 and the fresh file is delivered whole |
| `JournalTail.ConnectAtBoundaryIff` | cmd/ppg/events.go:146-176 | the resume offset is a line boundary exactly when the window shows a newline or holds the whole file |
| `JournalTail.GiantLineIsTorn` | cmd/ppg/events.go:152-155 | otherwise the line being written never arrives whole: when its newline lands only the bytes after the connect are sent, nothing if there were none |
| `JournalTail.GiantLineRun` | cmd/ppg/events.go:95-116 | and over any run of appends and polls from such a connect: the frames sent are the lines of the bytes since it, that is, the torn rest of the first line and then every later line whole |
| `Skills.Linter.RegisterSessionSkill` | internal/linter/linter.go:251-275 | refuses an empty session or name and a module that does not compile, changing nothing; else sets one entry of one session, in a map no other session shares |
| `Skills.Linter.AdoptSessions` | internal/linter/linter.go:281-294 | the new linter holds every session of the old one in fresh maps shared with nobody |
| `Skills.Linter.UnregisterSession` | internal/linter/linter.go:298-302 | removes one session and nothing else |
| `Skills.Linter.LookupSkill` | internal/linter/linter.go:337-349 | finds a name exactly in the merged tiers, operator over session |
| `Skills.Linter.EvaluateSkillCompanion` | internal/linter/linter.go:357-382 | nothing for no declared skill, one unknown_skill for an unregistered one, its violations or one evaluation error otherwise |
| `Skills.Linter.EvaluateAllSkills` | internal/linter/linter.go:511-543 | walks the merged tiers in sorted order, skipping the declared skill, whatever the map order |
| `Skills.Linter.EvaluateArtifact` | internal/linter/linter.go:482-487 | declared skill, then the walk, then the corpus, on the artifact view |
| `Skills.Linter.EvaluateChangeset` | internal/linter/linter.go:493-498 | the same on the changeset view |
| `Skills.Linter.Validate` | internal/linter/linter.go:187-195 | scope cap unless lifted, declared skill, corpus, on the plan view |
| `Skills.WideScopeViolations` | internal/linter/linter.go:436-452 | one violation per wide target, in plan order |
| `Skills.HotReload` | cmd/ppg/main.go:189-197 | the reloaded linter has the new operator tier and corpus and every session completed before, in separate maps |
| `Skills.LateRequestsAfterReload` | internal/linter/linter.go:289-293 | no sequence of uploads and evictions on the old linter after the swap reaches the new one |
| `Verdicts.ContentVerdictIDs` | internal/linter/linter.go:482-498 | the multiset of policy ids is the sum over the merged tiers, each skill once, plus the corpus once, plus one unknown_skill exactly when a non-empty declared id is in neither tier |
| `Verdicts.UploadedPolicyJudges` | internal/linter/linter.go:511-543 | whatever a registered policy finds is in the session's content verdict, declared or not, unless an operator skill shadows its name |
| `Verdicts.FailedPolicyReported` | internal/linter/linter.go:511-543 | a registered policy that fails to evaluate is reported as a violation |
| `Verdicts.PlanVerdictIDs` | internal/linter/linter.go:187-195 | the policy ids of a plan's verdict: the cap once for each wide target unless lifted, the declared skill's, and the corpus's |
| `Verdicts.TierIsHistory` | internal/linter/linter.go:251-302 | over every run: a session's tier holds a name if and only if an accepted upload of it still stands, bound to that upload's policy |
| `Verdicts.ReloadIsHistory` | internal/linter/linter.go:281-292 | over every run: operator tier and corpus are those of the last reload |
| `Verdicts.DeclaredSkillIrrelevant` | internal/linter/linter.go:511-543 | the policies violated are the same for every declared id that is registered or empty |
| `Verdicts.TierIsolation` | internal/linter/linter.go:251-302 | over every run of uploads, evictions and reloads, a session's content and plan verdicts depend only on the reloads and its own uploads |
| `Verdicts.ShadowedUpload` | internal/linter/linter.go:337-349 | an upload under an operator-held name changes no verdict; one that does not compile changes nothing |
| `Verdicts.AcceptedPlan` | internal/linter/linter.go:187-195 | a plan with no violations is within the scope cap (unless lifted), declares no unknown skill and passes the corpus |
| `Verdicts.AcceptedIff` | internal/linter/linter.go:187-195 | a plan validates exactly when it is within the cap (unless lifted), its declared skill, if any, is registered and finds nothing, and the corpus finds nothing |
| `Verdicts.WideScopeEmptyIff` | internal/linter/linter.go:436-452 | the cap is silent exactly when no target is wide |
| `Verdicts.RunNamed` | internal/linter/linter.go:251-254 | no run registers a skill under the empty name |
| `Paths.CleanIdempotent` | internal/smarttools/smarttools.go:234-240 | the cleaned form of a path is already clean |
| `Paths.CleanEqualIff` | internal/smarttools/smarttools.go:237-241 | two paths clean to the same text exactly when they have the same rootedness and segments |
| `Scope.TargetAllowedIff` | internal/smarttools/smarttools.go:233-249 | a target is allowed if and only if some entry, less one star, is the project root or has the target's rootedness and a prefix of its segments, "/" covering only itself |
| `Scope.NestedScopeComposes` | internal/smarttools/smarttools.go:233-249 | what a scope allows, taken as a star-free scope of its own, allows no more |
| `Scope.SiblingRefused` | internal/smarttools/smarttools.go:241-246 | a sibling sharing only a character prefix with an entry is never allowed by it |
| `Scope.IsWideTargetIff` | internal/linter/linter.go:457-471 | a target is wide exactly when, trimmed of white space and stars, it names the project root, the file-system root or something above |
| `Scope.UpwardTargetIsWide` | internal/linter/linter.go:457-471 | whatever the different trims leave, an entry the matcher would read as allow-all, or as a directory above, comes from a wide target |
| `Scope.CapSound` | internal/linter/linter.go:457-471 | no scope entry of a plan within the cap reaches the matcher's allow-all branch |
| `Scope.ReachesOutIff` | internal/linter/linter.go:457-471 | exactly which targets within the cap give an entry reaching out of the project: those whose leading white space hides a rooted path that, read as a relative one, climbs two levels |
| `Scope.UnspacedKeepsInside` | internal/linter/linter.go:457-471 | in particular, none that does not begin with white space |
| `Scope.LeadingSpaceMatters` | internal/linter/linter.go:458-470 | a family of targets within the cap that do reach out: the cap trims leading white space, the matcher does not |
| `Scope.OwnEntryAllowsIff` | internal/smarttools/smarttools.go:233-249 | a target within the cap is allowed by the entry it gives rise to exactly when it has no trailing star or its star stands at a segment boundary |
| `Scope.OwnTargetsAllowed` | internal/ticket/ticket.go:121-137 | hence a plan within the cap is allowed each such target by its own derived scope |
| `Scope.DeriveScope` | internal/ticket/ticket.go:121-137 | the distinct targets and tools of the steps, in order of first appearance |
| `Scope.ScopeOfIs` | internal/ticket/ticket.go:121-137 | the derived scope holds exactly the targets of the steps and the tools of the steps, each once |
| `Scope.TrimSpaceIs` | internal/linter/linter.go:458 | trimming takes all white space off both ends and nothing else |
| `Scope.TrimRightStarsIs` | internal/linter/linter.go:462 | all trailing stars come off and nothing else |
| `Guard.TicketLifetime` | internal/ticket/ticket.go:147-185 | a ticket opens only under its key and only within its lifetime, eight hours when none is set; whole-second dates cost it less than a second (section 4.1.4 of RFC 7519) |
| `Guard.IssuedTicketSays` | internal/ticket/ticket.go:147-167 | an issued ticket carries the plan's session, skill, fingerprint and derived scope, with whole-second dates |
| `Guard.GuardTargetsIs` | internal/smarttools/smarttools.go:110-125 | the scope check of any ticket and any targets: invalid, granted, or the first target not covered |
| `Guard.GuardToolIs` | internal/smarttools/smarttools.go:91-105 | at a tool's entry the tool is checked after the targets |
| `Guard.IssuedTicketGrantsIff` | internal/smarttools/smarttools.go:91-125 | a tool call is granted on an issued ticket exactly when the key is right, the ticket unexpired, the tool named by a step and every target covered by the plan's targets |
| `Guard.GuardOneTarget` | internal/smarttools/smarttools.go:110-125 | the check of one target: expired, out of scope or granted, in terms of the plan's own targets |
| `Guard.DecideTicketIff` | adapters/claudecode/guard/main.go:325-344 | the ticket part of the decision lets through exactly an unexpired ticket of the same session covering the path |
| `Guard.ContentReachedIff` | adapters/copilot/guard/main.go:325-366 | the content check is reached exactly by a write tool on a real project path whose ticket lets it through |
| `Guard.RelativeTargetKeepsFile` | adapters/claudecode/guard/main.go:368-377 | from an absolute working directory the relative target names the same file as the path given, climbing included |
| `Guard.RelativeTargetCleans` | adapters/claudecode/guard/main.go:368-371 | without one, the target is the cleaned path |
| `Guard.RelativeTargetIs` | adapters/claudecode/guard/main.go:368-377 | the relative target in full: the names below the directory, unless the first starts with two dots, else the cleaned path |
| `Guard.CoveredEditIsUnder` | adapters/copilot/guard/main.go:388-397 | within the cap, a covered edit from an absolute working directory touches a file at or under a target's file |
| `Guard.StaysInsideIff` | internal/smarttools/smarttools.go:233-249 | for any given absolute working directory: the edits a plan within the cap covers from there all stay in it if and only if each target names a file of it |
| `Guard.StaysInsideEverywhereIff` | internal/smarttools/smarttools.go:233-249 | and from every absolute working directory if and only if no target is an absolute path or escapes the cap |
| `Guard.HarnessMetadataIff` | internal/smarttools/smarttools.go:203-223 | the exemption is exactly the plans directory of the home, absolute or not, and what lies under it |
| `Store.Memory.Perform` | internal/store/memory.go:19-89 | the class performs each operation as the map store does, invalid ids included |
| `Store.RefusedIff` | internal/store/filesystem.go:191-199 | a call is refused, and changes nothing, if and only if its session id is empty or holds a slash, a backslash or a NUL |
| `Store.FilesystemRefinesMemory` | internal/store/filesystem.go:85-186 | in every interleaving of file-system steps each operation takes effect at one step of its own process between its call and its noting, answers what the map store answers there, and nothing else changes the store; its entry names the step that made the call |
| `Store.ReturnedCallsLinearise` | internal/store/filesystem.go:85-186 | every call that returned, locked or not, valid or not, has exactly one entry, which took effect as the map store would between the step of the call and the step of the return |
| `Store.CallAloneCompletes` | internal/store/filesystem.go:85-186 | after any run in which no other process holds the lock, the call's own steps bring it to its return with the map store's answer and effect |
| `Store.FilesHoldTheStore` | internal/store/filesystem.go:211-256 | after any run the files hold the tickets and the active session, each ended by a newline; during a purge some ticket files are gone |
| `Store.RealTimeOrder` | internal/store/filesystem.go:85-106 | an operation noted before another began takes effect before it |
| `Store.ReturnedFirstTakesEffectFirst` | internal/store/filesystem.go:85-106 | in terms of steps: a call that returned before another was made takes effect before it |
| `Store.ReadsAreWhole` | internal/store/filesystem.go:122-179 | every Get and GetActive answers not-found or a value some put wrote whole |
| `Store.RunInv` | internal/store/filesystem.go:211-256 | the disk invariant over every run: lock exclusion, whole files, agreement with the map store outside a running purge |
| `Store.ReadUnlockedInv` | internal/store/filesystem.go:78-97 | the unlocked first read keeps the invariant: a missing file then linearises at the moment no lock file was there |
| `Store.ReadBackIff` | internal/store/filesystem.go:247-256 | a value is read back exactly when it does not end in white space |
| `UploadCache.SkillRegistrationCache.ShouldSkip` | adapters/claudecode/mcpserver/main.go:372-381 | skips exactly an unchanged digest, and records the new one before anything is sent |
| `UploadCache.SkillRegistrationCache.Forget` | adapters/claudecode/mcpserver/main.go:389-402 | drops the named entry, or with no name every entry of the session |
| `UploadCache.Client.ScanSkillDir` | adapters/claudecode/mcpserver/main.go:442-489 | one root's scan is the cached upload of its packages in order |
| `UploadCache.Client.RegisterLocalSkills` | adapters/claudecode/mcpserver/main.go:431-435 | a pass over all roots, ascending precedence |
| `UploadCache.Client.LockWithRegistrationRetry` | adapters/claudecode/mcpserver/main.go:256-284 | register, lock, and on unknown skills forget just the reported names, register and lock once more |
| `UploadCache.Client.UnknownSkillsIn` | adapters/claudecode/mcpserver/main.go:324-345 | the names quoted by the unknown_skill violations, in order |
| `UploadCache.QuotedName` | adapters/claudecode/mcpserver/main.go:349-362 | the text between the first two double quotes, or nothing |
| `UploadCache.NameRecoveredIff` | adapters/claudecode/mcpserver/main.go:349-362 | the client recovers the skill's name from the linter's message exactly when the name needs no escaping |
| `SelfHeal.KeysMeetIff` | adapters/claudecode/mcpserver/main.go:372-374 | two sessions' cache keys can meet exactly when one id is the other followed by a bar and more |
| `SelfHeal.BarFreeApart` | adapters/claudecode/mcpserver/main.go:372-374 | ids without a bar never meet |
| `SelfHeal.MeetingKeysLoseAnUpload` | adapters/claudecode/mcpserver/main.go:372-381 | when they meet, a package of one session hides one of the other with the same contents: the cached passes leave it unregistered, the uncached ones register it |
| `SelfHeal.PassRefines` | adapters/claudecode/mcpserver/main.go:442-489 | one cached pass leaves the server's registry as the uncached pass, and the cache again faithful |
| `SelfHeal.CachedEqualsUncached` | adapters/claudecode/mcpserver/main.go:431-489 | over any run of passes with no restart and no lost request, for sessions whose keys cannot meet and contents their digest determines, the cache leaves the server as uploading everything every time |
| `SelfHeal.MovedTextIsSkipped` | adapters/claudecode/mcpserver/main.go:462-465 | why digest-determined content is assumed: moving text between the two files keeps the digest, and the edit is never uploaded |
| `SelfHeal.SendsIffContentDiffers` | adapters/claudecode/mcpserver/main.go:462-465 | with the entry of a scan of one package in the cache, a scan of another of its name sends a request if and only if the hashes of both files, taken whole, differ |
| `SelfHeal.UploadRegistersPolicy` | adapters/claudecode/mcpserver/main.go:466-486 | an upload that arrives registers the policy compiled from the package, if the names are not blank and it compiles; a lost one changes nothing |
| `SelfHeal.HigherRootWins` | adapters/claudecode/mcpserver/main.go:431-435 | between roots: a name maps to its last accepted package in the last root that has one |
| `SelfHeal.LastRootWins` | adapters/claudecode/mcpserver/main.go:431-435 | a name maps to its last accepted package in precedence order |
| `SelfHeal.PassTouchesOnlyItsNames` | adapters/claudecode/mcpserver/main.go:442-489 | a pass changes no other name and no other session |
| `SelfHeal.AtMostTwoLocks` | adapters/claudecode/mcpserver/main.go:256-284 | one or two lock requests, whatever happens |
| `SelfHeal.SecondAttemptIff` | adapters/claudecode/mcpserver/main.go:256-284 | there is a second attempt if and only if the plan has a session, the first lock was answered and the answer names an unknown skill |
| `SelfHeal.LockRequestIs` | adapters/claudecode/mcpserver/main.go:256-263 | one lock request: what a restart, a lost request and a lost reply do to it |
| `SelfHeal.VerdictUnknowns` | adapters/claudecode/mcpserver/main.go:324-345 | what the client reads off a rejected plan, whatever the policies: the declared skill when neither tier has it, and the names policies themselves report as unknown |
| `SelfHeal.SelfHeals` | adapters/claudecode/mcpserver/main.go:256-284 | whatever the server lost before, even by a restart between the scan and the first lock, a declared skill that is on disk, accepted and needs no escaping is known at the end when the rest of the call gets through: the reply names no unknown skill. Assumes `Honest` (no policy run on this plan, that is the corpus or one of the declared name, registered or on disk, itself reports unknown_skill) and `DigestDetermined` (on disk, packages of one name with equal hashes of both files have equal policy text) |
| `SelfHeal.SkillEndsRegistered` | adapters/claudecode/mcpserver/main.go:256-284 | without `Honest`: for a well-formed plan the skill is registered when such a call ends, and the reply names as unknown only what policies report themselves |
| `SelfHeal.HealsIff` | adapters/claudecode/mcpserver/main.go:256-284 | exactly when a call that gets through heals: the first lock found the skill, or its name needs no escaping, or the disk holds several contents for it; under the same two assumptions |
| `SelfHeal.PassReplaces` | adapters/claudecode/mcpserver/main.go:442-489 | a scan over packages of differing content registers the name even with its entry still cached |
| `SelfHeal.EscapedNameNeverHeals` | adapters/claudecode/mcpserver/main.go:271-274 | otherwise, whatever the fates of the requests, the wrong name is forgotten, the upload skipped again, and the skill still reported unknown; assumes `Honest` |
| `Report.StableSortSorts` | cmd/ppg/report.go:162-163 | the events in time order, none lost or repeated |
| `Report.FilterSort` | cmd/ppg/report.go:162-163 | sorting is stable for every class of events |
| `Report.SameTimeKeepsOrder` | cmd/ppg/report.go:162-163 | events of one time keep their journal order |
| `Report.StableSortIs` | cmd/ppg/report.go:162-163 | the sorted journal is the one list in time order that keeps the events of each time in journal order |
| `Report.LongestRunMeaning` | cmd/ppg/report.go:210-213 | the reject-run maximum is the largest number of rejections in any stretch of the session without a lock |
| `Aggregate.ObservedIsRecord` | cmd/ppg/report.go:205-250 | one event through the switch turns the record of a session's past into the record of its past and that event |
| `Aggregate.Aggregate` | cmd/ppg/report.go:162-283 | the single pass computes the declarative report: one line per session in order of appearance, policy counts, reason totals, ranking |
| `Aggregate.LineFromOwnEvents` | cmd/ppg/report.go:162-264 | a session's line depends only on that session's own events in time order |
| `Aggregate.TwoRejectionsIff` | cmd/ppg/report.go:260-268 | asked-twice holds exactly when some stretch without a lock has two rejections |
| `Aggregate.FlagShownIffTrue` | cmd/ppg/report.go:205-268 | each flag shows exactly when what it is documented to say is true of the session |
| `ReportMeaning.MeaningsSpelledOut` | cmd/ppg/report.go:205-250 | what makes the flags true, on the events' own kinds, reasons and outcomes |
| `ReportMeaning.LineSpelledOut` | cmd/ppg/report.go:205-250 | the numbers of a line are the numbers of places where the session's events of that kind stand |
| `ReportMeaning.OwnEvents` | cmd/ppg/report.go:171-175 | a line's events are those of its session, or those without one |
| `ReportMeaning.SeenInIs` | cmd/ppg/report.go:189-205 | where a policy was seen: the names of the four kinds of events that carry it |
| `ReportMeaning.RankedMostFirst` | cmd/ppg/report.go:276-281 | the policy violated most often comes first, ties in the order of their ids |
| `Aggregate.CountPolicies` | cmd/ppg/report.go:188-202 | policy counts stay equal to total occurrences, event names listed once each |
| `Aggregate.RankingUnique` | cmd/ppg/report.go:276-281 | the ranking is strict: its description has one list |
| `Aggregate.ReportBlocksAgree` | cmd/ppg/report.go:227-233 | per-session blocks and per-reason totals both sum to the number of blocks |

## Left out

- HTTP, JSON, SSE framing, MCP, flags, logging, telemetry and dashboards; a malformed body is only an error reply.
- Rego compilation and evaluation, and the text of violation messages other than the unknown-skill one, whose quoting the retry depends on; the scope cap's message is shortened.
- Cryptography: SHA-256, HMAC and JWT encoding are ideal functions; key files and mismatched keys are not modelled beyond a guard that uses another key.
- Strings are sequences of Unicode code points, so invalid UTF-8 is not modelled; `unicode.IsPrint` is a parameter.
- Corrupt or unreadable state and journal files, failed writes of the state file, and the escalation log with its policy sources.
- The journal's own rotation by rename: only its detection by the reader is modelled, so lines written to a rotated-away file between the last poll and the rename are outside the model, as is a replacement that is already as long as the old offset.
- Store.FilesystemRefinesMemory: covers session ids that name a plain file (not ".", ".." or a temporary-file name) and values that do not end in white space; permissions, directory creation, orphan temporary files and a crash in the middle of a purge are not modelled.
- Registrations that land on the old linter between the copy of its sessions and the swap are lost by the source; the reload is modelled as the copy followed by the swap, with late requests going to the old linter.
- Skills.Linter.EvaluateArtifact: the source takes its lock once per pass, so a registration may fall between the two passes; one evaluation sees one registry here.
- Guard.RelativeTargetKeepsFile: for an absolute working directory; symbolic links and Windows separators are not modelled.
- SelfHeal.CachedEqualsUncached: for sessions whose keys cannot meet and contents their digest determines; `MeetingKeysLoseAnUpload` and `MovedTextIsSkipped` show both are needed.
- SelfHeal.SelfHeals, SelfHeal.HealsIff, SelfHeal.EscapedNameNeverHeals: assume that the corpus and the policies of the declared name do not report unknown_skill themselves, since a policy may; `SkillEndsRegistered` and `VerdictUnknowns` hold without it. The first two also assume that digests determine the policy text, as `MovedTextIsSkipped` shows they must.
- Authority.RunInv: a ticket the server issues reads back as it was written; nothing is assumed of any other text.
- Conflict.EscalationsResolve: the command line's load, resolve and persist are one step; a server write between its load and its persist is not modelled.
- Front-matter parsing of skill files, skill-directory discovery, and the fallback name of a skill.
- The changeset handler, the generic tool endpoint and the tools' payload handling; `Guard.IssuedTicketGrantsIff` models the check at a tool's entry.
- Verifying guards' infrastructure errors (unresolvable roots, unreadable keys), which block before any decision.
- `ppg-verify`, preflight, the service catalogue, ranking, enrichment, debt report, policy translators, corpus watching and scripts.
