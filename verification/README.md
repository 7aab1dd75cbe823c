# Form-Respondent-Role: a Dafny model

Form-Respondent-Role grants Discord roles from form answers. Members submit forms; conditions on
a role link decide whose answers qualify; two sync jobs keep RoleLogic's user lists, and a local
mirror of them, equal to the qualifying set; a durable queue drives the jobs. This project models
that logic and states what holds of it over every input, every run and every interleaving.

| file | what it holds |
|---|---|
| `Wrappers`, `Text`, `Json`, `Order`, `Permutations` | result types, string and decimal arithmetic, JSON values, the ordered set of users, reordered sequences |
| `Conditions` | condition rows, the evaluator both sync paths share, and the algebra of its operators |
| `RoleConfig`, `RolePage` | validating, normalising, storing and re-reading a role config; the save handler |
| `Forms`, `Answers`, `Quiz` | form sanity, answer normalisation, grading, answer keys, shuffling |
| `Retry` | the retry decision, folded over whole submit histories |
| `Submissions`, `SubmitRuns` | the submit handler as code over tables; concurrent submit transactions as a state machine |
| `Upload` | the single PUT and the chunked upload against a staged and a committed list |
| `SyncModel`, `SyncEngine`, `SyncTheory` | one run of each sync job as a function of the tables; the jobs as code equal to those functions; agreement, stability, confluence and the mirror |
| `Lifecycle`, `Convergence` | everything that happens to the tables between sync jobs; the jobs each request enqueues against what it put out of date |
| `Jobs`, `JobRuns`, `Worker` | the queue's statements as code; whole runs under many workers; the worker loop as such a run |
| `RoleKept` | from one submit transaction to the role lists: what "you passed" is worth |
| `Csv` | the export and a reader for it |

Where the source updates in place, a class carries the same fields and each method is proved to
reach a state given by a function of the old one (`SyncEngine.Engine`, `Jobs.JobQueue`,
`Submissions.Desk`, `RolePage.Page`); the theorems are about those functions. Database statements
are atomic steps. The regular expression engine, date parsing and lower-casing are arbitrary
functions (`Json.Host`): every result holds for all choices of them, save that the two about
capitals in quiz answers and keys ask lower-casing to fold ASCII capitals. Replies of RoleLogic
and the gateway are arbitrary per call. Clocks are parameters, in whole milliseconds.

## What turned out false, and exactly when it holds

- Unlinking does not always keep the mirror equal to RoleLogic's lists: `SyncTheory.UnlinkKeepsMirrorExactly`, with a failing call in `SyncTheory.FailedUnlinkLosesTrack`.
- A player job that reports success has not always repaired what it was queued for, and then no job is left that would: `Convergence.SettlesExactly`, with a failing call in `Convergence.CompletedWithoutEffect`.
- Reaping breaks single ownership when a live worker outstays the lock timeout: `JobRuns.ReapNeedsLease` and `JobRuns.LeasedExactly`, with runs that show it in `JobRuns.OverstayedLease` and, with two ordinary jobs, `JobRuns.TwoLongJobsOverstay`.
- "You passed" is not a lasting promise under every retry setting: `Retry.PassingSticksExactly`.
- `neq` is not always the complement of `eq`: `Conditions.NeqComplementsEq`.
- Answer normalisation is not idempotent on whole numbers beyond 64 bits: `Answers.ValidationIsIdempotent`, with the inputs in `Answers.HugeAnswersDoNotSettle`.
- The receipt's next time is not the page's next time: `Submissions.ReceiptMatchesPage`.
- A role link saved with an unusual spelling of its form's id is bound to no responses: `RolePage.SaveKeepsGuildRuleExactly`, with an id in capitals in `RolePage.CapitalsBreakTheGuildRule`.
- Saving a role page unchanged does not keep a link nobody has saved yet: `RoleConfig.UnconditionedLinksSurviveExactly`.

## Model

| member | source | states |
|---|---|---|
| SyncTheory.PathsAgree | src/services/sync.rs:27-531 | From well-formed tables, any two fault-free mixes of player jobs and role-link jobs that between them reach every user with a stake, or every bound link, end in the same tables and the same remote lists, in whatever order the jobs came. |
| SyncTheory.ScopeIsComplete | src/services/sync.rs:45-83 | The union of gateway, response and assignment guilds misses no link the user qualifies for or is assigned to. |
| SyncTheory.DesiredMeans | src/services/sync.rs:552-602 | A user is in the bulk set exactly when they have a response that meets the link and have not opted out: the question the player path asks. |
| SyncTheory.PlayerDecides | src/services/sync.rs:157-218 | Where the opt-out lookup worked and RoleLogic took the call with room to spare, the user ends up on the link exactly when they belong to the bulk set. |
| SyncTheory.PlayerTouchesOnly | src/services/sync.rs:116-161 | On surviving links a player job changes no other user, and nothing in a guild whose opt-out lookup failed. |
| SyncTheory.PlayerKeepsUnvetted | src/services/sync.rs:132-161 | A link of a guild whose lookup failed keeps its registration. |
| SyncTheory.CleanRunSettles | src/services/sync.rs:27-531 | A sequence of fault-free jobs brings exactly the users and links it reaches to their goal and leaves every other assignment as it was. |
| SyncTheory.FinalCleanRunWins | src/services/sync.rs:220-352 | Any history of partly failed player jobs of a user followed by a fault-free one equals the fault-free one alone, on the world without the links reported deleted on the way. |
| SyncTheory.AnyHistoryWashesOut | src/services/sync.rs:27-531 | Any history of player and role-link jobs of anyone, with stale opt-outs, full lists, failures and deletions, followed by a fault-free run over everyone equals that run alone, on the world without the links reported deleted on the way: nothing that went wrong leaves a trace. |
| SyncTheory.NoFlapping | src/services/sync.rs:168-217 | Once every link is stable, capped ones included, a sequence of player and role-link jobs on unchanged data does no more than forget the links RoleLogic reports deleted, whichever lookups, calls and chunks fail; without such a report it changes nothing. |
| SyncTheory.StablePlayer | src/services/sync.rs:204-217 | On stable links a player job at most proposes an addition the full list refuses, and forgets links reported deleted. |
| SyncTheory.StableBulk | src/services/sync.rs:443-460 | On a stable link a role-link job at most uploads the list that is already there, or forgets the link if it is reported deleted. |
| SyncTheory.BulkStabilises | src/services/sync.rs:412-531 | A served role-link job leaves its link stable; it succeeds exactly when the list is in place already or can be placed under the cap, and otherwise changes nothing. |
| SyncTheory.BulkPassStabilises | src/services/sync.rs:359-531 | A pass of served role-link jobs over every unstable link makes all links stable. |
| SyncTheory.BulkPassThenQuiet | src/services/sync.rs:359-531 | After such a pass, links cut at their caps included, any further jobs on unchanged data, failing ones included, at most forget links reported deleted, and change nothing without such a report. |
| SyncTheory.BulkTouchesOnly | src/services/sync.rs:510-530 | A role-link job leaves every other link alone. |
| SyncTheory.ConvergedThenQuiet | src/services/sync.rs:27-531 | After one fault-free run over everyone, any further jobs on unchanged data, failing ones included, at most forget links reported deleted, and change nothing without such a report. |
| SyncTheory.PlayerKeepsMirror | src/services/sync.rs:244-345 | Whatever RoleLogic answers to each call of a player job, role_assignments keeps listing RoleLogic's members of every registered link, and the foreign key and guild rules keep holding. |
| SyncTheory.BulkKeepsMirror | src/services/sync.rs:389-530 | The same for a role-link job. |
| SyncTheory.UnlinkKeepsMirrorExactly | src/services/sync.rs:608-648 | An unlink keeps the two equal exactly when RoleLogic took the user off, or reported gone, each link they were listed on; the local rows go in any case. |
| SyncTheory.FailedUnlinkLosesTrack | src/services/sync.rs:631-645 | One user on one link, one failed call: RoleLogic keeps the user and the local row is gone. |
| SyncEngine.Engine.SyncForPlayer | src/services/sync.rs:27-353 | The job as code reaches exactly the modelled state and result, for every completion order of its concurrent actions. |
| SyncEngine.Engine.Execute | src/services/sync.rs:238-347 | Performing the actions one by one, in any order, applies all of them at once. |
| SyncEngine.Engine.VetGuilds | src/services/sync.rs:116-142 | The lookup loop sorts the guilds with links into opted out, unknown and the rest. |
| SyncEngine.Engine.PlanActions | src/services/sync.rs:157-218 | The loop plans an addition exactly for a qualifying unassigned link, a removal exactly for an assigned link no longer qualified for, and nothing in an unknown guild. |
| SyncEngine.Engine.SyncForRoleLink | src/services/sync.rs:359-531 | The bulk job as code, with its sorted-list skip and its second, capped upload, reaches exactly the modelled state and result. |
| SyncEngine.Engine.RemoveAllAssignments | src/services/sync.rs:608-648 | The unlink loop reaches exactly the modelled state. |
| SyncEngine.QueryQualifying | src/services/sync.rs:557-602 | Streaming the rows into an ordered set yields, strictly ascending, the distinct authors of a qualifying response, or the limit-many least of them. |
| Order.CapIsStable | src/services/sync.rs:553-556 | One more qualifying member changes a capped list by at most that member in and one other out. |
| Order.TruncateIsLeast | src/services/sync.rs:597-601 | Truncating the ascending list keeps exactly its n least members. |
| Order.AscendingUnique | src/services/sync.rs:443-460 | Two sorted, duplicate-free lists are equal exactly when they hold the same users. |
| Lifecycle.TablesStaySound | src/routes/admin.rs:1031-1929 | Over every history of form creation and deletion, submissions, deletions, config saves, registrations and removals by the plugin (src/routes/plugin.rs:37-159), sync jobs and landed unlinks, the foreign key and guild rules hold and the mirror equals RoleLogic's lists. |
| Lifecycle.PathsAgreeAfterAnyHistory | src/services/sync.rs:27-531 | From a fresh install, after any such history, the two sync paths agree, and once they have reached everyone further jobs at most forget links reported deleted. |
| Convergence.NothingIsForgotten | src/routes/admin.rs:925-1957 | From a fresh install, over every history of requests, form edits, failed attempts and landed finishes of jobs, each handler enqueueing its own: whoever is not where they belong on a form-bound link is reached by an unfinished job, and when none is left every such link lists exactly its qualifying members, here and at RoleLogic. |
| Convergence.HandleAccounts | src/routes/form_render.rs:654-679 | A request puts out of date only memberships its handler enqueues a job for. |
| Convergence.SettlesExactly | src/services/sync.rs:220-531 | A job whose lookups worked brings every membership it is there to repair to its goal exactly when each call it found necessary was served in full or answered that the link is gone. |
| Convergence.CompletedWithoutEffect | src/services/sync.rs:238-352 | From a fresh install to a first submission whose one call fails: the player job reports success, so it is completed, the member is not on the list, and no job is left. |
| Upload.UploadUsers | src/services/rolelogic.rs:247-309 | For a list of any length the chunked flow leaves the server where one atomic PUT would: its committed set is the list's set on success and what it was otherwise, with the error the caller tells apart. |
| Upload.Chunks | src/services/rolelogic.rs:267-269 | The chunks are non-empty, no longer than the limit, and concatenate to the list. |
| Jobs.JobQueue.ClaimBatch | src/services/jobs.rs:114-138 | Claims exactly the oldest due rows, at most a batch, counts one attempt on each, and returns each once as it now stands, in any order. |
| Jobs.JobQueue.SelectDue | src/services/jobs.rs:125-130 | The scan stops with exactly the oldest due ids. |
| Jobs.JobQueue.FailRetry | src/services/jobs.rs:156-172 | Requeues the row with a delay computed from the attempts handed out; only the id is matched. |
| Jobs.JobQueue.ReapStuck | src/services/jobs.rs:195-208 | Revives exactly the rows locked longer than the limit and returns how many. |
| Jobs.JobQueue.EnqueueConfigSyncUnlessQueued | src/services/jobs.rs:253-279 | Afterwards exactly the waiting syncs of the link there were, or one new one if there was none. |
| Jobs.BackoffGrows | src/services/jobs.rs:210-219 | Every wait lies between 2 and 257 seconds and, below the ceiling, is longer than the one before whatever the jitter. |
| JobRuns.QueueStaysSound | src/services/jobs.rs:111-208 | In every state of a run in which no reap meets an overdue live holder: rows are locked exactly while in progress, every held job is its row's current claim, and the attempt ledger balances. |
| JobRuns.NewJobWork | src/services/jobs.rs:81-109 | A new job has sixteen steps of work: two per attempt of its maximum of eight. |
| JobRuns.ReapNeedsLease | src/services/jobs.rs:192-208 | A reap keeps the queue sound exactly when no live worker has overstayed the lock timeout. |
| JobRuns.OverstayedLease | src/tasks/job_worker.rs:26-51 | A concrete run from an empty queue in which an overdue worker and its successor both hold one job. |
| JobRuns.LeasedExactly | src/tasks/job_worker.rs:26-122 | From an empty queue, a run keeps the lease exactly when no reap meets a batch taken longer than the lock timeout ago and not worked off: all its jobs run under the one stamp of its claim. |
| JobRuns.TwoLongJobsOverstay | src/services/rolelogic.rs:14-16 | Two jobs of half an hour, the time one upload may take, break it: the second of the batch ends up with two workers. |
| JobRuns.SoundQueueMeans | src/services/jobs.rs:119-131 | Batches of different workers are disjoint, and attempts never exceed the maximum plus releases and reaps. |
| JobRuns.RowsPersist | src/services/jobs.rs:140-190 | No job disappears or changes its work, and completed and dead rows never change again. |
| JobRuns.JobsEnd | src/tasks/job_worker.rs:77-122 | In a run without releases, crashes, lost writes or reaps a job has at every moment ended, waits, or is in a live worker's batch; at most DueLimit claims find it due, its own attempts plus an eighth of those left to older jobs; once that many have, it no longer waits, and with idle workers it is completed or dead. |
| JobRuns.StepsAreBounded | src/tasks/job_worker.rs:77-122 | In such a run a job is claimed and settled at most twice per remaining attempt, plus once if it is running. |
| JobRuns.DueClaimsSplit | src/services/jobs.rs:119-131 | Every claim made while a job is due either counts one of its attempts or skips it. |
| JobRuns.AllJobsCanEnd | src/tasks/job_worker.rs:77-122 | No deadlock and no lost job: from every such state one idle worker and time can bring every job to an end. |
| JobRuns.ReachableIsSound | src/services/jobs.rs:81-208 | Every state a leased run reaches from an empty queue is sound, and without crashes and lost writes every row in progress has its worker. |
| JobRuns.BypassIsBounded | src/services/jobs.rs:119-131 | In every leased run, batches that leave a due job behind number at most an eighth of the attempts the older jobs may still use. |
| JobRuns.SteadyBypass | src/services/jobs.rs:119-131 | Without crashes, shutdowns or reaps that bound is fixed when the run starts: the sum of max_attempts over smaller ids, less the attempts made, over eight. |
| JobRuns.SkippingTakesAFullBatch | src/services/jobs.rs:125-129 | A claim that leaves a due job behind takes eight jobs, all with smaller ids. |
| Worker.Cycle | src/tasks/job_worker.rs:37-123 | One iteration reaps when it is time, claims, and settles the batch job by job, leaving exactly the modelled rows and clock. |
| Worker.DrainBatch | src/tasks/job_worker.rs:77-122 | The batch loop completes, buries, retries or releases each job by its outcome, its attempts and the shutdown flag. |
| Worker.SyncLinkJob | src/services/sync.rs:650-673 | A held write makes the job succeed with exactly one sync of the link waiting, twenty minutes out if it was not waiting already; anything else leaves the queue alone. |
| Worker.CycleIsARun | src/tasks/job_worker.rs:37-122 | An iteration with its reap, claim and batch is a run of the queue's state machine, takes exactly as long as its jobs together, and leaves the worker holding nothing. |
| Worker.ShortBatchesKeepTheLease | src/tasks/job_worker.rs:77-122 | A worker whose jobs take no longer together than the lock timeout is within it at every point of its batch. |
| Worker.PayloadRoundTrip | src/services/jobs.rs:225-287 | Dispatch reads back exactly the work an enqueue helper wrote. |
| Retry.LimitsHold | src/services/retry.rs:106-174 | Over any submit history: the row counts the accepted attempts, a positive limit is never exceeded, and consecutive accepted attempts are at least the cooldown apart. |
| Retry.KeepBestKeepsTheBest | src/services/retry.rs:146-173 | Under keep_best on a scored form, with or without a passing score, the row holds the earliest best accepted attempt, score, answers and schema version; it is marked passed exactly when that score reaches the passing score, and never marked without one. |
| Retry.KeepLatestKeepsTheLast | src/services/retry.rs:146-173 | Under keep_latest, and on ungraded forms, the row is the last accepted attempt. |
| Retry.RowIsOneAttempt | src/services/retry.rs:146-173 | Score, answers and schema version always come from one and the same accepted attempt. |
| Retry.PassingSticksExactly | src/services/retry.rs:146-173 | A passed row can never fall below its threshold exactly when the form keeps the best, locks on a pass, has no attempts left or asks for no points. |
| Retry.CooldownCountdownIsTight | src/services/retry.rs:131-144 | Waiting the announced seconds ends the cooldown, and one second less does not. |
| Retry.BuildRetryStatus | src/routes/form_render.rs:116-159 | The status on the page is what a submission at that moment would be told. |
| Retry.StatusPredictsDecision | src/routes/form_render.rs:133-146 | The page blocks, or counts down, exactly when the submit handler would refuse, and for the same reason. |
| Submissions.Desk.PostSubmit | src/routes/form_render.rs:332-732 | The handler, gate by gate, leaves exactly the modelled rows and jobs and gives exactly the modelled reply. |
| Submissions.AdmissionMeans | src/routes/form_render.rs:429-460 | Who is let in: a live form, answered at its present version, inside its opening hours, by an account known to be old enough and, if asked for, known to be in the guild; what could not be learnt never counts in its favour. |
| Submissions.AdmissionIsOneStretch | src/routes/form_render.rs:435-438 | A form lets a member in during one stretch of time, never in, out and in again. |
| Submissions.OnlyTheAdmittedAreStored | src/routes/form_render.rs:429-669 | Nothing is stored of anyone not let in, and every answer newly stored is filed under the form version it was given to. |
| Submissions.Desk.Verify | src/routes/form_render.rs:462-481 | Validates, grades quizzes, and stores a verdict only for a quiz with a threshold. |
| Submissions.Desk.Record | src/routes/form_render.rs:504-694 | Inserts, edits in place or decides a retry, and enqueues the sync and the webhook only if a row was written. |
| Submissions.Desk.Newest | src/routes/form_render.rs:536-544 | Finds a row of the key with the latest edit, if there is one. |
| Submissions.Desk.DeleteResponse | src/routes/admin.rs:1301-1333 | Removes exactly the response of that form and asks for a sync of its author. |
| Submissions.OneRowIsTouched | src/routes/form_render.rs:504-669 | A request changes at most one row, its author's on that form, adds one only when there was none or the form is unlimited, and a refused one changes nothing. |
| Submissions.UpdateIsOutcome | src/routes/form_render.rs:622-651 | The columns written onto the row that was read are the serial outcome, also where the stored answers are kept. |
| Submissions.ReceiptMatchesPage | src/routes/form_render.rs:607-615 | The receipt shows the attempts left the page will show, and a next time late by exactly the gap between transaction start and the handler's clock. |
| Submissions.VerdictsAgree | src/routes/form_render.rs:474-481 | Scores exist exactly on quizzes; the stored and the told verdict agree wherever there is a threshold. |
| Submissions.OneShotFormsAnswerOnce | src/routes/form_render.rs:589-599 | On a one-shot form a second submission changes nothing and is refused, as already passed where passing locks and the member passed, and otherwise as a duplicate. |
| SubmitRuns.StepKeepsInv | src/routes/form_render.rs:394-696 | Every step of every transaction, deletion and form edit keeps: forms frozen while submitted to, one holder per key, one row per key, reads still current, table equal to the log's serial meaning. |
| SubmitRuns.InterleavingsAreSerial | src/routes/form_render.rs:486-669 | Whatever the interleaving, while a form keeps one response a member has at most one row on it, and the row is what the committed decisions give one after another. |
| SubmitRuns.RepliesAreSerial | src/routes/form_render.rs:568-604 | Each submission is refused or let through exactly as in that serial order. |
| SubmitRuns.NoAttemptIsLost | src/routes/form_render.rs:564-669 | From an empty table, while a form stays retry-governed with one configuration, attempt_count counts every attempt accepted since the row last went missing, limit and cooldown hold over all of them, and score, answers and version come from one of them. |
| SubmitRuns.ConcurrentKeepBest | src/routes/form_render.rs:564-669 | On a keep_best form that stays a quiz, with or without a passing score and whatever else of it is edited, the row is the earliest best of those attempts; while the passing score stays, the verdict is that of the best score. |
| SubmitRuns.AloneIsTheHandler | src/routes/form_render.rs:363-696 | A transaction nothing interleaves with does to the table what the handler does in one go. |
| RoleKept.ToldPassedIsStored | src/routes/form_render.rs:709-713 | An accepted attempt that is told it passed leaves a row at or above the threshold. |
| RoleKept.PassedRowsStay | src/services/retry.rs:158-165 | Once a member's row on a quiz with fixed settings is passed and safe, no interleaving of further submissions takes it below the threshold, short of an admin deleting it. |
| RoleKept.PassedRowsQualify | src/services/condition_eval.rs:58-61 | A passed row puts its author in the set both sync paths grant from, for a link gated on that score. |
| RoleKept.ToldPassedKeepsTheRole | src/routes/form_render.rs:703-721 | After a keep_best quiz with fixed settings told a member they passed, whatever else is submitted short of the row being deleted, every fault-free sync run that reaches them or the link leaves them on the link's list, locally and remotely, unless they opted out. |
| Conditions.RowsRoundTrip | src/services/sync.rs:380-385 | Stored conditions are read back by both sync paths exactly as written. |
| Conditions.NeqComplementsEq | src/services/condition_eval.rs:80-94 | Exactly where neq is the complement of eq; elsewhere both are false. |
| Conditions.SelectionsAreASet | src/services/condition_eval.rs:230-241 | Substring, regex and list operators ignore order and repetition of checkbox selections. |
| Conditions.BetweenIsBothBounds | src/services/condition_eval.rs:183-190 | between is gte and lte at once; without a usable end it is equality. |
| Conditions.OrderingsComplement | src/services/condition_eval.rs:167-182 | The four orderings complement, mirror and imply each other on numbers and all fail otherwise. |
| Conditions.InIsSomeEq | src/services/condition_eval.rs:118-130 | in is eq with some member of the list. |
| Conditions.ContainsUnfolds | src/services/condition_eval.rs:131-154 | contains_all is contains_any with each member, contains_any with some. |
| Conditions.ThresholdCondition | src/services/condition_eval.rs:58-61 | A total-score-at-least condition holds exactly of responses scored that much or more. |
| Answers.Validate | src/services/form_validator.rs:36-87 | Accepts exactly when every question does, returns exactly the normalised answers, and otherwise exactly the failing questions with their reasons. |
| Answers.ValidateMultiChoice | src/services/form_validator.rs:172-194 | The loop accepts exactly lists of the question's option ids and keeps them as they are. |
| Answers.CanonicalAnswersSettle | src/services/form_validator.rs:98-252 | The answers that pass validation unchanged are exactly the canonical ones of their kind. |
| Answers.StoredAnswersAreCanonical | src/services/form_validator.rs:98-252 | Every stored answer is canonical, a number unless the 64-bit conversion pushed it out of its bounds. |
| Answers.OuterSpaceIsIrrelevant | src/services/form_validator.rs:98-228 | Outer whitespace never decides a text, number, date or e-mail answer, nor what is stored of it. |
| Answers.ValidationIsIdempotent | src/services/form_validator.rs:36-87 | Validating a form's own output returns it, exactly when no number was pushed out of its bounds. |
| Answers.AcceptedOutputIsAFixpoint | src/services/form_validator.rs:36-87 | On a form that can be saved, what validate returns is accepted again and returned as it is, under exactly that condition. |
| Answers.HugeAnswersDoNotSettle | src/services/form_validator.rs:119-153 | Any whole number from 2^63 + 2048 on, asked for and given: accepted, stored as the largest 64-bit integer, and refused when validated again. |
| Answers.OutputCoversRequired | src/services/form_validator.rs:54-87 | The output answers only questions of the form and all required ones. |
| Answers.OutputIsUnique | src/services/form_validator.rs:36-87 | There is at most one normalised output. |
| Answers.StoredNumberReadsBack | src/services/condition_eval.rs:258-264 | A stored number parses back in the evaluator as submitted, exactly unless it is whole and beyond 64 bits. |
| Answers.StoredDatesCompare | src/services/condition_eval.rs:266-280 | Every stored date can be compared by before and after. |
| Text.DecimalRoundTrip | src/services/form_validator.rs:119-153 | Printing a number and parsing the text gives the number back. |
| Text.ToI64Truncates | src/schema.rs:270-273 | Within 64 bits the cast keeps the sign and drops less than one. |
| Forms.SanityCheck | src/services/form_validator.rs:450-608 | Reports no error exactly for sane forms. |
| Forms.SaneFormsAreIndexed | src/services/form_validator.rs:476-510 | A sane form has at most fifty answerable questions with distinct ids. |
| Quiz.ComputeQuizScore | src/services/form_validator.rs:334-393 | The loop returns the sum of the points of the matched questions, held at the 32-bit maximum and bounded by the graded total. |
| Quiz.SavedQuizzesNeverSaturate | src/services/form_validator.rs:389-392 | On every form that can be saved as a quiz the total is at most 50,000,000, so the saturating addition never saturates. |
| Quiz.ValidateQuizKeys | src/services/form_validator.rs:401-447 | Reports no error exactly when every point value is in range and every choice key names existing options. |
| Quiz.FullMarks | src/services/form_validator.rs:322-333 | Answering every graded question from its key scores the graded total. |
| Quiz.TextMatchingIsForgiving | src/services/form_validator.rs:373-381 | Typing a text answer in capitals, or with any whitespace around it, never decides whether it matches. |
| Quiz.KeysAreForgiving | src/services/form_validator.rs:373-381 | Nor do capitals and outer whitespace in the key. |
| Quiz.NumberMatchingIsForgiving | src/services/form_validator.rs:366-372 | Zeros after the point, a bare point and outer whitespace never decide a numeric answer. |
| Quiz.NumbersMatchWithinTolerance | src/services/form_validator.rs:366-372 | With a number for its key, exactly the numbers less than a billionth away match. |
| Quiz.SelectionOrderIsIrrelevant | src/services/form_validator.rs:352-365 | The score ignores order and repetition of checkbox selections. |
| Quiz.OrderIsIrrelevant | src/services/form_validator.rs:334-393 | The score is invariant under reordering questions and options. |
| Quiz.ShufflePage | src/routes/form_render.rs:884-902 | A shuffled page has the same questions with the same options. |
| Quiz.ShuffleSchema | src/routes/form_render.rs:875-903 | A shuffled form has, page by page, the same questions with the same options. |
| Quiz.ShuffledFormsGradeAlike | src/routes/form_render.rs:875-903 | However a form was shuffled, the same answers are accepted, stored alike and scored alike. |
| RoleConfig.ParseRoleConfig | src/schema.rs:91-146 | Accepts only grant-all without conditions or one to twelve conditions without it; otherwise names the first fault. |
| RoleConfig.ValidateConditions | src/schema.rs:136-138 | Collects the conditions one by one and stops at the first faulty one, with its number. |
| RoleConfig.NormalizeIsIdempotent | src/schema.rs:258-331 | Normalising a condition value twice is normalising it once, for every operator and value. |
| RoleConfig.ValidationIsStable | src/schema.rs:148-256 | A validated condition is usable by the evaluator and validates again to itself. |
| RoleConfig.TargetsAreReal | src/schema.rs:170-220 | A validated condition is about the score of a quiz, compared as a number, or an answerable question of the bound form with an operator that suits it. |
| RoleConfig.SavingAgainChangesNothing | src/routes/admin.rs:1795-1847 | Opening the role page and saving again unchanged saves the same config, and its rows are what the sync engine reads. |
| RoleConfig.UnconditionedLinksSurviveExactly | src/routes/admin.rs:1799-1811 | A link without conditions is saved unchanged exactly if it grants on any submission: a link nobody has saved yet turns into one that does. |
| RoleConfig.NumericConditionsMean | src/services/condition_eval.rs:167-193 | A saved numeric condition holds of an answer exactly when the answer is a number in the range it names. |
| RoleConfig.SplitJoins | src/schema.rs:290-296 | Splitting a value list loses nothing: the parts hold no comma and join to the text. |
| RolePage.Page.Save | src/routes/admin.rs:1853-1945 | A refused save changes nothing; an accepted one rewrites the link, sets the view permission only if given, and asks for a sync. |
| RolePage.SaveKeepsGuildRuleExactly | src/routes/admin.rs:1893-1915 | A saved link belongs to its form's guild exactly when the form id was typed the way responses spell it: it is parsed for the lookup and stored as typed. |
| RolePage.CapitalsBreakTheGuildRule | src/routes/admin.rs:1893-1929 | The id of the guild's only form, typed in capitals, is found, and the link is bound to an id no form has. |
| RolePage.MisspeltBindingGrantsNobody | src/services/sync.rs:557-602 | A link bound to an id no response carries grants nobody. |
| Csv.CsvRow | src/routes/admin.rs:1484-1494 | The loop writes the escaped cells, comma separated, and a line end. |
| Csv.WriteTable | src/routes/admin.rs:1428-1456 | The export is its rows one after another. |
| Csv.CsvRoundTrip | src/routes/admin.rs:1484-1502 | A reader following section 2 of RFC 4180, with LF line ends, recovers the table, whatever the cells hold, exactly when every row has a cell, as every row of the export does. |

## Left out

- Floating point: an `f64` is its shortest finite decimal, without exponents, infinities, NaN or negative zero, and integers are not rounded to 53 bits, so between 2^63 and 2^63 + 1024 a stored answer does not settle here although the source, rounding it back to 2^63, accepts it again; numeric text in exponent notation is not parsed.
- Regular expressions, date parsing and Unicode lower-casing are arbitrary functions; trimming follows the Unicode White_Space property exactly.
- Text lengths count characters of the model's `char`; JSON text of objects in CSV cells is not modelled.
- SQL and HTTP: statements and calls are atomic; contention inside `SKIP LOCKED`, lost local writes during sync and connection errors are not modelled, except a job's closing update, which may be lost.
- RoleLogic is assumed to refuse an addition only when its list is full and the user is not on it, and to drop a link's list when it reports the link gone.
- Convergence.NothingIsForgotten: a request always gets its job enqueued (after an admin's edit or deletion the source only logs a failing enqueue), a job leaves the queue only once its calls landed (the source also completes a player job whose calls failed, as Convergence.CompletedWithoutEffect shows, and buries a failing job after eight attempts), opt-outs are fixed, and account unlinks, for which no handler enqueues a job, are outside.
- Sync jobs of the queue run one at a time against the tables; only the actions inside one player job interleave, in any order.
- Advisory-lock hash collisions: two keys that share a hash only wait for each other.
- Submit transactions read and grade the form in one step, since the form row stays share-locked; insert or update and commit are one step.
- A form switched from unlimited to single may carry older extra rows; the concurrency results are about forms while they keep one response per member.
- Histories of the tables save configs with form ids spelt as the builder's list spells them, and members are signed in with a non-empty id.
- Deleting or unbinding a form does not revoke roles in the source, and nothing here says it does.
- Error texts, `last_error` and `created_at` columns, notifications, logging, webhook delivery, sessions, CSRF and address checks, pages and templates, rate limits.
- Startup backfill, form locking, the job listener and the shutdown broadcast: shutdown is an event that may be seen at any turn.
- Key-value tables of operator and job-kind names beyond what the round trips need.
