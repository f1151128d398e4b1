# MyTechPulse: verified models of the server's stateful parts and of the passkey login

MyTechPulse collects articles from Qiita and Zenn, learns which tags a user likes, and shows a feed. This Dafny
project models the parts of it that keep state and that several requests, instances or timers touch at once, and
proves what they keep over every run. `dafny verify dfyconfig.toml` checks everything.

| Part | Modules |
|---|---|
| Fixed-point interest weights; saving, unsaving, delayed learning, clicks, feed reads, signup as transactions on tables | `Interest`, `InterestModel`, `InterestRuns`, `InterestEffects`, `InterestStore` |
| Saving an article against the retention delete, statement by statement, with row locks and snapshots | `Retention`, `SaveProtocol` |
| The fetch scheduler: calendar slots, the protocol of several instances over the persisted run history, the loop | `Schedule`, `FetchRuns`, `Scheduler`, `SchedulerVisits` |
| The token bucket limiter that sweeps and has a key cap | `RateLimit`, `RateLimitRuns`, `RateLimitHistory` |
| The login limiter: doubling lockouts, tumbling windows, sweeping | `LoginLimiter`, `LoginLimiterRuns`, `LoginLimiterHistory` |
| The passkey login controller: runs, aborts, timers, visibility, the shared queue | `PasskeyModel`, `PasskeyLogin`, `PasskeyRuns`, `PasskeyEffects` |
| The feed: saturating scores, ranking, merging of concurrent answers, filling from stored articles | `Score`, `Feed`, `FeedSearch`, `FeedDb`, `FeedMeaning`, `StoredMeaning` |
| The survey: form definitions, prompts, submissions, cooldown, replays | `SurveyForm`, `SurveyModel`, `SurveyStore`, `SurveyRuns`, `SurveyAnswers` |
| Matching foreign tag names to tag rows | `TagMatch` |
| Shared: options and results, tag names, sorting, finite sets | `Wrappers`, `Tags`, `Sorting`, `Sets` |

Each stateful component comes in up to three layers. A specification on values says what one call, statement or event
does (`InterestModel`, `RateLimit`'s functions, `PasskeyModel`, `SurveyModel`, ...). A class with the program's fields
updates them in place, and each of its methods is proved to do exactly that. Lemmas then prove what holds over whole
runs of such steps (`InterestRuns`, `Retention`, `FetchRuns`, `RateLimitRuns`, `LoginLimiterRuns`, `PasskeyRuns`,
`SurveyRuns`), and tell every answer and effect without the specification's own functions: from the history of calls
(`LoginLimiterHistory`, `RateLimitHistory`, `SchedulerVisits`), effect by effect (`PasskeyEffects`, `InterestEffects`),
or in the fields of the stored rows (`SurveyAnswers`, `FeedMeaning`, `StoredMeaning`). Times are integers in the unit
that each module names; tokens are exact reals; tag normalisation is an arbitrary idempotent function.

Where a natural statement is false of the code, the code is kept and the exact condition is proved:

- A Qiita score is the sum times (likes + 1), capped, except at the largest 64-bit number of likes, where the
  multiplier wraps around: there it is right exactly when some tag is of interest (`Score.ScoreIsExact`, example
  `Score.ScoreCanDiffer`).
- The instant search depends on the order in which answers arrive exactly when a provider has both clean answers and
  answers with an invalid item, and both providers can be counted as down: `FeedSearch.ArrivalOrderDoesNotMatter`
  outside that case, `FeedSearch.ContestedOrdersDisagree` within it (example `FeedSearch.ContestedAnswers`). With
  valid items it never happens.
- A run of the passkey login that was settled is neither aborted nor current, so "un-aborted means current" fails
  exactly for settled runs (`PasskeyRuns.UnabortedNotCurrent`, example `PasskeyRuns.SettledIsNotAborted`). A step
  settles a run exactly when it is current and its wait hits the limit, it fails, or the browser's answer comes 290 s
  or later after its begin (`PasskeyRuns.SettledExactly`).
- Two passkey runs can be between begin and done at once: this arises exactly when the wait of a current run ends while
  another run is still busy, and so sends a begin beside it (`PasskeyRuns.OverlapArises` for a step,
  `PasskeyRuns.OverlapExactly` for a whole run, example `PasskeyRuns.OverlapAfterTimeout`). Between two busy runs there
  is always one whose wait hit the 4 s limit (`PasskeyRuns.NoOverlapWithoutTimeout`).
- Automatic begins of a controller are 5 s apart as long as it stays mounted; the first one after it is mounted again
  may come at once (`PasskeyEffects.AutomaticBeginsSpaced`, example `PasskeyEffects.RemountedBeginsAtOnce`).

## Model

| member | source | states |
|---|---|---|
| Interest.ValidateCurrent | server/internal/interest/normalize.go:10-23 | accepts exactly the lists in which no two rows have the same non-blank normalised name |
| Interest.UpdateOnClick | server/internal/interest/click.go:17-52 | rejects exactly colliding lists; otherwise every weight decays by 8/10 rounded down and each distinct clicked name is boosted once, new names in sorted order |
| Interest.UpdateOnSave | server/internal/interest/save.go:7-40 | the same for a saved article, without decay |
| Interest.BoostDetermined | server/internal/interest/click.go:36-51 | the result does not depend on the order in which the set of clicked names is traversed |
| Interest.ClickFixedPoints | server/internal/interest/click.go:5-33 | 9996 to 10000 are exactly the fixed points of being clicked; below, a click raises the weight, to at most 9996 |
| Interest.CeilingNeverPassed | server/internal/interest/click.go:5-52 | weights up to 9996 never pass it by clicks alone |
| Interest.AlwaysClickedRises | server/internal/interest/click.go:5-52 | a tag clicked every time rises strictly until it is at 9996, which it is after 37 clicks |
| Interest.ClicksKeepOrder | server/internal/interest/click.go:5-52 | the same clicks keep two weights in order |
| Interest.NeverClickedVanishes | server/internal/interest/click.go:5-52 | a tag never clicked is 0 after 37 clicks, and 36 are not enough from full weight |
| InterestRuns.WeightsStayValid | server/internal/store/interest.go:27-136 | after any run of signups, saves, unsaves, clicks, reads and article changes, every stored weight is in 0..10000 and no user's list collides, so validation never rejects it |
| InterestRuns.LearnedAtMostOnce | server/internal/store/saved_articles.go:115-193 | a user learns from an article at most once ever, across unsave and save again and deletion |
| InterestRuns.BoostExactly | server/internal/store/dbgen/saved_articles.sql.go:194-243 | a step learns from a pair exactly when it is a click or read of that user and the pair is saved for 10 s, not marked and never recorded |
| InterestRuns.BoostNeedsLastingSave | server/internal/store/saved_articles.go:115-193 | whenever a pair is learned from, one save of it has lasted at least 10 s without a break |
| InterestRuns.StepKeepsInv | server/internal/store/interest.go:57-136 | every committed transaction keeps rows, weights, the save limit and the learning marks consistent |
| InterestEffects.SavedExactly | server/internal/store/saved_articles.go:63-205 | a saved row is there exactly when it was and is not undone, or is saved now by a known user with room, for an article that is there; it keeps its instant and is marked exactly when due |
| InterestEffects.LearningsExactly | server/internal/store/saved_articles.go:115-193 | the mark against learning twice comes with learning and goes only when the article, saved by nobody, is deleted |
| InterestEffects.OthersUntouched | server/internal/store/interest.go:27-136 | a user's weights change only by that user's clicks and reads |
| InterestEffects.NewUserStarts | server/internal/store/auth.go:96-146 | a new user has weight 10000 on exactly the tags of least ID that the favourites name |
| InterestEffects.ReadGrows | server/internal/store/saved_articles.go:115-193 | a read adds 3000 to a weight for each article then learned from that carries its tag, up to 10000 |
| InterestEffects.ReadAdds | server/internal/store/saved_articles.go:140-193 | a tag gets a new weight only from such articles, and only when its name has none |
| InterestEffects.ReadMissesNothing | server/internal/store/saved_articles.go:140-193 | no tag of such an article is left without a weight |
| InterestEffects.ClickMoves | server/internal/store/interest.go:76-136 | one click: learning first, then one step of the click dynamics |
| InterestEffects.ClicksDecide | server/internal/interest/click.go:5-52 | over any stretch of a run in which nothing is learned about a tag, its weight is what the user's clicks in that stretch make of it |
| SaveProtocol.SaveInOneGo | server/internal/store/saved_articles.go:63-113 | the statements of a save, uninterrupted, report the outcome of the store's transaction, in the same order of checks, and leave the same rows |
| InterestStore.GrownIsBatch | server/internal/store/saved_articles.go:140-193 | a list that grew by the newly recorded articles, written back, is one batch of learning: each tag has min(10000, v + 3000 k) for its k carrying articles, and the new rows are the tags that carry a new key |
| InterestStore.LearnFromArticles | server/internal/store/saved_articles.go:160-180 | folding UpdateOnSave over the articles, in whatever order the map yields them, never fails and grows each weight by its number of articles |
| InterestStore.InterestStore.constructor | server/internal/store/saved_articles.go:47-49 | starts from empty tables, which satisfy the invariant |
| InterestStore.InterestStore.ApplyDueSaveLearning | server/internal/store/saved_articles.go:123-193 | marks what is due, records what is new, and writes exactly the weights of one learning step |
| InterestStore.InterestStore.UpdateForClick | server/internal/store/interest.go:76-136 | one click transaction: learning first, then decay and boost; returns the stored rows |
| InterestStore.InterestStore.List | server/internal/store/interest.go:27-54 | one read: learns only when something is due, then returns the rows, which do not collide |
| InterestStore.InterestStore.Save | server/internal/store/saved_articles.go:63-113 | one save: the five outcomes and their order, and the row written |
| InterestStore.InterestStore.Unsave | server/internal/store/saved_articles.go:195-205 | one unsave: removes the row, keeps the learning marks |
| InterestStore.InterestStore.CreateWithInterestsAndSession | server/internal/store/auth.go:96-146 | signup: refused when a favourite names no tag or the name is taken; otherwise full weight on the favourites' tags |
| Retention.NothingCascades | server/internal/store/dbgen/articles.sql.go:43-58 | when the delete commits, no saved row refers to what it deletes |
| Retention.CommittedSaveIsNeverLost | server/internal/store/articles.go:159-187 | in every interleaving a committed save and its article stay until the user undoes it |
| Retention.RetentionDeletesExactly | server/internal/store/articles.go:159-187 | a retention run deletes exactly the articles it locked that had no committed save in the step that began its second statement; all are still expired, and no saved row refers to them |
| Retention.RetentionMissesNothing | server/internal/store/articles.go:159-187 | every article past its age when a retention begins is deleted, unless skipped or with a save committed when the second statement began |
| Retention.SkippedFor | server/internal/store/dbgen/articles.sql.go:354-369 | a row is skipped only when another transaction has it locked or it is no longer past its age |
| SaveProtocol.RetainInOneGo | server/internal/store/articles.go:159-187 | a retention with nothing else under way deletes exactly the articles of its source past their age that nobody has saved |
| Retention.InsertNeverConflicts | server/internal/store/dbgen/saved_articles.sql.go:72-90 | under the user's row lock the insert never meets an existing row |
| Retention.LoserNeverCreates | server/internal/store/saved_articles.go:63-113 | a save whose article was deleted before its insert never creates a row nor finds one, and ends as article-not-found whether it reaches the check of the article or the insert |
| Retention.CreatedMeansSaved | server/internal/store/saved_articles.go:63-113 | a save reported as created has its row and its article |
| Retention.OutcomeMeans | server/internal/store/saved_articles.go:63-113 | each outcome of a save tells the truth about the committed rows at the step that reports it |
| Retention.LimitHolds | server/internal/store/saved_articles.go:63-113 | concurrent saves never pass 500 articles a user |
| Schedule.SlotsAround | server/internal/articlefetch/schedule.go:21-45 | LatestSlot is the last slot not after now, NextSlot the first after it, and no slot lies between |
| Schedule.SlotIdentities | server/internal/articlefetch/schedule.go:27-45 | the next slot after the latest is the next slot, and the latest slot at the next is the next |
| Schedule.LatestMonotone | server/internal/articlefetch/schedule.go:27-36 | later instants have no earlier latest slot |
| FetchRuns.DecideMeans | server/internal/articlefetch/scheduler.go:163-185 | an attempt is due only as number k+1 after k recorded failures, k < 3, at the retry delay after the last one's recorded finish; anything not failed, or three attempts, means skip |
| FetchRuns.AtMostOneRunning | server/internal/articlefetch/scheduler.go:88-150 | over any run of several instances, crashes and lost writes, at most one row is running |
| FetchRuns.AttemptsAreOneToThree | server/internal/articlefetch/scheduler.go:88-150 | the attempts recorded for a slot are exactly 1..k, once each and in order, k at most 3 |
| FetchRuns.RetriesAreSpaced | server/internal/articlefetch/scheduler.go:159-185 | attempt j+1 follows a failed attempt j, at least 15 or 30 minutes after its recorded finish; nothing follows a succeeded or partial run |
| FetchRuns.HistoryIsKept | server/internal/store/articles.go:189-224 | rows keep their identity and, once finished, their contents |
| Scheduler.Scheduler.Step | server/internal/articlefetch/scheduler.go:86-150 | one locked step is a path of the protocol with exactly the stated rows and answer, also when a write is lost |
| Scheduler.Scheduler.SleepUntil | server/internal/articlefetch/scheduler.go:187-204 | returns true only when the clock has reached the instant |
| Scheduler.Scheduler.Process | server/internal/articlefetch/scheduler.go:67-84 | ends, since every retry is later than the step before; all its steps are for its slot, the first at once and each later one because the one before asked for it, not before the moment it named and before the next slot; it stops only when cancelled or when the last step asks for nothing before the next slot |
| SchedulerVisits.VisitMeans | server/internal/articlefetch/scheduler.go:86-185 | a step that may work does nothing for a slot with three attempts or one that did not fail, asks to come again when it is too early, and otherwise makes attempt k+1 after k failures |
| SchedulerVisits.HinderedVisit | server/internal/articlefetch/scheduler.go:88-112 | a step that cannot lock, clear or read writes no attempt and does not ask again |
| SchedulerVisits.StaleFail | server/internal/articlefetch/scheduler.go:102-107 | rows left running become failed at the step's instant, and no other row changes |
| SchedulerVisits.AttemptsInPeace | server/internal/articlefetch/scheduler.go:67-185 | for a slot without history: attempt 1 at once and, while the job fails, attempts 2 and 3 at least 15 and 30 minutes after the one before, then no more |
| Scheduler.Scheduler.Run | server/internal/articlefetch/scheduler.go:40-51 | the slots handled strictly increase; each was the latest one when taken up, with all steps after that instant, and was handled to its end before the next |
| RateLimit.Limiter.constructor | server/internal/platform/ratelimit/ratelimit.go:52-64 | replaces nonsensical parameters |
| RateLimit.Limiter.Allow | server/internal/platform/ratelimit/ratelimit.go:72-82 | one call: room, refill, grant or refusal with waiting time, and the table left |
| RateLimit.Limiter.Wait | server/internal/platform/ratelimit/ratelimit.go:84-100 | uses nothing up and makes no record |
| RateLimit.Limiter.Take | server/internal/platform/ratelimit/ratelimit.go:102-108 | counts whether or not a token is left |
| RateLimit.Limiter.MakeRoom | server/internal/platform/ratelimit/ratelimit.go:110-134 | sweeps early at the cap, at most once a second, and otherwise drops one record |
| RateLimit.Limiter.DoSweep | server/internal/platform/ratelimit/ratelimit.go:150-160 | drops exactly the full buckets, once a minute |
| RateLimitRuns.ForgettingIsUnobservable | server/internal/platform/ratelimit/ratelimit.go:110-160 | without eviction every answer is that of a limiter that never forgets |
| RateLimitRuns.NoEvictionBelowCap | server/internal/platform/ratelimit/ratelimit.go:110-134 | below the cap nothing is evicted |
| RateLimitRuns.NeverAboveCap | server/internal/platform/ratelimit/ratelimit.go:17-24 | the table never exceeds the cap, whatever happens |
| RateLimitRuns.GrantsAreBounded | server/internal/platform/ratelimit/ratelimit.go:72-147 | n grants on a key within T satisfy n (1 - epsilon) <= burst + T / every |
| RateLimitRuns.LimiterGrantsAreBounded | server/internal/platform/ratelimit/ratelimit.go:70-160 | the same bound for the sweeping limiter's own answers, while nothing is evicted |
| RateLimitRuns.WaitIsAccurate | server/internal/platform/ratelimit/ratelimit.go:136-148 | the waiting time of a refusal is enough with 500 ns more and not enough by more than 501 ns and epsilon less |
| RateLimitRuns.RefusedThenGranted | server/internal/platform/ratelimit/ratelimit.go:72-148 | after a refusal with wait w and no use of the key, a limiter that never forgets grants a call w + 500 ns later |
| RateLimitRuns.LimiterRefusedThenGranted | server/internal/platform/ratelimit/ratelimit.go:70-160 | the same in the sweeping limiter's own answers, while nothing is evicted |
| RateLimitHistory.AnswersExactly | server/internal/platform/ratelimit/ratelimit.go:72-148 | every answer is the one that the key's tokens, told from the calls on it alone, call for; takes use one up whether or not it is granted |
| RateLimitHistory.BurstExactly | server/internal/platform/ratelimit/ratelimit.go:72-148 | from a full bucket of b tokens exactly b calls at one instant are granted |
| RateLimitHistory.KeptExactly | server/internal/platform/ratelimit/ratelimit.go:110-160 | making room drops exactly the full records, only when a sweep is due, and one more only at the cap |
| LoginLimiter.LoginLimiter.CheckAttempt | server/internal/auth/limiter.go:75-90 | the longer of the account's and the address's remaining lock |
| LoginLimiter.LoginLimiter.CheckAddress | server/internal/auth/limiter.go:94-100 | the address's remaining lock alone |
| LoginLimiter.LoginLimiter.Begin | server/internal/auth/limiter.go:105-116 | sweeps, counts in a window from the first begin, refuses without counting past 60 |
| LoginLimiter.LoginLimiter.Failed | server/internal/auth/limiter.go:128-150 | one failure: count, 64-bit shifted lock length, window, level, and the address's count |
| LoginLimiter.LoginLimiter.FailedAddress | server/internal/auth/limiter.go:154-160 | one failure counted for the address only |
| LoginLimiter.LoginLimiter.Succeeded | server/internal/auth/limiter.go:163-167 | forgets the account and keeps the address |
| LoginLimiter.LoginLimiter.DoSweep | server/internal/auth/limiter.go:179-190 | from 10000 records on, drops exactly those whose window and lock are over |
| LoginLimiterRuns.ForgettingIsUnobservable | server/internal/auth/limiter.go:169-190 | every answer of every chronological run is that of a limiter that never sweeps |
| LoginLimiterRuns.LockLengthExact | server/internal/auth/limiter.go:138-147 | at the levels that occur the shift does not overflow: 1, 2, 4, 8, then 15 minutes |
| LoginLimiterRuns.LockNeverMovesEarlier | server/internal/auth/limiter.go:127-150 | without a reset no call moves a lock earlier, and the level stays at most 10 |
| LoginLimiterRuns.NineFailuresSpan | server/internal/auth/limiter.go:127-150 | nine failures, each after the lock of the one before, span 15 minutes |
| LoginLimiterRuns.AtMostEightFailures | server/internal/auth/limiter.go:74-150 | when every failure follows a passing check with no failure in between and no success, nine failures of an account never fit into a half-open 15-minute interval |
| LoginLimiterRuns.AtMost119Begins | server/internal/auth/limiter.go:102-116 | at most 119 begins of an address are let through in any half-open 15-minute interval |
| LoginLimiterHistory.CheckIPExactly | server/internal/auth/limiter.go:94-125 | an address is refused exactly from its 20th failure of a window on, for what is left of the 15 minutes since the window's first failure |
| LoginLimiterHistory.CheckExactly | server/internal/auth/limiter.go:75-150 | an account is locked exactly for 1, 2, 4, 8, then 15 minutes after the 5th and each further failure of a streak; the longer of its and the address's lock is the answer |
| LoginLimiterHistory.AllowBeginExactly | server/internal/auth/limiter.go:102-116 | a begin is refused exactly when its window holds 60 already, for what is left of it |
| LoginLimiterHistory.SweepsExactly | server/internal/auth/limiter.go:163-190 | a counting call drops exactly the stale records, from 10000 records on; no other call drops any but a success its account's |
| PasskeyLogin.PasskeyLoginController.constructor | frontend/src/lib/passkeyLogin.ts:105-119 | the initial fields |
| PasskeyLogin.PasskeyLoginController.OnStart | frontend/src/lib/passkeyLogin.ts:125-143 | arms the start timer with the epoch it captures |
| PasskeyLogin.PasskeyLoginController.OnAvailable | frontend/src/lib/passkeyLogin.ts:132-141 | an outdated or negative answer does nothing; a hidden page only remembers to start |
| PasskeyLogin.PasskeyLoginController.OnDispose | frontend/src/lib/passkeyLogin.ts:145-155 | new epoch, timers cleared, current run aborted, idle |
| PasskeyLogin.PasskeyLoginController.OnStartExplicit | frontend/src/lib/passkeyLogin.ts:158-166 | from idle or conditional: aborts the current run and enters a new one |
| PasskeyLogin.PasskeyLoginController.OnStartPassword | frontend/src/lib/passkeyLogin.ts:169-175 | accepted from idle or conditional only |
| PasskeyLogin.PasskeyLoginController.OnEndPassword | frontend/src/lib/passkeyLogin.ts:177-181 | back to idle, asking for a conditional run after a failure |
| PasskeyLogin.PasskeyLoginController.OnVisibility | frontend/src/lib/passkeyLogin.ts:208-212 | coming back into view asks for what was wanted meanwhile |
| PasskeyLogin.PasskeyLoginController.DoRequestConditional | frontend/src/lib/passkeyLogin.ts:215-228 | limits, hidden page, and the wait that keeps 5 s since the last begin |
| PasskeyLogin.PasskeyLoginController.DoStartConditional | frontend/src/lib/passkeyLogin.ts:230-241 | counts the begin, aborts the current run and enters a new one |
| PasskeyLogin.PasskeyLoginController.OnRefreshDue | frontend/src/lib/passkeyLogin.ts:243-253 | renews the waiting run, or ends it when no automatic begin is left |
| PasskeyLogin.PasskeyLoginController.OnWaited | frontend/src/lib/passkeyLogin.ts:258-261 | after the previous run: begin if still current, else done |
| PasskeyLogin.PasskeyLoginController.OnWaitTimedOut | frontend/src/lib/passkeyLogin.ts:85-94 | at the limit the run fails and is done |
| PasskeyLogin.PasskeyLoginController.OnBegun | frontend/src/lib/passkeyLogin.ts:261-274 | the browser is asked with the token of this begin |
| PasskeyLogin.PasskeyLoginController.OnGot | frontend/src/lib/passkeyLogin.ts:282-296 | drops stale answers, settles ones older than 290 s, otherwise sends finish |
| PasskeyLogin.PasskeyLoginController.OnFinished | frontend/src/lib/passkeyLogin.ts:296-299 | reports the login of a current run only |
| PasskeyLogin.PasskeyLoginController.OnRejected | frontend/src/lib/passkeyLogin.ts:308-336 | one failure of a run: settle, message, and whether to ask again |
| PasskeyRuns.AtMostOneLiveRun | frontend/src/lib/passkeyLogin.ts:196-206 | a controller has at most one run that is neither aborted nor settled, and it is current |
| PasskeyRuns.UnabortedNotCurrent | frontend/src/lib/passkeyLogin.ts:301-306 | a run is un-aborted and not current exactly when it was settled |
| PasskeyRuns.SettledExactly | frontend/src/lib/passkeyLogin.ts:282-310 | a step settles a run exactly when the run is current and its wait hits the limit, it fails, or its answer comes at 290 s or later |
| PasskeyRuns.PhaseFollowsCurrent | frontend/src/lib/passkeyLogin.ts:183-206 | phase and current run stay in lockstep |
| PasskeyRuns.OnlyCurrentOverRuns | frontend/src/lib/passkeyLogin.ts:255-299 | begin, get and finish come only from the current un-aborted run, and so does all that is shown |
| PasskeyEffects.RecordedExactly | frontend/src/lib/passkeyLogin.ts:255-336 | what each event sends, reports and shows: begin, browser, finish, login or the message of the failure, from the current run only, and nothing else |
| PasskeyEffects.LoginReported | frontend/src/lib/passkeyLogin.ts:296-299 | a login is reported exactly when the finish of the current run answers |
| PasskeyEffects.LoginReportedOnce | frontend/src/lib/passkeyLogin.ts:282-299 | a run reports at most one login, after its finish was sent |
| PasskeyEffects.FunctionAdvances | frontend/src/lib/passkeyLogin.ts:255-299 | each continuation takes the current run one step on and any other run, or one that fails or is late, to its end |
| PasskeyEffects.EffectsExactly | frontend/src/lib/passkeyLogin.ts:125-336 | for every event: which run it starts and aborts, the password phase, the schedule, what is wanted when hidden, and the one retry after a cancelled automatic run |
| PasskeyEffects.RefreshesExactly | frontend/src/lib/passkeyLogin.ts:243-274 | the renewal of a waiting run is armed by the begin's answer, and gone when it fires, the browser answers or the run is given up |
| PasskeyEffects.ChecksExactly | frontend/src/lib/passkeyLogin.ts:125-155 | mounting brings one availability check; only its answer and leaving take it away |
| PasskeyEffects.AutomaticBeginsSpaced | frontend/src/lib/passkeyLogin.ts:215-241 | an automatic begin comes at least 5 s after the last one, unless it is the first of a new mount |
| PasskeyEffects.RemountedBeginsAtOnce | frontend/src/lib/passkeyLogin.ts:125-155 | a run in which a controller mounted again begins at the instant of its last begin |
| PasskeyRuns.OneFinishPerRun | frontend/src/lib/passkeyLogin.ts:282-299 | each run sends at most one finish, with the token of its own begin, less than 290 s after it |
| PasskeyRuns.AtMostTenAutomaticBegins | frontend/src/lib/passkeyLogin.ts:215-241 | a controller sends at most ten automatic begins |
| PasskeyRuns.NoOverlapWithoutTimeout | frontend/src/lib/passkeyLogin.ts:77-103 | two runs, of any controllers, are busy at once only if a wait between them hit the limit |
| PasskeyRuns.OverlapArises | frontend/src/lib/passkeyLogin.ts:255-280 | from at most one busy run, a step makes two busy exactly when it sends the begin of a current run while another is busy |
| PasskeyRuns.OverlapExactly | frontend/src/lib/passkeyLogin.ts:255-280 | a whole run has two busy runs at some point exactly when some step sent such a begin |
| PasskeyRuns.FinishIsGivenUpOnlyByDispose | frontend/src/lib/passkeyLogin.ts:145-181 | only dispose or its own failure takes a run with a finish in flight from current |
| PasskeyRuns.OverlapAfterTimeout | frontend/src/lib/passkeyLogin.ts:255-280 | a run in which a wait at the limit leaves two runs busy |
| PasskeyRuns.SettledIsNotAborted | frontend/src/lib/passkeyLogin.ts:285-292 | a run in which a late answer is settled and neither aborted nor current |
| Score.ScoreIsExact | server/internal/recommendation/score.go:39-47 | the computed score is the exact capped one, except at the largest number of likes of a Qiita article without wanted tags |
| Score.ScoreCanDiffer | server/internal/recommendation/score.go:39-47 | an article with the largest number of likes and no tags gets the cap instead of 0 |
| Score.ScoreMeans | server/internal/recommendation/score.go:13-47 | an article scores the positive weights of its tags, once each; on Qiita once for itself and once for every like; capped |
| Score.SumTags | server/internal/recommendation/score.go:23-38 | the saturating sum is the capped sum over the distinct normalised tags |
| Score.Multiply | server/internal/recommendation/score.go:40-47 | sum times likes + 1, capped, every step inside 64 bits |
| Score.BeforeIsStrictTotal | server/internal/recommendation/score.go:50-65 | with distinct URLs the comparison is a strict total order |
| Score.ScoreArticles | server/internal/recommendation/score.go:13-67 | scores and sorts |
| Feed.MergeTags | server/internal/recommendation/service.go:281-293 | the first tag of each non-blank name, in order |
| Feed.FirstsKeepsNames | server/internal/recommendation/service.go:281-293 | merging loses no name and repeats none |
| Feed.FirstsInOrder | server/internal/recommendation/service.go:281-293 | the kept tags are the first of each name, as written and in order |
| Feed.Dedupe | server/internal/recommendation/service.go:294-308 | the loop with its index of positions |
| Feed.DedupeMeans | server/internal/recommendation/service.go:294-308 | each URL once, as its first item, with the names of all its items, in order of first items |
| Feed.RankLimit | server/internal/recommendation/service.go:309-319 | the first of the ranked articles |
| Feed.RankingIncreases | server/internal/recommendation/score.go:50-66 | the ranking is the one strictly increasing order of the scored articles |
| Feed.RankingIgnoresArrival | server/internal/recommendation/service.go:281-319 | the ranking depends on which items came, not on their order or number |
| FeedMeaning.TopIsBest | server/internal/recommendation/score.go:50-66 | the limited ranking in the fields of the articles: one row a URL with its score, scores never rising, then likes without points, newer first, source and URL; nothing better is left out |
| FeedSearch.Gather | server/internal/recommendation/service.go:136-175 | the piles and the flags after all batches |
| FeedSearch.Assemble | server/internal/recommendation/service.go:132-191 | the feed, or the error when both providers failed and did not succeed |
| FeedMeaning.QiitaCandidates | server/internal/recommendation/service.go:146-159 | Qiita's candidates are the valid items of its answers of the last five days |
| FeedMeaning.ZennCandidates | server/internal/recommendation/service.go:146-191 | Zenn's are what searches for tags found in the last fortnight, or before when that is nothing, with the tag added, and the popular ones of the last fortnight |
| FeedMeaning.SearchShowsTheBest | server/internal/recommendation/service.go:132-191 | the feed shows the ten best of each provider's candidates |
| FeedMeaning.WarnedExactly | server/internal/recommendation/service.go:140-180 | a warning for exactly the providers with a failed answer or an invalid item, Qiita first |
| FeedMeaning.FailsExactly | server/internal/recommendation/service.go:176-183 | with valid items, an error exactly when both providers were asked and nothing ever answered |
| FeedMeaning.InvalidExactly | server/internal/recommendation/service.go:146-152 | the items counted as invalid are exactly those without a known source, title, HTTPS address, instant or non-negative likes, or with a blank tag |
| FeedMeaning.ShownAreSound | server/internal/recommendation/service.go:146-191 | whatever the providers send, nothing else is shown |
| FeedSearch.ArrivalOrderDoesNotMatter | server/internal/recommendation/service.go:132-191 | for every order of the same batches: the same verdict, warnings, articles and scores, unless the verdict is contested |
| FeedSearch.ValidItemsAreNotContested | server/internal/recommendation/service.go:146-152 | with valid items the verdict is never contested |
| FeedSearch.ContestedOrdersDisagree | server/internal/recommendation/service.go:140-183 | a contested set of answers has one order that gives the error and one that gives a feed |
| FeedSearch.ContestedAnswers | server/internal/recommendation/service.go:140-183 | such a set of answers: Qiita once clean and once with an invalid item, Zenn failing |
| FeedDb.PickTags | server/internal/interest/top.go:9-33 | computes the specified top five of the positive weights |
| FeedDb.PickedAreHeaviest | server/internal/interest/top.go:9-33 | with distinct rows, the picked are positive, at most five, in order, heavier than every positive row left out, and none is left out when fewer than five are picked |
| FeedDb.FillWithPopular | server/internal/recommendation/service.go:242-261 | the ranked list followed by ranked popular articles that are not in it |
| FeedDb.GetFromDb | server/internal/recommendation/service.go:198-237 | both lists from the stored articles, old Zenn articles only when none is fresh |
| StoredMeaning.TaggedRead | server/internal/store/dbgen/articles.sql.go:256-274 | the newest 500 articles of the source since an instant that carry one of the tags |
| StoredMeaning.PopularRead20 | server/internal/store/dbgen/articles.sql.go:198-208 | the twenty most liked articles of the source since an instant |
| StoredMeaning.QiitaStored | server/internal/recommendation/service.go:198-216 | Qiita's candidates: valid tagged articles of five days |
| StoredMeaning.ZennStoredCandidates | server/internal/recommendation/service.go:210-231 | Zenn's: valid tagged articles of a fortnight or, when there is none, the older ones of thirty days |
| StoredMeaning.StoredFeedShows | server/internal/recommendation/service.go:225-261 | the ten best candidates, then for what is free the best popular articles read that are not shown yet |
| FeedDb.FillIsComplete | server/internal/recommendation/service.go:239-261 | no repeated URL, the ranked list as prefix, and length min(10, all URLs available), although only 20 popular rows are read |
| FeedDb.StoredFeedIsComplete | server/internal/recommendation/service.go:193-274 | the same for both lists of the stored feed |
| SurveyForm.ValidateDefinition | server/internal/userfeedback/definition.go:9-41 | accepts exactly the well-defined forms |
| SurveyForm.WellDefinedMeans | server/internal/userfeedback/definition.go:43-60 | there, the root is the one overall question, and the follow-ups are all others for a score of at most two and none above |
| SurveyAnswers.WellDefinedExactly | server/internal/userfeedback/definition.go:9-41 | a form is accepted exactly when its cooldown is a day or more, keys and places are distinct, and one unconditional question leads to all others up to a score of two |
| SurveyAnswers.OverallMeans | server/internal/userfeedback/definition.go:43-72 | an overall answer is accepted exactly for the unconditional question with a score from 1 to 5, with a follow-up exactly up to two when the form asks more |
| SurveyForm.ValidateFollowup | server/internal/userfeedback/definition.go:74-96 | accepts exactly: follow-ups due, only their questions, valid scores, none twice, every required one |
| SurveyStore.Feedback.OnPresent | server/internal/store/feedback.go:151-203 | one undisturbed request to present, with the latest prompt of the form |
| SurveyStore.Feedback.LastShown | server/internal/store/dbgen/user_feedback.sql.go:248-275 | the latest prompt of a user over all versions of a form |
| SurveyStore.Feedback.OnSubmitOverall | server/internal/store/feedback.go:219-294 | one overall answer: replay, conflict, validation, partial or complete |
| SurveyStore.Feedback.OnCompleteFollowup | server/internal/store/feedback.go:296-358 | one follow-up: replay, conflict, validation, answers and both rows |
| SurveyStore.Feedback.OnDismiss | server/internal/store/feedback.go:360-393 | one dismissal: replay, conflict or the row |
| SurveyStore.Feedback.OnDeleteExpired | server/internal/store/feedback.go:395-412 | chooses the oldest expired prompts, up to the limit, and deletes them with their submissions |
| SurveyAnswers.OverallDecided | server/internal/store/feedback.go:219-294 | every answer to an overall score sent for a prompt without submission: not found, conflict, invalid input or accepted, and the rows then written |
| SurveyAnswers.FollowupDecided | server/internal/store/feedback.go:296-358 | every answer to follow-ups: not found, the same result, conflict, invalid input or accepted, and the rows then written |
| SurveyAnswers.DismissDecided | server/internal/store/feedback.go:360-393 | every answer to a dismissal, which keeps the instant of the first |
| SurveyAnswers.PresentDecided | server/internal/store/feedback.go:151-203 | a prompt not stored is shown exactly when a form is active, well defined and its cooldown over for the user; otherwise the answer says why and from when on |
| SurveyAnswers.PresentStored | server/internal/store/feedback.go:120-149 | a stored prompt is not found for others, summed up when finished, and comes with its form while shown |
| SurveyAnswers.ExpiredMeans | server/internal/store/dbgen/user_feedback.sql.go:28-42 | what is deleted: only prompts past their age, none younger than one that stays, all of them when fewer than the limit; nothing else changes |
| SurveyRuns.StepKeepsInv | server/internal/store/feedback.go:151-412 | every transaction step, interleaved with half-done requests to present, keeps rows, index, distances and locks consistent |
| SurveyRuns.SubmissionsMatchPrompts | server/internal/store/feedback.go:219-393 | submitted exactly when the one submission is complete; what partial and complete submissions hold |
| SurveyRuns.CooldownHolds | server/internal/store/feedback.go:151-203 | two prompts of a user and form key are at least the later one's cooldown apart, whatever instants the requests carried |
| SurveyRuns.StatusesAreFinal | server/internal/store/dbgen/user_feedback.sql.go:392-427 | dismissed and submitted prompts never change while stored |
| SurveyRuns.PresentReplays | server/internal/store/feedback.go:120-149 | presenting a stored prompt again changes nothing and returns what is stored |
| SurveyRuns.SubmitReplays | server/internal/store/feedback.go:238-242 | an accepted answer sent again, at any later time, changes nothing and returns the same submission with its stored status and follow-ups; at once, the very same result |
| SurveyRuns.CompleteReplays | server/internal/store/feedback.go:322-328 | an accepted follow-up sent again changes nothing and returns the same result for good |
| SurveyRuns.DismissReplays | server/internal/store/feedback.go:379-385 | an accepted dismissal sent again returns the same answer for good |
| SurveyRuns.PresentInOneGo | server/internal/store/feedback.go:151-203 | the separate steps of an undisturbed request are the one transaction of the store: it shows a prompt exactly when the steps can read and decide, and otherwise its answer is the replay, the missing or broken form, or the end of the cooldown |
| TagMatch.TagMatcher.constructor | server/internal/articlefetch/tagmatch.go:17-36 | the two maps answer as the rows do |
| TagMatch.TagMatcher.Match | server/internal/articlefetch/tagmatch.go:41-55 | the linear scan: least ID with the name, else the only ID with its space-free form, else none |
| TagMatch.ScanMeans | server/internal/articlefetch/tagmatch.go:41-55 | in the fields of the rows: blank matches nothing; the least ID with the name; otherwise the one ID with the same letters |
| TagMatch.CompactAppends | server/internal/articlefetch/tagmatch.go:38-39 | dropping spaces works character by character |
| TagMatch.TagMatcher.MatchAll | server/internal/articlefetch/tagmatch.go:57-73 | one ID for each distinct hit of the linear scan, in order of the names |
| TagMatch.HitsMean | server/internal/articlefetch/tagmatch.go:57-73 | exactly the IDs that some name hits are returned, each once, ordered by the first name that hits it |

## Left out

- InterestRuns.BoostNeedsLastingSave: the 10 s lie between the start stamps of the two transactions; a save that first waits for the user's lock is stamped earlier than it commits and may have been visible for less.
- RateLimitRuns.GrantsAreBounded: exact arithmetic on reals; rounding of floating-point tokens is not modelled, and the clock does not go backwards.
- RateLimitRuns.ForgettingIsUnobservable: says nothing after an eviction at the cap.
- LoginLimiterRuns.AtMostEightFailures: under the stated use only; the limiter by itself does not stop a failure that was not preceded by a check.
- PasskeyEffects.AutomaticBeginsSpaced: for timers that do not fire before their time and a controller that is mounted again only after it was left.
- FeedMeaning.FailsExactly: with valid items; with invalid ones the order of arrival may decide, as the contested lemmas say.
- StoredMeaning.TaggedRead: for rows with distinct IDs, which the table's key guarantees.
- Scheduler.Scheduler.Process: what other instances write between two steps is arbitrary within the protocol; a cancelled context is never uncancelled.
- PasskeyRuns.NoOverlapWithoutTimeout: timers, including the 4 s limit, may fire at any moment while armed, so real delays are not used.
- SurveyRuns.CooldownHolds: a day is 24 hours; changes of the local offset are not modelled.
- SurveyRuns.StatusesAreFinal: for as long as the prompt is stored; after retention its ID may be used again.
- FeedDb.FillIsComplete: for stored rows that are valid and have distinct URLs; query errors are not modelled.
- Text: Unicode letter case, white space and URL syntax are parameters of the model; only idempotence of normalisation is used.
- PostgreSQL itself: only its row locks, READ COMMITTED snapshots, commits, unique keys and cascades are modelled; deleting users is not.
- The advisory lock of the scheduler is held until it is released or its instance crashes, and a result is not recorded after that; triggers and counters of a run are not stored.
- That every slot is fetched: a run that outlasts the next slot skips it, so this is not claimed.
- The batch upsert of fetched articles with its savepoints, the provider clients, pacing and paging: foreign calls and plumbing.
- The interest snapshot stored with a survey answer, and survey texts.
- Passkey and password checks, sessions, HTTP, logging, configuration and the pages: they hinge on libraries or are plumbing. Handlers of the passkey controller do not call back into it.
- The fan-out of the instant search: its answers arrive as one sequence in an arbitrary order; cancellation shows only as failed answers.
- Runs of the passkey login are records in a sequence that every controller of the page shares, rather than objects of their own.
