# The egress prober, modelled and proved

This project models the concurrent protocols and the exact arithmetic of the egress prober, and proves what they
promise for every input, every run and every interleaving.

| file | what it models |
|---|---|
| `PathContract.dfy` | the tunnel a run rides, seen from outside: a current generation and the tunnels lost |
| `PathTracker.dfy` | the single-flight re-open: each locked scope a method of a class, then any number of callers interleaved |
| `ReopenPromises.dfy` | what that protocol promises its callers, and a run in which it gives one a cold tunnel |
| `ProbePath.dfy` | the owner of one provider's tunnels: re-open, background retirement and close, racing; it refines `PathContract` |
| `TunnelPromises.dfy` | what that owner promises: no tunnel leaked or closed twice, and a close that waits for all |
| `TunnelEnds.dfy` | that its calls and retirements end, and a close is never kept waiting by later calls |
| `SharedPath.dfy` | the two protocols composed: a run's callers on the probe's own path |
| `SlotQueue.dfy` | first-come-first-served slots, and how long a request can wait for one |
| `RetryChain.dfy` | one load's retry chain: spacing, fitting a wait inside the budget, the verdict of its attempts |
| `RunSlots.dfy` | the loads of a run and the slots they hold |
| `HealthRun.dfy` | a whole run: any number of chains, the slots, one deadline and the tracker's protocol, composed |
| `RunPromises.dfy` | what every such run promises: slots, progress, verdicts |
| `RunRecords.dfy` | what such a run records of each attempt |
| `RunEnds.dfy` | that such a run comes to an end |
| `ProbeRun.dfy` | a whole run on the probe's own path: it refines `HealthRun`, and gets on to its end |
| `RunSchedule.dfy`, `RunBudget.dfy` | the schedule behind the default budget, and that every run keeps to it |
| `RunTight.dfy` | a budget shorter than the spacing asks for, and a load that loses no attempt to it |
| `RunExamples.dfy` | a run the default budget covers, and one with a re-open, which it does not cover |
| `Destinations.dfy` | where a destination works from, how a place divides a table, when a table can be run |
| `Sampling.dfy` | the partial Fisher-Yates draw |
| `RunPlan.dfy` | what one run loads: each class's sample in table order, and the canaries |
| `Tally.dfy` | scoring a run, and what its warm-ups saw |
| `Blackhole.dfy` | batches of checks sharing a fixed pool of workers |
| `BatchEnds.dfy` | that its batches come to an end |
| `BatchStops.dfy` | what an ended context or a signal that has fired keeps from starting |
| `Scheduler.dfy` | a pass and its bounded probes, and the cache of recent successes |
| `PassEnds.dfy` | that a pass comes to an end |
| `PassDecisions.dfy` | which providers a pass probes, over any number of passes, and the marks it leaves |
| `Bandwidth.dfy` | bounded parallel streams, one figure over a common window, byte reservations |
| `DialOwner.dfy` | admission of tunnel dials against the close of the request that owns them |
| `Truncate.dfy` | cutting UTF-8 text and lists of names to a number of bytes |
| `Common.dfy`, `Arithmetic.dfy` | counting, and products and quotients |

The protocols are step systems. A locked scope is one step, and so is each call made outside a lock. Channel operations
and reads of a context are steps of their own in `PathTracker`, `ProbePath`, `Blackhole` and `DialOwner`. Two places are
coarser. In `HealthRun` a load that has spent an attempt gives its slot back, reads the context and the clock and fits
its next wait in one step. In `Scheduler` the loop reads the context and the clock for one provider in one step. Steps
of different threads interleave in every way, and the environment (a clock that moves on, a context that ends, a tunnel
that is lost, a signal that fires) can step at any moment. A property of a protocol is proved of every reachable state,
from an invariant every step keeps.

`HealthRun` embeds the whole system of `PathTracker`, so the tracker's promises hold in it unchanged
(`PathPromises`). The tracker moves its path only as `PathContract` allows (`PathFollowsContract`), the probe's own path
keeps that contract in every interleaving (`KeepsContract`), and `SharedPath` composes the two: every step of a run's
callers on the probe's own path is at most one step of the tracker's protocol (`StepRefines`, `Refines`). `ProbeRun`
puts whole runs there: loads, slots and chains over the tracker and the threads that open, swap, retire and close the
probe's tunnels. Each of its steps is at most one step of `HealthRun`, so the promises of a run hold on the real path,
and a load inside Reopen gets on because the thread of that call does.

## Assumptions

- Slots are granted first come, first served, as Go's queue of blocked senders is.
- Tunnel loss is permanent. Clocks never go backwards, except where a lemma says what happens if one does.
- Durations, byte counts and counters are unbounded integers; draws and rates are reals. Overflow and floating-point
  rounding are outside the model. Go's division of durations truncates toward zero, and is modelled so.
- A fetch, a wait, an opened tunnel, a read of a body and the generator's draws are arbitrary inputs.
- A load's own bookkeeping between two waits, fetches or locks takes no time.

## What is not as documented

- `egresshealth/path.go:114-119` says no load is let onto a tunnel before its warm-up. A caller that waited for a
  re-open reads the path's client afterwards, and by then a second re-open may have swapped it:
  `WaiterGetsColdTunnel` is such a run. `ReadAfterReopen` gives the exact condition: the tunnel read is cold if and only
  if another re-open is at that moment between its swap and the end of its warm-up.
- `egresshealth/egresshealth.go:2072-2074` calls the run budget the longest a run can take. Re-opening a tunnel is not
  in it. `OverrunShortensWait` says exactly how much lateness it can take, for every number of loads and attempts: after
  an attempt that is late against its schedule, the longest wait is had in full if and only if the lateness is no more
  than the queueing that the budget allows the remaining attempts, and what the warm-up left over. `ReopenIsNotBudgeted`
  is a run under the default settings in which a re-open makes an attempt late and cuts the wait after it short. With
  re-opens taking no time the budget is sufficient (`DefaultBudgetSuffices`).
- `egresshealth/retry.go:147-151` says every remaining attempt keeps one timeout. A fitted wait leaves them that if and
  only if the draw comes to some wait, or the room left is not short of the timeouts by a positive number of nanoseconds
  smaller than the number of attempts left (`TimeoutsKeptExactly`). `TimeoutsNotKept` is an input on which it does not:
  the second of three attempts, one nanosecond short of two timeouts, and a draw of zero. A draw comes to no wait
  whenever it is below one nanosecond's share of the mean.
- `prober/schedule.go:79-82` says eviction changes no behaviour. It changes none if and only if no provider is asked
  after that was last probed within the window, on the clock then, but that a prune since found out of date
  (`PruningChangesNothingExactly`). On a clock that never goes back that cannot happen (`PruningChangesNothing`), so it
  takes a clock that is set by the caller (`PruningNeedsTheClock`).
- `egresshealth/place.go:65-75` promises that no incompatible destination but a canary is loaded. The plan is merged by
  name, so this holds of tables with unique names (`IncompatibleIsCanary`), which is what `ValidateDestinations` accepts.
  On any table such a destination can be loaded if and only if the place has a canary and the destination shares its
  name with one that is compatible or a canary (`IncompatibleLoadedExactly`; `RepeatedNameIsScored` is an example).
- `ingest/schedule.go:73-83` bounds a list at a number of bytes. From 12 bytes on, every list of n names stays within
  the bound if and only if n is at most 999 (`StaysWithinExactly`). Below 12 bytes a list does if and only if it is whole
  or the bare mark happens to fit (`BareMark`).

## Model

| member | source | states |
|---|---|---|
| PathTracker.PathTracker.constructor | egresshealth/retry.go:88-103 | A new tracker has no re-open in flight and has counted none. |
| PathTracker.PathTracker.Enter | egresshealth/path.go:126-133 | The first locked scope reads the re-open in flight and how many have finished. |
| PathTracker.PathTracker.Decide | egresshealth/path.go:144-163 | The second locked scope joins a re-open in flight, takes a finished one's tunnel, keeps a live client, refuses past the limit, or starts exactly one re-open, counting it. |
| PathTracker.PathTracker.Finish | egresshealth/path.go:183-188 | The last locked scope clears the re-open in flight and counts it finished. |
| PathTracker.StepKeepsInv | egresshealth/path.go:125-211 | Every step of any caller, of the path and of the environment keeps the tracker's invariant. |
| ReopenPromises.SingleFlight | egresshealth/path.go:71-79 | In every reachable state: at most one caller is in a re-open, re-opens started are those finished plus the one in flight, none exceeds the limit, and a running Reopen finds the current tunnel lost at that moment. |
| ReopenPromises.WarmedExactlyOnce | egresshealth/path.go:176-189 | A re-open that succeeded has warmed its tunnel exactly once by the time its waiters are let go, and no tunnel is warmed twice. |
| PathTracker.ReturnedClient | egresshealth/path.go:138-211 | A client returned with no re-open around its read is warm; one returned after k re-opens is of a generation no older than the one they left; one returned by a re-open its caller ran or waited for belongs to one that succeeded, and is the tunnel it opened or a later one. |
| ReopenPromises.ReadAfterReopen | egresshealth/path.go:167-211 | A caller that reads again after a finished re-open, or is told of one that succeeded, is returned the current client; a client read after a finished re-open is cold exactly if another re-open is between its swap and the end of its warm-up (a first tunnel lost before its own warm-up apart). |
| ReopenPromises.WaiterGetsColdTunnel | egresshealth/path.go:205-210 | A reachable run in which a caller that waited is returned a live tunnel no warm-up has run on. |
| ReopenPromises.OutcomeIsShared | egresshealth/path.go:203-211 | Every caller that ran a re-open or waited for it is returned a client exactly if the path's Reopen succeeded, and its failure exactly if it failed. |
| ReopenPromises.RefusalMeaning | egresshealth/path.go:95-97 | A caller is refused only because its re-open failed, because the current tunnel is lost and every re-open is used up, or because the run is over. |
| ReopenPromises.DecisionMeaning | egresshealth/path.go:144-173 | Having looked, a caller waits exactly if some caller is in a re-open; reads again exactly if one finished since it asked; and otherwise keeps the current tunnel if it was live, re-opens it if it was lost and a re-open is left, and is refused if none is. |
| ReopenPromises.RunCanEnd | egresshealth/path.go:195-199 | A caller that waits for a re-open need not once the run has ended: it is told so. |
| ReopenPromises.CallAlone | egresshealth/path.go:125-173 | What a whole call comes to when no other caller's step comes between. |
| ReopenPromises.FailedReopenAlone | egresshealth/path.go:175-190 | A re-open that fails tells its caller so, leaves tunnel and warm-ups as they were, counts, and leaves nobody waiting. |
| ReopenPromises.SuccessfulReopenAlone | egresshealth/path.go:175-190 | One that succeeds returns its caller the tunnel it opened, warmed up once, counts, and leaves nobody waiting. |
| ReopenPromises.PathFollowsContract | egresshealth/path.go:23-33 | The tracker asks no more of a path than its contract: one step leaves it, loses a tunnel or re-opens it once, and only the caller inside Reopen does that. That the probe's path gives all the tracker needs is `SharedPath.Refines`. |
| ProbePath.ProbePath.constructor | fleetprobe/path.go:84-96 | A new path has its first tunnel and client current, is open and has re-opened nothing. |
| ProbePath.ProbePath.Current | fleetprobe/path.go:101-110 | Reads the current tunnel and its client together. |
| ProbePath.ProbePath.Closed | fleetprobe/path.go:115-123 | Reads whether the path is closed. |
| ProbePath.ProbePath.Swap | fleetprobe/path.go:132-148 | Unless closed, makes the new pair current, counts it, and owes the old tunnel a retirement; if closed, changes nothing. |
| ProbePath.ProbePath.Record | fleetprobe/path.go:152-158 | Appends a retirement's error. |
| ProbePath.ProbePath.Retired | fleetprobe/path.go:150-151 | Takes one retirement off the wait group. |
| ProbePath.ProbePath.BeginClose | fleetprobe/path.go:173-187 | Marks the path closed and says whether it already was. |
| ProbePath.StepKeepsInv | fleetprobe/path.go:101-198 | Every step of any Reopen, retirement or Close keeps who is to close each tunnel. |
| TunnelPromises.NeverClosedTwice | fleetprobe/path.go:146-159 | No tunnel is ever closed twice, the current one not before Close, and the client is always the current tunnel's. |
| TunnelPromises.FirstCloseJoins | fleetprobe/path.go:172-198 | When the first Close returns, every tunnel ever current has been closed exactly once, and its error is non-nil exactly if one of those closes failed, naming each. |
| TunnelPromises.ReopenOutcome | fleetprobe/path.go:133-148 | A Reopen that lost the race has closed its own tunnel exactly once, never made current; one that won made its tunnel current. |
| TunnelPromises.NoTunnelLeaked | fleetprobe/path.go:112-198 | With every call and retirement over, every tunnel ever opened has been closed exactly once, but the current one of a path not closed, which is open. |
| TunnelPromises.CloseWaitsForSomeone | fleetprobe/path.go:189-190 | A Close that waits for retirements waits for one that can step. |
| TunnelPromises.OneFirstClose | fleetprobe/path.go:170-187 | Exactly one call closes a path that is closed; the others return no error. |
| TunnelPromises.ReopenAlone | fleetprobe/path.go:112-161 | A whole call of Reopen on an open path: its tunnel is current and the old one, still open, is being retired; or, if none opens, all is as it was. |
| TunnelPromises.CloseAlone | fleetprobe/path.go:172-198 | A whole call of Close with no retirement under way closes the current tunnel and returns that failure, if it failed, and those recorded before. |
| TunnelPromises.RetirementAlone | fleetprobe/path.go:150-160 | A retirement closes the tunnel replaced, records a failure to, and leaves the wait group. |
| TunnelPromises.ClosedOpensNothing | fleetprobe/path.go:113-121 | Once closed, a path opens no tunnel but those being opened already, however often it is asked, and makes none current. |
| TunnelEnds.CloseComesCloser | fleetprobe/path.go:142-190 | Once the path is closed, what its close waits for never grows, whatever is called or lost, and every step of a retirement takes some of it away. |
| TunnelEnds.StepsAreBounded | fleetprobe/path.go:112-198 | In every interleaving a call of Reopen takes at most seven steps, its retirement's included, and a call of Close at most four. |
| TunnelEnds.EveryCallCanEnd | fleetprobe/path.go:112-198 | From every reachable state, with no further call, all calls and retirements can go on until they are over. |
| ProbePath.KeepsContract | fleetprobe/path.go:101-168 | Each step of the path is, to the run, nothing, a loss, or one swap that advances the generation by exactly one; the generation is the count of re-opens. |
| TunnelPromises.GenerationCountsWins | fleetprobe/path.go:112-168 | In every interleaving the generation is the number of Reopen calls that have won: a whole call that succeeds advances it by one, and one that fails by nothing. |
| SharedPath.StepRefines | egresshealth/path.go:125-211 | With the tracker's callers on the probe's own path, every step of either is one step of the tracker's protocol, or none to it. |
| SharedPath.Refines | fleetprobe/path.go:98-198 | In every interleaving of loads, re-opens, retirements, closes and losses, what the callers see is a reachable state of the tracker's protocol, so its promises hold on the probe's path. |
| SharedPath.ReopenedOnlyWhenLost | egresshealth/path.go:27-31 | The probe's path is re-opened by one call at a time, while its current tunnel is lost, and never more often than the run's limit. |
| SharedPath.WholeCall | fleetprobe/path.go:112-161 | When a call of Reopen returns, the generation is one more than when it was called if it succeeded, and the same if it failed. |
| SlotQueue.GrantChain | egresshealth/retry.go:173-183 | Following grants back a round of slots at a time, each round costs at most one hold. |
| SlotQueue.OldestHeld | egresshealth/retry.go:173-183 | While a load waits, the grant one round of slots back is at most one hold old. |
| SlotQueue.WaitBound | egresshealth/egresshealth.go:2072-2084 | A queued request has waited at most one hold for each whole round of slots the other loads can take. |
| SlotQueue.OutstandingCount | egresshealth/retry.go:75-79 | Each load has at most one request outstanding, so with one more load idle the slots held and requests queued are fewer than the loads. |
| SlotQueue.ArriveTiming | egresshealth/retry.go:179-181 | Asking for a slot keeps the bound on how long any request waits. |
| SlotQueue.ReleaseTiming | egresshealth/retry.go:189-203 | Giving a slot back, and the longest waiting load taking it, keeps it too. |
| RetryChain.RetryDelayRange | egresshealth/retry.go:20-43 | A wait is the draw times the mean, less than a unit off below, never over three means, and three means exactly if the draw reaches the cap. |
| RetryChain.SettingsMeaning | egresshealth/egresshealth.go:2086-2158 | A positive setting is what the run goes by, the default otherwise; without an echo there is no warm-up to wait for. |
| RetryChain.TruncatedNonNegative | egresshealth/retry.go:162 | Truncated division is not negative exactly down to a dividend just above minus the divisor. |
| RetryChain.RoomForTheDraw | egresshealth/retry.go:159-167 | With room for a timeout and the longest wait for every remaining attempt, the wait is the one drawn. |
| RetryChain.FullWaitExactly | egresshealth/retry.go:159-167 | A positive drawn wait is had in full exactly if every remaining attempt can be preceded by as long a wait and keep its timeout. |
| RetryChain.NoWaitIsFittedByTruncation | egresshealth/retry.go:162-167 | A drawn wait of zero is let through exactly while the slack is above minus the attempts left, and the chain gives up otherwise. |
| RetryChain.TimeoutsKeptExactly | egresshealth/retry.go:147-167 | For every budget, instant, attempt and draw: a fitted wait leaves every remaining attempt its timeout exactly if it is not a zero wait let through with too little room by less than a nanosecond an attempt. |
| RetryChain.TimeoutsNotKept | egresshealth/retry.go:147-151 | Under the default settings, one nanosecond short of two timeouts, a zero draw lets the second of three attempts through without them. |
| RetryChain.Load | egresshealth/retry.go:153-227 | The retry loop's result is the verdict of the attempts it spends, for every sequence of waits, fetches and endings. |
| RetryChain.HistoryIsChain | egresshealth/retry.go:157-215 | The attempts a load spends are at most its attempts, and all but the last were worth retrying. |
| RetryChain.HistoryIsSpent | egresshealth/retry.go:157-215 | Exactly which attempts a load spends, and as what: each was fitted, its wait and the run not over, and the last settles the load, is its last, or is followed by one that cannot be made. |
| RetryChain.VerdictMeaning | egresshealth/retry.go:122-145 | Ok exactly if some attempt passed; a TLS failure is terminal and never not measured; not measured exactly if nothing passed and the last spent attempt had no live tunnel; the last failure is reported. |
| RetryChain.ShareKept | egresshealth/retry.go:147-167 | A wait that takes no more than its share leaves the next at least as large a share. |
| RetryChain.SharesGrow | egresshealth/retry.go:147-167 | Along a chain whose attempts each take at most a timeout, the share never decreases. |
| RetryChain.TightBudget | egresshealth/retry.go:147-152 | A positive first share means every remaining attempt is made, each with at least one timeout before the deadline. |
| RetryChain.TightBudgetExactly | egresshealth/retry.go:157-171 | A load nothing settles, whose draws all ask for some wait, spends every attempt exactly if its first share is positive, and one attempt otherwise. |
| RunTight.TightRunLosesNothing | egresshealth/retry.go:147-152 | In a whole run: a load whose first share is positive, and whose later attempts each take at most one timeout, the wait for a slot included, is done before the deadline and only once an attempt settled it or all were spent, whatever the other loads do. |
| RunTight.TightRunWaits | egresshealth/retry.go:147-167 | In such a run no later wait of that load is cut below its first share. |
| RunTight.NoShareGivesUp | egresshealth/retry.go:162-166 | In a whole run a load whose first share is not positive, and whose draw asks for some wait, is over with its first attempt. |
| RunSlots.ArriveMatches | egresshealth/retry.go:179-183 | A load that asks for a slot holds the one granted to it, or is in the queue. |
| RunSlots.ReleaseMatches | egresshealth/retry.go:189-203 | A slot given back goes to the load that has waited longest, and each load still holds exactly the slot it was granted. |
| RunSlots.AbandonMatches | egresshealth/retry.go:181-183 | A load whose run ends while it queues leaves the queue, and nothing else changes. |
| HealthRun.StepKeepsInv | egresshealth/retry.go:153-243 | Every step of any load and of the environment keeps slots, chains and path in agreement. |
| RunPromises.PathPromises | egresshealth/retry.go:184-199 | What the loads do to the path is one of the tracker's interleavings, so its promises hold in the run. |
| RunPromises.SlotsConserved | egresshealth/retry.go:75-79 | Slots held never exceed the slots, a sleeping or finished load holds none, and all are free when every load is done. |
| RunPromises.NoDeadlock | egresshealth/retry.go:173-203 | While a load is neither done nor waiting out its spacing, some load can step, although waiters on a re-open hold slots. |
| RunEnds.StepLessWork | egresshealth/retry.go:157-215 | Every step of a load leaves less to do, and the clock, the context and the tunnels never leave more. |
| RunEnds.RunIsBounded | egresshealth/retry.go:231-243 | However a run goes, its loads take at most seventeen steps an attempt between them. |
| RunEnds.EveryRunCanFinish | egresshealth/retry.go:231-243 | From wherever a run has got to it can go on until every load is done, so that the wait for its loads returns. |
| ProbeRun.StepRefines | egresshealth/retry.go:153-227 | With the loads of a run on the probe's own path, every step of a load, of the tracker or of a thread of the path is one step of the run or none to it. |
| ProbeRun.Refines | fleetprobe/path.go:98-198 | In every interleaving of loads, re-opens, retirements and closes, what the loads see is a reachable state of the run, so all its promises hold on the probe's path. |
| ProbeRun.NeverStuck | fleetprobe/path.go:112-161 | While a load is neither done nor waiting out its spacing, a load can step, or the call of Reopen one of them is inside can: its own thread never waits. |
| ProbeRun.StepCloser | egresshealth/retry.go:153-227 | Each such step leaves the loads less to do, or as much and the running Reopen less. |
| ProbeRun.EveryRunCanFinish | egresshealth/retry.go:229-244 | From wherever a run on the probe's path has got to, it can go on until every load is done. |
| RunPromises.DoneIsAVerdict | egresshealth/retry.go:216-227 | What a finished load is recorded as follows from the attempts it spent in the run. |
| RunRecords.FetchIsRecorded | egresshealth/retry.go:198-213 | A fetch that ends spends one attempt, recorded for what it came to; a failed one as under a lost tunnel exactly if the tunnel it went through is lost as it ends. |
| RunRecords.NoClientIsRecorded | egresshealth/retry.go:185-197 | A load that gets no client spends the attempt as one without a tunnel, unless the run is over: then it is done without it. |
| RunRecords.NextIsRecorded | egresshealth/retry.go:157-215 | After an attempt a load is done exactly if that settled it, was its last, or the next is given up; otherwise it waits for as long as was fitted, and is marked exactly if that is not as long as was drawn. |
| RunRecords.FetchUsesClient | egresshealth/retry.go:184-201 | A load fetches through the client the tracker returned it, holding its slot. |
| RunRecords.SleepsItsWait | egresshealth/retry.go:168-170 | A load that waits out its spacing goes on waiting until the wait it was fitted is over, or the run is. |
| RunRecords.EndedRunStartsNothing | egresshealth/retry.go:172-182 | Once the run has ended, a load that waits, or is about to ask for a slot, starts no attempt though slots be free. |
| RunRecords.EndedRunQuits | egresshealth/retry.go:168-183 | Once the run has ended, a load that waits for its spacing or for a slot can stop at once. |
| RunRecords.FailedReopenIsNoTunnel | egresshealth/path.go:193-211 | However the run goes on, the attempt of a load that ran or waited for a re-open that failed is recorded as one without a tunnel, or is not made because the run ends. |
| RunSchedule.BudgetIsFinish | egresshealth/egresshealth.go:2086-2099 | The default budget less the warm-up is exactly when the last load is due to finish. |
| RunSchedule.WaitAsDrawn | egresshealth/retry.go:159-167 | A wait fitted on schedule is the one drawn, and ends by the time the next attempt is due. |
| RunBudget.StepOnSchedule | egresshealth/retry.go:147-152 | Every step in which no slot is held beyond one timeout keeps every load on its schedule. |
| RunBudget.DefaultBudgetSuffices | egresshealth/egresshealth.go:2072-2115 | For every number of loads, slots and attempts, under the default budget or any longer one: every load finishes within it, no drawn wait is shortened and no attempt is lost. |
| RunExamples.SomeRunIsTimely | egresshealth/egresshealth.go:2072-2099 | Runs the budget theorem speaks of exist: one whose load fetches for as long as a whole timeout and passes. |
| RunSchedule.OverrunShortensWait | egresshealth/egresshealth.go:2072-2099 | For every number of loads and every attempt: after one that is late against the schedule, a longest wait is had in full exactly if the lateness is no more than the queueing budgeted for the remaining attempts and what the warm-up left over. |
| RunExamples.ReopenIsNotBudgeted | egresshealth/retry.go:187-203 | A reachable run under the default settings whose load re-opens a tunnel within its first attempt and has its next wait cut short. |
| Destinations.FindIncompatible | egresshealth/place.go:53-60 | Finds whether some entry covers the place. |
| Destinations.IncompatibleMeaning | egresshealth/place.go:56-65 | A destination is incompatible with a place exactly if one of its entries covers it. |
| Destinations.CoversMeaning | egresshealth/place.go:22-38 | An entry with no region covers just the places of its country, one with a region just those of that region of it, one with no country none; case and space aside. |
| Destinations.TrimMeaning | egresshealth/place.go:31-36 | A trimmed text is what is between the spaces, and has none at either end. |
| Destinations.UnknownPlaceExcludesNothing | egresshealth/place.go:22-35 | A provider of unknown country is incompatible with nothing. |
| Destinations.ValidateDestinations | egresshealth/pool.go:135-163 | Reports every problem and nothing else, and so none exactly if the table is not empty, every destination is valid, names are unique and every scored class is there. |
| Destinations.ValidateMeaning | egresshealth/pool.go:187-251 | A destination is accepted exactly if it breaks none of thirteen rules, each stated on its own, and is refused for one it breaks. |
| Destinations.NoProblemExactly | egresshealth/pool.go:123-134 | There is nothing to report exactly if the table can be run. |
| Destinations.ForPlace | egresshealth/place.go:76-87 | Splits a table into the compatible destinations and the canaries, both in table order. |
| Destinations.SplitMembers | egresshealth/place.go:62-87 | A destination is sampled from exactly if it is compatible, and a canary exactly if it is incompatible and marked. |
| Sampling.PartialShuffle | egresshealth/egresshealth.go:2297-2301 | The in-place loop swaps each draw into its place. |
| Sampling.DrawIsABijection | egresshealth/egresshealth.go:2271-2301 | Draw sequences and ordered choices of as many elements are in bijection. |
| Sampling.EveryArrangementIsDrawn | egresshealth/egresshealth.go:2271-2301 | Every ordered choice is what some draws leave. |
| Sampling.DrawsAreRecovered | egresshealth/egresshealth.go:2271-2301 | What draws leave is an ordered choice, and no other draws leave it. |
| Sampling.EverySubsetEquallyLikely | egresshealth/egresshealth.go:2273-2274 | Every subset of n elements is left by exactly n! of the legal lists of draws. |
| Sampling.DrawsLeavingMembers | egresshealth/egresshealth.go:2297-2302 | The lists counted are exactly the legal draws whose shuffle leaves the subset in the first n places. |
| RunPlan.ListClasses | egresshealth/egresshealth.go:2241-2252 | Lists a table's classes in the order they first occur. |
| RunPlan.ClassesOnce | egresshealth/egresshealth.go:2241-2252 | No class is listed twice. |
| RunPlan.ClassesMembers | egresshealth/egresshealth.go:2241-2252 | A class is listed exactly if some destination has it. |
| RunPlan.GroupByClass | egresshealth/egresshealth.go:2284-2287 | Collects each class's positions, nothing for a class that is not there. |
| RunPlan.IndicesMembers | egresshealth/egresshealth.go:2284-2287 | A position is collected for a class exactly if the destination there is of it. |
| RunPlan.CountSample | egresshealth/egresshealth.go:2257-2269 | Counts the destinations a run samples of a class. |
| RunPlan.DrawClass | egresshealth/egresshealth.go:2291-2302 | One class's pick: all of it, or its shuffled front. |
| RunPlan.ClassPickMeaning | egresshealth/egresshealth.go:2291-2302 | A class's pick has no repeats, is of that class, and is as large as its sample. |
| RunPlan.EverySampleEquallyLikely | egresshealth/egresshealth.go:2271-2302 | Of the lists of draws for a class with more destinations than its sample takes, each subset of that size is picked by exactly as many: one for each order of it. |
| RunPlan.PickClasses | egresshealth/egresshealth.go:2289-2303 | Picks class by class, each position once. |
| RunPlan.SamplePositions | egresshealth/egresshealth.go:2289-2304 | The positions picked, strictly increasing: exactly those drawn. |
| RunPlan.SortInts | egresshealth/egresshealth.go:2304 | Puts positions in strictly increasing order, none lost or added. |
| RunPlan.SelectAt | egresshealth/egresshealth.go:2306-2310 | Lists the destinations at the positions given, in order. |
| RunPlan.SampleDestinations | egresshealth/egresshealth.go:2283-2311 | Selects the destinations at the positions drawn, in table order. |
| RunPlan.SampleSizes | egresshealth/egresshealth.go:2254-2311 | Of every class exactly as many positions are drawn as its sample takes. |
| RunPlan.ListShort | egresshealth/egresshealth.go:2004-2016 | Lists, in the classes' order, those with fewer compatible destinations than declared. |
| RunPlan.CountClasses | egresshealth/egresshealth.go:2007-2010 | Counts every class's destinations. |
| RunPlan.NamesOf | egresshealth/egresshealth.go:2021-2027 | Collects the names picked. |
| RunPlan.FilterByName | egresshealth/egresshealth.go:2028-2033 | Keeps, in table order, the destinations whose name was picked. |
| RunPlan.PlanRun | egresshealth/egresshealth.go:1992-2034 | What one run loads and the classes it could not fill, sampled or in full, with or without canaries. |
| RunPlan.PlanIsSampleAndCanaries | egresshealth/egresshealth.go:2018-2034 | With unique names: the loads are some of the table in its order, none twice; those scored are exactly the sample and the others exactly the canaries. |
| RunPlan.IncompatibleIsCanary | egresshealth/place.go:67-75 | With unique names every incompatible load is a canary. |
| RunPlan.IncompatibleLoadedExactly | egresshealth/egresshealth.go:2018-2034 | On any table, an incompatible destination that is no canary is loaded by a run of all, and by some draws of a sampled run, exactly if the table holds it, the place has a canary, and it shares its name with a compatible destination or a canary. |
| RunPlan.RepeatedNameIsScored | egresshealth/egresshealth.go:2018-2034 | A table with a repeated name whose plan scores an incompatible destination. |
| RunPlan.ClassShare | egresshealth/egresshealth.go:259-264 | In sampled mode each scored class gets its declared number of loads, or all the compatible ones if fewer. |
| RunPlan.ShortExactly | egresshealth/egresshealth.go:2004-2016 | A class is named short exactly if the run scores fewer of it than declared. |
| Tally.Score | egresshealth/egresshealth.go:2343-2372 | One pass marks the canaries and counts passed, scored and not measured loads, in all and by class, and any TLS failure. |
| Tally.CountCheck | egresshealth/egresshealth.go:2350-2371 | One check is counted: in no tally if it is a canary, as not measured if it was not, and otherwise in its class and in all, passed if it passed. |
| Tally.ChecksPartition | egresshealth/egresshealth.go:2679-2692 | Passed, failed, not measured and canary partition the checks, and the failed names are the total less the passed. |
| Tally.CanariesPartition | egresshealth/egresshealth.go:2694-2705 | Canaries are passed, failed or not measured. |
| Tally.ClassesSum | egresshealth/egresshealth.go:2343-2372 | The class tallies, in any order they are listed, sum to the run's total and passed. |
| Tally.ListNames | egresshealth/egresshealth.go:2709-2720 | Lists the names of the checks selected. |
| Tally.NameOfEach | egresshealth/egresshealth.go:2707-2720 | Each check selected is named once, at its place among them in table order. |
| Tally.VerdictIsEither | egresshealth/retry.go:206-225 | A chain's verdict is never both passed and not measured, nor both a TLS failure and not measured. |
| Tally.ClassAddsUp | egresshealth/egresshealth.go:2350-2371 | Across planning and scoring: a class's scored and not measured loads together are its declared sample size, or all the compatible destinations if fewer. |
| Tally.ExitRecord.constructor | egresshealth/retry.go:249-258 | A new record has seen nothing. |
| Tally.ExitRecord.Record | egresshealth/retry.go:260-282 | After any outcomes: the first address stands with its time, an error stands while no address does, and a TLS failure is never forgotten. |
| Tally.FirstAddressStands | egresshealth/retry.go:260-262 | The first outcome that carries an address is the one that stands, whatever follows. |
| Blackhole.StepKeepsInv | fleetprobe/blackhole.go:245-305 | Every step of an admission loop, a worker and the environment keeps batches, jobs and workers in agreement. |
| Blackhole.BatchAtAnyTime | fleetprobe/blackhole.go:245-304 | Accepted jobs are a prefix of the providers, each body has run at most once and no other's at all, the wait group is balanced, and no two workers share a job. |
| Blackhole.BatchJoins | fleetprobe/blackhole.go:264-305 | When a batch returns, the body of every job it had accepted has run exactly once, even if the pool was ended, all of them are over, and no worker is in any. |
| Blackhole.WorkIsBounded | fleetprobe/blackhole_worker_pool.go:33-50 | However many batches share a pool, jobs in flight never exceed its workers. |
| Blackhole.PoolJoins | fleetprobe/blackhole_worker_pool.go:82-87 | With all its workers gone, a pool has no accepted job unfinished and accepts none. |
| Blackhole.EventsBalance | fleetprobe/blackhole.go:279-298 | Started checks are the completed, canceled and discarded ones, and the checks retained are the completed. |
| Blackhole.LateResultDropped | fleetprobe/blackhole.go:282-291 | A result is kept exactly if its batch's context has not ended when it comes back. |
| Blackhole.KeptAreCompleted | fleetprobe/blackhole.go:282-298 | At any moment the results kept are exactly the completed checks', and only a batch whose context has ended has canceled ones. |
| Blackhole.ResultsStand | fleetprobe/blackhole.go:279-298 | Over any run, a batch's results stand as they are from the end of its context on, and a completed check's result stands for good. |
| Blackhole.MinimumAdmitted | fleetprobe/blackhole.go:251-263 | Unless context or pool ends, the first MinimumAdmission checks all start, whatever the stop signals do, and all the others unless one fires. |
| BatchStops.EndedStartsNothing | fleetprobe/blackhole.go:266-271 | Once a batch's context has ended, no job a worker has not begun, handed over or not, ever starts a check. |
| BatchStops.StoppedStartsNothing | fleetprobe/blackhole.go:272-278 | Once either signal has fired, no check past the minimum that has not started ever does. |
| BatchStops.StoppedLoopLeaves | fleetprobe/blackhole.go:247-263 | A loop that context, pool or signal has stopped needs no worker to get to its join, and the next check of what stopped it sends it there. |
| BatchStops.EndedPoolTakesNothing | fleetprobe/blackhole_worker_pool.go:38-42 | Once the pool has ended, a worker between jobs takes no other. |
| BatchStops.AdmissionStops | fleetprobe/blackhole_worker_pool.go:57-80 | Once context or pool has ended a batch has at most the one job it was offering accepted, and once a signal has fired past the minimum at most the one it was handing over. |
| Blackhole.BatchNeverStuck | fleetprobe/blackhole_worker_pool.go:57-80 | Until a batch returns, its loop or a worker can step, the pool ended or not. |
| BatchEnds.StepLessWork | fleetprobe/blackhole.go:245-305 | Each step of a loop or a worker leaves less to do, and no signal leaves more, however many batches share the pool. |
| BatchEnds.PoolIsBounded | fleetprobe/blackhole_worker_pool.go:33-87 | The loops and workers of a pool take at most ten steps a provider, seven a batch and two a worker. |
| BatchEnds.EveryBatchCanReturn | fleetprobe/blackhole.go:264-305 | From every reachable state each batch can go on until it returns, its pool ended or not. |
| Blackhole.Summarize | fleetprobe/blackhole.go:307-326 | The summary holds the results there are, and counts the dark, the tunnel failures and the not measured among them. |
| Blackhole.SummaryPartition | fleetprobe/blackhole.go:307-326 | The results reported are the dark, the not measured and the others, and the dark are those whose tunnel failed and those whose did not. |
| Blackhole.ChecksInOrder | fleetprobe/blackhole.go:307-314 | The checks reported keep provider order. |
| Scheduler.Scheduler.constructor | prober/schedule.go:31-40 | A new scheduler has an empty cache. |
| Scheduler.Scheduler.RecentlyProbed | prober/schedule.go:52-61 | Says whether a provider was probed successfully within the window. |
| Scheduler.Scheduler.MarkProbed | prober/schedule.go:64-72 | Records a success at the current time, and nothing else. |
| Scheduler.Scheduler.Prune | prober/schedule.go:83-95 | Evicts exactly the entries out of date. |
| Scheduler.PruningChangesNothing | prober/schedule.go:79-82 | Over any passes on a clock that does not go back, a pruned cache makes exactly the decisions of one never pruned. |
| Scheduler.PruningChangesNothingExactly | prober/schedule.go:52-95 | A pruned cache makes the decisions of one never pruned exactly if no provider is asked after whose last mark is within the window then though a prune since found it out of date. |
| Scheduler.PruningNeedsTheClock | prober/schedule.go:35-36 | On a clock that goes back, a pruned cache can probe again a provider within its window. |
| PassDecisions.MetMeaning | prober/schedule.go:153-190 | A provider met for the first time with the context not ended goes on to be probed exactly if the cache has no mark of it from within the window; one met before is skipped; and an ended context skips all that are left. |
| PassDecisions.PassIsHistory | prober/schedule.go:112-243 | A pass's decisions are the answers to its questions, and the cache it leaves is what its prune and its marks make of the one it found. |
| PassDecisions.SkippedExactlyIfRecent | prober/schedule.go:52-95 | Over any number of passes, however their probes interleave, a provider asked about is skipped exactly if its last successful probe, in whichever pass, is within the window. |
| PassDecisions.MarkedExactlyIfSucceeded | prober/schedule.go:236-239 | A pass that returns leaves a mark of its own for exactly the providers whose probe succeeded, and for the others what the pruned cache had. |
| PassDecisions.NoWindowProbesAll | prober/schedule.go:165-184 | With no window, no mark from the future and no cancellation, every provider of a batch is attempted once, however often it is named. |
| Scheduler.PassAddsUp | prober/schedule.go:112-243 | Over any batch and cancellation: attempted and skipped are all the providers, submitted are the attempts that succeeded and failed the others, not measured among the failed, and no slot is left taken. |
| Scheduler.ProbedOnce | prober/schedule.go:141-157 | No provider is probed twice in a pass, and probes in flight never exceed the concurrency, at least one. |
| Scheduler.WaitsOnlyWhenFull | prober/schedule.go:176-179 | The loop waits for a probe to end only while as many hold a slot as the concurrency allows, at least one. |
| Scheduler.PassNeverStuck | prober/schedule.go:151-242 | Until a pass returns, its loop or one of its probes can step. |
| PassEnds.StepLessWork | prober/schedule.go:141-242 | Each step of the loop or of a probe leaves less to do, and the clock and the context leave no more. |
| PassEnds.PassIsBounded | prober/schedule.go:112-243 | A pass takes at most eight steps a provider and three besides, whenever its context ends. |
| PassEnds.EveryPassCanReturn | prober/schedule.go:112-243 | From every reachable state the pass can go on until it returns. |
| Bandwidth.Stream.constructor | bandwidth/bandwidth.go:491-493 | A new stream has read nothing. |
| Bandwidth.Stream.Land | bandwidth/bandwidth.go:523-535 | One read is counted: always towards the total, and towards the steady state exactly from the warm-up's end on. |
| Bandwidth.Stream.ReadStream | bandwidth/bandwidth.go:506-561 | A stream's fields are exactly the totals, first steady instant and last instant of what its reads moved, within the allowance; it reads until it must stop; and its error says that the last read broke off short. |
| Bandwidth.StopsAtLast | bandwidth/bandwidth.go:513-561 | Which reads a stream makes: each moves what arrives of a buffer or of what is left; all but the last end with more to come, in time and short of the allowance, and the last does not; and the stream fails exactly if that one broke off short. |
| Bandwidth.Aggregate | bandwidth/bandwidth.go:595-682 | One pass over the streams gives the published figure, the fallback, or the reason there is none. |
| Bandwidth.MovesInTime | bandwidth/bandwidth.go:513-561 | What a stream's reads move is in the order they complete. |
| Bandwidth.Measure | bandwidth/bandwidth.go:564-682 | Draining every stream and aggregating them gives the published figure of streams whose states describe what each moved. |
| Bandwidth.FailsExactlyIfBroken | bandwidth/bandwidth.go:615-622 | A measurement fails exactly if some stream's last read broke off, and then it gives no figure. |
| Bandwidth.FigureExactly | bandwidth/bandwidth.go:615-632 | There is a figure exactly if no stream failed, some byte moved, and the last of them after the start; it counts every byte moved. |
| Bandwidth.WarmupExcludedExactly | bandwidth/bandwidth.go:652-682 | A figure leaves the warm-up out exactly if, between the first move after it and the last, some byte moved and at least a quarter of the transfer's time passed. |
| Bandwidth.WindowStartMeaning | bandwidth/bandwidth.go:399-410 | The window starts with the first move of any stream once the warm-up is over. |
| Bandwidth.WindowEndMeaning | bandwidth/bandwidth.go:411-414 | The window ends with the last move of any stream. |
| Bandwidth.RateMeaning | bandwidth/bandwidth.go:662 | A rate over its seconds gives the bytes. |
| Bandwidth.SumsBounded | bandwidth/bandwidth.go:509-538 | Steady bytes never exceed the total, and the total never exceeds the streams' allowances. |
| Bandwidth.SteadyInWindow | bandwidth/bandwidth.go:399-424 | The steady bytes are exactly what all the streams moved between the window's start and its end. |
| Bandwidth.InflatedAtMostFourfold | bandwidth/bandwidth.go:630-652 | A window of at least a quarter of the transfer inflates its rate at most fourfold. |
| Bandwidth.PublishedIsHonest | bandwidth/bandwidth.go:630-682 | The figure is the window's bytes over the window, at most four times the transfer's own rate; one that leaves the warm-up out took at least four thirds of it, so its transfer's rate is at most 24 MiB a second. |
| Bandwidth.SampleOne | bandwidth/bandwidth.go:784-835 | One target: skipped for time before anything is reserved, or for its reservation before anything is moved, or measured and submitted. |
| Bandwidth.SampleTargets | bandwidth/bandwidth.go:837-841 | One result for each target, in order, each its own. |
| Bandwidth.OutcomeMeaning | bandwidth/bandwidth.go:765-835 | When a target is skipped, and why; which fault it has; and that it has a figure only if it was measured. |
| Bandwidth.MeasuredExactly | bandwidth/bandwidth.go:784-835 | A target's transfer, and its reservation, are made exactly if its result says it was neither skipped nor refused a reservation. |
| Bandwidth.FiguresSubmitted | bandwidth/bandwidth.go:823-835 | What is submitted is exactly each target's own figure, and only if it has one. |
| Bandwidth.NothingUnreserved | bandwidth/bandwidth.go:795-841 | With a reserver, every transfer directly follows a successful reservation of its own, every submission the transfer it reports, and at every moment bytes moved are at most bytes reserved. |
| Bandwidth.NoMeasurementUnreserved | bandwidth/bandwidth.go:795-841 | The same of measurements whose streams were drained as they are, with nothing assumed of their sizes. |
| DialOwner.RequestOwner.constructor | providertunnel/http_request_owner.go:33-38 | A new owner is open and has admitted nothing. |
| DialOwner.RequestOwner.Admit | providertunnel/http_request_owner.go:58-66 | Admits and counts a dial unless the request is closed or its context over. |
| DialOwner.RequestOwner.Ended | providertunnel/http_request_owner.go:83-88 | Takes one dial off the wait group. |
| DialOwner.RequestOwner.MarkClosed | providertunnel/http_request_owner.go:41-45 | Marks the request closed. |
| DialOwner.StepKeepsInv | providertunnel/http_request_owner.go:40-89 | Every step of close, of any dial and of the environment keeps the wait group exact. |
| DialOwner.CloseJoins | providertunnel/http_request_owner.go:20-22 | Once close has returned, no dial it admitted is running and however many come late none is ever admitted. |
| DialOwner.WaitGroupBalanced | providertunnel/http_request_owner.go:64-88 | A dial that ends was counted: the wait group never goes below zero. |
| DialOwner.CloseComesCloser | providertunnel/http_request_owner.go:40-48 | Close never waits for nothing; no other step adds to its work, and each step it waits for takes some away. |
| DialOwner.CloseReachesEveryDial | providertunnel/http_request_owner.go:79-82 | After close cancels, every running dial's context has ended or is about to, and none ended before the owner's. |
| DialOwner.CloseGoesThrough | providertunnel/http_request_owner.go:40-48 | Close marks the request closed, ends its context, and returns exactly when no admitted dial is left. |
| DialOwner.DialGoesThrough | providertunnel/http_request_owner.go:53-89 | A dial is admitted, and counted, exactly if the request is not closed and its context not over when it asks; admitted it runs, and it can always end. |
| Truncate.TruncateUtf8 | ingest/schedule.go:60-71 | The loop backs up to the start of a character. |
| Truncate.EncodedIsChar | ingest/schedule.go:56-71 | The UTF-8 bytes of every character are taken for one character. |
| Truncate.CharIsEncoded | ingest/schedule.go:56-71 | Whatever is taken for a character is the UTF-8 bytes of one. |
| Truncate.CutIsLongest | ingest/schedule.go:56-71 | Of valid UTF-8 it keeps the longest valid prefix within the bound. |
| Truncate.TruncateNameList | ingest/schedule.go:83-108 | The loop keeps whole names while they leave room for the mark, and marks how many it dropped. |
| Truncate.KeptIsLongest | ingest/schedule.go:73-101 | What is kept is the longest run of whole names from the start that leaves room for the mark, and some name is dropped. |
| Truncate.MarkCountsTheDropped | ingest/schedule.go:83-108 | Of a list too long whose first name leaves room for the mark, the longest run of whole names that does is kept, and the mark says how many follow it. |
| Truncate.MarkCountsThemAll | ingest/schedule.go:102-106 | If it leaves none, a part of the first name is kept and the mark counts every name. |
| Truncate.StaysWithin | ingest/schedule.go:73-108 | From 12 bytes on and up to 999 names, the list stays within its bound. |
| Truncate.BareMark | ingest/schedule.go:96-106 | Below 12 bytes a list too long becomes the bare mark, and a list stays within its bound exactly if it is whole or the mark is that short. |
| Truncate.ThousandNamesOverrun | ingest/schedule.go:94-106 | At every bound from 12 bytes on, a thousand names and more, the first a letter too long to be kept, overrun it. |
| Truncate.StaysWithinExactly | ingest/schedule.go:83-108 | At every bound from 12 bytes on, every list of n names stays within it exactly if n is at most 999. |
| Truncate.DecimalDenotes | ingest/schedule.go:105-107 | The number in a mark is written in decimal digits that evaluate to it. |
| Truncate.MarksDiffer | ingest/schedule.go:73-82 | Marks of different numbers differ, so the mark reports exactly the number dropped. |
| Truncate.ShortenedIsText | ingest/schedule.go:73-108 | A list of valid names is valid text, cut or not. |
| Truncate.PartOfFirstName | ingest/schedule.go:102-106 | When not even the first name fits, what is kept is a part of that name alone. |

## Left out

- HTTP, TLS, JSON and certificates: a fetch is an arbitrary outcome; the libraries that carry it out are not part of
  this model.
- The built-in destination table and the request profile: data.
- Loads that never start: the early returns of `Check` for no client, no destinations or a context already over, and
  the errors that name them.
- Status codes, latencies and byte counts of a check, the text of errors, log lines and `Result.Summary`'s rendering.
- What the pool closing early is reported as (`fleetprobe/blackhole.go:327-329`), and the logging limits of
  `prober/schedule.go:203-234`.
- The warm-up's own fetch and deadline: it is one step that ends, and its outcomes are given to the exit record.
- Streams that fail to open: the measurement then reads nothing and fails (`bandwidth/bandwidth.go:564-593`).
- The fixed client (`egresshealth/path.go:35-54`): the case of the tracker in which no tunnel is ever lost.
- A pool private to a batch is linked to the batch's context in the code; here the two end independently, which only
  adds runs.
- A dial that no owner admitted (`providertunnel/http_request_owner.go:54-57`), and deadlines copied to a dial's context.
- Confinement, the control plane, credentials, flags and the main loop.
- Health runs, batches and passes are steps on values: what is not modelled there is memory, that is, writes into the
  result slices in place by the goroutines that own each element. The fields behind locks are classes.
- Destinations.FindIncompatible: trims and folds ASCII only; the code's comparison also folds the letters of other
  alphabets.
- Bandwidth.Aggregate: takes the streams' final states by value; the streams themselves are objects that are updated in
  place.
- Tally.Score: updates a result by value, where the code updates one in place.
- Randomness: that the generator's draws are uniform and independent. What is proved is that the draws and the ordered
  samples correspond one to one.
