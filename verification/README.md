# Availability supervisor of the unreliable banking system

This project models the supervisor in `webmon.js` in Dafny. The supervisor
starts the banking service (UBS) as a child process and probes it at a fixed
interval. For each failure category it counts consecutive outcomes: HTTP 403
(`consecutive403`), HTTP 500 (`consecutive500`) and timeouts
(`consecutiveTimeout`). When a counter reaches the configured `retrytimes`,
the supervisor restarts the child if that category's action is `"restart"`,
and then resets the counter.

The model is a pure transition system:

- `Outcomes`: the completed probe, `Response(status)` or `Rejected(code)`,
  and its classification. `"ECONNABORTED"` is the timeout code.
- `Config`: one `(retrytimes, action)` policy per failure category.
- `Effects`: what a step does to the outside world, in order: log lines,
  `Spawn(pid)` and `Kill(pid)`. Also a generic fold of a step function over
  an event sequence.
- `Process`: `startUBS`, `restartUBS` and the per-child `exit` listener,
  over an optional handle. Next to the handle, the model keeps two sets:
  - `live`: children whose exit has not been reported yet;
  - `killed`: live children that were already sent a kill signal.
  Pids come from a counter, so every spawn is fresh.
- `Streaks`: the three counters.
- `Monitor`: `monitorServer` for one completed probe, the exit
  notification, and `Run` over a sequence of events.
- `Runs`: properties over whole runs.
- `Scenarios`: concrete runs.

The exit listener clears the handle whichever child exited. A restart kills
the old child and at once stores the new one in the handle, but the old
child reports its exit only later. Unless the new child exits first, that
report clears the handle of the new child, which keeps running
unreferenced. `Runs.RestartMakesOldExitLate` proves that every restart with
a child present sets up this late exit. If a later breach of a category
whose action is `"restart"` follows, a second child is spawned while the
first is still running. `Scenarios.LateExitLeavesTwoChildren` exhibits
this. `Runs.RunKeepsTracked` proves that without such late exits at most
one child runs and the handle refers to it.

A response status other than 200, 403 or 500 matches no branch of the
`try` block (webmon.js:111-149). It is not logged and changes nothing; the
model's `Ignored` does the same.

## Model

| member | source | states |
|---|---|---|
| Outcomes.Classify | webmon.js:109-168 | status 200 is success; 403, 500 and a rejection with code `ECONNABORTED` are exactly the failures of their category; any other rejection is a connection error; any other status matches no branch |
| Config.ParseAction | webmon.js:131-133 | only the exact text `"restart"` selects a restart; every other action text, in any case or with any padding, does nothing; `Monitor.ProbeStep` reads every policy's action text through it |
| Streaks.Set | webmon.js:125-126 | bumping or resetting one category's counter leaves the other two counters unchanged |
| Streaks.ZeroIsWithin | webmon.js:43-45 | the initial counters are all 0, below every positive threshold |
| Process.Start | webmon.js:69-85 | with a handle present: no spawn, same state, one error log; with none: exactly one spawn of a fresh pid that becomes the handle and joins the live children |
| Process.Restart | webmon.js:90-97 | with a handle present: kill that child before spawning a fresh one that becomes the handle, and mark the old child as signalled; with none: exactly `Start` |
| Process.Exit | webmon.js:80-84 | the exit of a live child clears the handle unconditionally, logs one error and removes that child from the live set; a pid with no live child changes nothing |
| Process.StartRestartKeepTracked | webmon.js:70-96 | start and restart keep the handle referring to the only running child; after a restart exactly one child runs |
| Process.ExitKeepsTrackedIffNotLate | webmon.js:80-84 | an exit keeps the handle tracking the running children if and only if it is not the late exit of an already-killed child |
| Monitor.StartMonitoring | webmon.js:177-179 | monitoring begins with all counters at 0 and exactly one spawned child held by the handle |
| Monitor.ProbeStep | webmon.js:103-170 | 200 clears all counters and never restarts; a failure logs its bumped count, changes only its own counter, resets it to 0 exactly on `count >= retrytimes`, and restarts (one spawn, killing the old handle if any) exactly when that category's action is restart; connection errors and unknown statuses change nothing; counters stay below positive thresholds |
| Monitor.ExitStep | webmon.js:80-84 | the exit notification leaves the counters alone, clears the handle of a live child, and neither spawns nor kills |
| Runs.RunKeepsGood | webmon.js:125-163 | with every `retrytimes >= 1`, every counter stays in `[0, retrytimes - 1]` after any sequence of events |
| Runs.StepStreak | webmon.js:124-164 | one step adds 1 to the counter of `cat` only for a failure of `cat`, and logs at most one breach of `cat`, exactly when that failure reaches the threshold |
| Runs.StreakArithmetic | webmon.js:124-164 | over any events without a 200: breaches of `cat` times `retrytimes` plus the final counter equals the initial counter plus the number of `cat` failures, whatever other categories and exits intervene |
| Runs.StreakDivMod | webmon.js:124-164 | the same as quotient and remainder: final counter is `(c0 + n) % retrytimes`, breaches are `(c0 + n) / retrytimes` |
| Runs.ThresholdFailuresBreachOnce | webmon.js:129-136 | exactly `retrytimes` failures of a category from a zero counter, with no 200 between, give exactly one breach and leave the counter at 0 |
| Runs.RestartsFollowBreaches | webmon.js:129-163 | when only one category can fail, the child is spawned once per breach if that category's action is restart, and never otherwise |
| Runs.UnclassifiedProbesAreInert | webmon.js:150-168 | probes ending in a non-timeout error or an unexpected status leave the whole state unchanged and never spawn or kill |
| Runs.CounterSinceLastSuccess | webmon.js:111-115 | after the last 200, each counter equals the number of later failures of its category modulo `retrytimes`, whatever came before |
| Runs.StepKeepsTrackedIffNotLate | webmon.js:80-96 | any step keeps the handle tracking the running children exactly when it is not the late exit of a killed child |
| Runs.RestartMakesOldExitLate | webmon.js:80-96 | with a child held, a probe makes that child's later exit a late exit exactly when it restarts; that exit then clears the handle while the new child keeps running |
| Runs.RunKeepsTracked | webmon.js:70-96 | a run in which no exit arrives as a late exit keeps the handle tracking the running children, so at most one child runs |
| Scenarios.ThreeForbiddenRestartOnce | webmon.js:124-136 | with threshold 3, three 403s after start give exactly one restart and a 403 counter of 0 |
| Scenarios.SuccessBreaksStreak | webmon.js:111-136 | with threshold 3, the sequence 403, 403, 200, 403 gives no restart and a 403 counter of 1 |
| Scenarios.LateExitLeavesTwoChildren | webmon.js:80-96 | with threshold 1, a restart, the late exit of the killed child, and a second restart leave two children running, only one of them ever signalled |

## Left out

- HTTP client behaviour: the mapping from a real response to `Response` or `Rejected` is not modelled. With the client's default status validation, 403 and 500 responses would reject. They would then reach the error branch with a code other than `ECONNABORTED` and be logged as connection errors. The model takes the branches as written, over the abstract probe result.
- Timers: the 2-second startup delay and the polling interval are not modelled. Neither are the probe deadline `waittime` (a timeout is the `ECONNABORTED` code) or overlapping probes. Each probe completion is one atomic event.
- Configuration and environment loading, the target URL, and the log file are left out: they are file, environment and JSON I/O. The configuration is a parameter. Log lines are effects, without timestamps or colours. The exit log carries the pid but not the exit code or signal.
- Thresholds are integers. A missing or non-numeric `retrytimes`, which makes `>=` always false, is not modelled.
- The `http200` policy is not modelled: the code that would use it is commented out.
- Spawn failures and the child's inherited standard I/O are not modelled. A kill always sends its signal; the child's death is the later exit event.
- The demo service (`server/server.js`) is not part of this model: it picks outcomes at random and serves HTTP.
- The load-test client (`client/client.js`) is not part of this model: it is a request loop with console and file output.
