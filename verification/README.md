# A verified model of mcp_socket_server

mcp_socket_server bridges tool calls to many target machines, each running a socket server on a TCP
port. One call becomes one task per target; tasks of different calls run at the same time and share
state locks, connection pools and a target registry. This project models the parts whose correctness
depends on that sharing, and on bytes staying aligned on a connection, and proves what holds in every run.

Verify everything with `dafny verify dfyconfig.toml` (Dafny 4.11).

## How it is built

- `Locks`, `Pools`, `Registry`, `Client`, `Upload` hold the code's classes with mutable fields. Each
  method is proved against functions on plain values (`LockState`, `PoolState`, rows, byte streams).
- `Protocol` is a step machine over those same functions: unbounded tasks and targets, every task with
  a program counter, one step per critical section (`with lock` block) or event outside the locks.
  Theorems about `Exec` and `Reachable` are about every interleaving. The agents are part of the
  machine: each carries out a request at its own time, during the call or long after it has timed out,
  and only an answer that reports success says that it did; a capture may also end by itself. `Exclusion`, `Slots`, `Captures`, `Running` and `Progress` are the invariants
  and main results, and `LostKeys` the runs in which a running capture loses its key.
- `RunOne` is one task in the code's own sequential form on the real classes.
- `Results` and `Upgrade` are the accounting of a batch and of an upgrade.
- `Wire`, `Client`, `Frames`, `Upload` and `Conversation` are the connection: exact reads on one side,
  frame reassembly and dispatch on the other, and both together.

Parameters stand for what the code gets from outside: the clock, the network's answers, completion
order, JSON and gzip (`Upload.Peer`), and the per-character test behind `str.isdigit`
(`Registry.Table.digit`), for which every result holds whatever it is.

## Main results

- Exclusive work on a target is mutually exclusive in every interleaving, although a release frees by
  class and not by owner (`Exclusion.MutualExclusion`).
- The key of a path protects a capture of it, starting or running at the agent, in every state of a run
  exactly when nothing interrupts it: no `capture_stop` releases while a start of that path is in flight
  or a capture of it runs, no failed start releases while one runs, and no start whose call has ended is
  carried out while the key is not held (`Running.ProtectedIffUninterrupted`).
- The other way round, a key whose start was carried out has its capture running, or a stop about to
  release it, in every state of a run exactly when nothing strands it: the last capture of the path does
  not end by itself, or by a stop whose call is over, while the key is held for it and no stop in flight
  has been carried out (`Running.WarrantedIffUnstranded`, `Running.NoKeyLeaks`). Overlap alone
  never leaks a key.
- Callers see to the first by keeping starts and stops of a path apart, on one port, if what the agents do
  is what they answer; to the second, if moreover captures do not end by themselves
  (`Running.OrderlyIsProtected`). Without any one of these a running capture loses its key and a shell
  command is let through, or a key is left with no capture; `LostKeys` has a reachable run for each.
- A pool never has more than five connections, idle, lent or being opened; none is shared; a grant is
  all or nothing on expiry; a connection whose call raised never comes back (`Slots`).
- Every task can always go on, ends within six steps, and leaves no exclusive lock and no counted
  borrower behind (`Progress`).
- Resolving a target list twice is harmless for every list exactly when the hosts of each tag in use
  resolve to themselves; where no tagged host starts with `@`, that is when none has the form host:digits.
  Otherwise `capture_start`, which resolves twice, and `capture_stop`, which resolves once, work on
  different lock names (`Registry.ResolveTwiceIff`, `Registry.ResolveTwiceHosts`, `Registry.StopMissesStart`).
- A target is removed only while no task is exclusively in flight on its host and no key of it is held, and,
  in an uninterrupted run, while no capture of it starts or runs (`Listeners`).
- A listen flag that is set means that the last acknowledged listen action of the endpoint was a start, or
  a stop is about to clear it, in every interleaving of listen calls with everything else
  (`Listeners.FlagMeansStarted`).
- Every requested target is reported exactly once, whatever the completion order; but an agent's own
  `target` field overrides the name in a result entry (`Results.ReportConserves`,
  `Results.EntriesNameTargets`, `Results.MisnamedEntry`). Every failure keeps its own reason and every
  success its data (`Results.ResultTells`, `Results.FailuresTellReasons`, `Results.WrapKeepsData`).
- A batch is let past its lock step exactly when the lock is free for it, in every reachable state
  (`Exclusion.LockStepIff`); connections are conserved by every step (`Slots.LeavesOnlyBy`).
- Frames get through, in whatever chunks their bytes arrive, exactly when the chunks fall into one group per
  frame and each group begins with a whole length (`Frames.FramesDeliveredIff`); a merged frame is lost
  (`Frames.FrameDelivered`).
- An upload arrives exactly when its cut reaches the announced length with its last piece and not
  before (`Upload.UploadArrivesIff`).
- A fetched body comes back exactly when its length mod 256 is not 123, the byte of `{`
  (`Client.FetchDiscriminates`).

## Where code and documentation differ

- The design document gives the lock map the key (host, port); the code keys it by the target string
  alone, and so does the model.
- The header of `locks.py` says that a capture's lock is held until `capture_stop`; the stop frees it also when it
  failed and the agent goes on capturing, and so does a start whose answer was lost.
- The comment in `upgrade_run` says that the pool reconnects a client that was closed before it was
  returned; `acquire` reuses an idle client without connecting. Nothing here says that a reused client
  is connected.

## Model

| member | source | states |
|---|---|---|
| Locks.OperationsKeepWellFormed | src/mcp_socket_server/locks.py:62-92 | any granted acquisition and any release, by anyone, keeps: count 1 and no keys while held, count 0 while free |
| Locks.ReleaseUndoesAcquire | src/mcp_socket_server/locks.py:45-92 | releasing the class and key just acquired restores the lock exactly, whatever else is held |
| Locks.ArbitrationMatrix | src/mcp_socket_server/locks.py:3-9 | after one grant a second request fits iff it fitted before and one of the two is lock-free or both are captures with different keys |
| Locks.FreeLockGrants | src/mcp_socket_server/locks.py:45-85 | a free lock grants every class and key |
| Locks.AbsentKeyIsEmpty | src/mcp_socket_server/locks.py:62-75 | no key and the empty tuple are the same key |
| Locks.ReleaseTakesItsOwn | src/mcp_socket_server/locks.py:54-92 | a release takes away its own key, or the holder if it is of its own class, and nothing else; of something not held it changes nothing |
| Locks.RefusalBlames | src/mcp_socket_server/locks.py:62-85 | the keys a conflict names: the one asked for, or, with no holder, keys that are really held |
| Locks.TargetLock.Acquire | src/mcp_socket_server/locks.py:45-52 | fail-fast: granted iff grantable, a refused acquisition leaves the lock unchanged, and the conflict carries the class and the keys to blame |
| Locks.TargetLock.Release | src/mcp_socket_server/locks.py:54-60 | the whole new lock state after a release, by class and key |
| Locks.LockManager.Acquire | src/mcp_socket_server/locks.py:118-130 | acts on the lock of the named target only, creating it on demand without aliasing; a conflict carries the real target name, the class and the keys to blame |
| Locks.LockManager.Release | src/mcp_socket_server/locks.py:132-139 | acts on the lock of the named target only; an unknown target stays unlocked |
| Locks.LockManager.CheckActive | src/mcp_socket_server/locks.py:141-145 | true iff the target has a capture key or an exclusive holder |
| Pools.PopSplitsStack | src/mcp_socket_server/pool.py:54-62 | the expiry loop splits the idle stack into what stays, the reused connection and the expired ones, losing none |
| Pools.ReuseIsFresh | src/mcp_socket_server/pool.py:54-62 | the reused connection has been idle at most 600 s and everything above it on the stack was stale |
| Pools.SortedPopIsAllOrNothing | src/mcp_socket_server/pool.py:54-63 | on a stack sorted by time either the newest connection is reused and none expires, or the whole stack expires |
| Pools.PoolKeyRoundTrip | src/mcp_socket_server/pool.py:127-128 | the key host:port gives back host and port for every host, colons included, and every integer port |
| Pools.Scheduler.GetPool | src/mcp_socket_server/pool.py:127-134 | the pool returned connects to the endpoint asked for, a key keeps its pool for ever, and no other pool is touched |
| Pools.TargetPool.Grant | src/mcp_socket_server/pool.py:54-63 | the loop under the lock takes one slot and pops exactly what the specification of the search says |
| Pools.TargetPool.Acquire | src/mcp_socket_server/pool.py:43-86 | full pool: error and no change; failed connect: the slot goes back; success: the connection carries the caller's socket timeout, reused or new; only expired connections are closed, and no other timeout changes |
| Pools.TargetPool.Release | src/mcp_socket_server/pool.py:88-99 | the slot goes back, a healthy connection becomes the newest idle one, an unhealthy one is closed |
| Pools.TargetPool.CloseAll | src/mcp_socket_server/pool.py:101-109 | the stack is emptied, every idle connection is closed and the counter is untouched |
| Exclusion.NextKeepsLockInv | src/mcp_socket_server/server.py:164-225 | every step of every kind of task keeps: the lock of a target is held iff exactly one task is past its lock step with an exclusive class, and the stored class is its class |
| Exclusion.UnlockKeeps | src/mcp_socket_server/server.py:217-225 | a release frees an exclusive lock only when the releasing task owns it |
| Exclusion.MutualExclusion | src/mcp_socket_server/server.py:171-225 | in every reachable state at most one task is exclusively in flight per target; the lock is then its class, count 1, no keys, and otherwise free |
| Exclusion.LockStepIff | src/mcp_socket_server/locks.py:45-85 | in every reachable state a batch gets past its lock step iff it needs no lock, or no task is exclusively in flight on its target and no key is held but, for a capture, others than its own; otherwise it is finished |
| Slots.NextKeepsCount | src/mcp_socket_server/pool.py:43-109 | every step keeps: counter equals slot holders, idle plus counted at most 5, stack sorted by a time that has passed |
| Slots.PoolBound | src/mcp_socket_server/pool.py:43-99 | in every reachable state idle, lent and connecting together are at most 5, and the counter is the number of tasks between grant and return |
| Slots.NoConnectionShared | src/mcp_socket_server/pool.py:54-99 | in every reachable state no connection is lent twice, lent and idle, or idle twice, across all pools, and each leads to its borrower's host and port |
| Slots.ClampsNeverBite | src/mcp_socket_server/pool.py:83-90 | in every reachable state both `max(0, ...)` clamps leave the decrement as it is |
| Slots.GrantIsAllOrNothing | src/mcp_socket_server/pool.py:54-75 | in every reachable state a grant reuses the newest idle connection and expires none, or leaves the stack empty and opens a new one |
| Slots.SlotGrantedIff | src/mcp_socket_server/pool.py:46-53 | in every reachable state a waiting task can have a slot iff fewer than five tasks hold one of its pool, and may time out iff five do |
| Slots.AnsweredIsKept | src/mcp_socket_server/server.py:185-218 | a connection whose call did not raise, whatever it returned, comes back as the newest idle one |
| Slots.LeavesOnlyBy | src/mcp_socket_server/pool.py:54-109 | connections are conserved: one leaves its pool only after a call that raised, by closing the pool, or because it had expired when a slot was taken |
| Slots.RaisedIsDiscarded | src/mcp_socket_server/server.py:212-218 | a connection whose call raised is neither lent nor idle once returned |
| Slots.GoneForGood | src/mcp_socket_server/pool.py:88-99 | a connection that left its pool is never lent or idle again, along every continuation |
| Captures.NextKeepsOrigin | src/mcp_socket_server/server.py:219-225 | every step keeps: a key is present iff the last event about it took it, by a start still in flight or successful |
| Captures.KeysHaveTrueOrigin | src/mcp_socket_server/locks.py:62-75 | the same for every reachable state |
| Captures.KeysMoveOnlyByOwners | src/mcp_socket_server/server.py:219-225 | a key appears only by a granted start of it, and disappears only by the release of a failed start or of a stop of the same target and key |
| Captures.StopReleasesAfterConnection | src/mcp_socket_server/server.py:474-501 | a stop reaches its release only by returning a connection it held, so a failed borrow keeps the key |
| Captures.KeysFollowReleasesIff | src/mcp_socket_server/server.py:219-225 | the rule "present exactly when a start is in flight, or one has kept the key and no stop has released since" holds in every state of a run iff no stop of the key ever releases during a start of it |
| Captures.KeysAreUnstoppedStarts | src/mcp_socket_server/server.py:474-503 | in a run where starts and stops of a key never overlap, and none is in flight, the key is present iff the last successful start has not been followed by a stop that obtained a connection |
| Running.ProtectedIffUninterrupted | src/mcp_socket_server/server.py:217-225 | in every state of a run a key is held while a start of it is in flight or a capture of it runs at an agent, iff no stop releases it at such a time, no failed start releases it while a capture runs, and no start is carried out after its call without the key held |
| Running.NoExclusiveWorkDuringCapture | src/mcp_socket_server/locks.py:62-85 | in an uninterrupted run, late actions of agents included, exclusive work on a target excludes a capture of it starting, or running at an agent |
| Running.WarrantedIffUnstranded | src/mcp_socket_server/server.py:497-503 | in every state of a run a key whose start was carried out has a capture running, or a carried-out stop in flight, iff no capture ends by itself or by a stop whose call is over while the key is held for it and no stop in flight was carried out |
| Running.NoKeyLeaks | src/mcp_socket_server/server.py:497-503 | in a run that strands no key, overlap or not, a held key has a start in flight, a capture running, or a stop that ended the capture and has yet to release |
| Running.KeysAreRunningCaptures | src/mcp_socket_server/server.py:461-503 | in a run that neither interrupts nor strands a key, with no start in flight and no stop about to release, it is held iff its capture runs at an agent |
| Running.OrderlyIsProtected | src/mcp_socket_server/server.py:461-503 | starts and stops of a path that never overlap, go to one port and are carried out as answered and not later keep the capture protected; if it does not end by itself, at rest the key is held iff the capture runs |
| LostKeys.OverlapLosesKey | src/mcp_socket_server/server.py:497-503 | the agent is asked to stop and then to start, all answers are successes, and whichever call releases last the capture runs without its key and a shell lock would be granted |
| LostKeys.FailedStopLosesKey | src/mcp_socket_server/server.py:488-501 | the same, without overlap, after a stop that the agent did not carry out, however it was answered |
| LostKeys.OtherPortLosesKey | src/mcp_socket_server/locks.py:118-139 | the same, without overlap and with all calls carried out, after a stop sent to another port, because locks are kept per host |
| LostKeys.LostAnswerLosesKey | src/mcp_socket_server/server.py:212-225 | the same, with no stop at all, after a start whose answer was lost, carried out during its call or after the call had timed out |
| LostKeys.LateStopLeaksKey | src/mcp_socket_server/server.py:497-503 | without overlap, a stop that had timed out is carried out after a later start succeeded: the key is held, no capture runs and no call is left to release it |
| LostKeys.LapseLeaksKey | src/mcp_socket_server/server.py:219-225 | the key of a capture that ended by itself stays held |
| Progress.Quiescence | src/mcp_socket_server/server.py:164-225 | once all tasks have ended, by any path, no exclusive lock is held, no pool counts a borrower, and every key left belongs to a successful start |
| Progress.QuiescenceWithoutCaptures | src/mcp_socket_server/server.py:289-298 | if moreover no capture was ever started, no target has an active lock |
| Progress.AtMostSixSteps | src/mcp_socket_server/server.py:164-225 | in every run a task takes at most six steps |
| Progress.CanAlwaysFinish | src/mcp_socket_server/server.py:164-225 | every run can be continued to a state where all tasks have ended |
| Progress.EndsAsAnswered | src/mcp_socket_server/server.py:196-225 | a task ends with the flag of its call, through the return of its connection and the release |
| Progress.AnythingMayHappen | src/mcp_socket_server/pool.py:54-109 | nothing outside the tasks is held up: calls come in, time passes, pools are closed, captures end, connects and calls go either way, and agents act at any time after the request |
| RunOne.UsePool | src/mcp_socket_server/pool.py:152-181 | on one pool: connected iff a slot is free and a fresh idle connection or the network provides one, with the reason if not; the slot is given back, the connection is the newest idle one unless its call raised, and no other is closed unless expired |
| RunOne.Borrow | src/mcp_socket_server/pool.py:127-181 | the same on the pool of an endpoint, opened on demand |
| RunOne.RunLocked | src/mcp_socket_server/server.py:164-225 | the result is exactly that of the ending: refused with its conflict, without a connection, or the call; the lock is as before except for the key of a started capture; other targets are untouched |
| RunOne.TaskSucceedsIff | src/mcp_socket_server/server.py:171-216 | a task is ok iff lock, connection and call were |
| RunOne.RunStop | src/mcp_socket_server/server.py:474-503 | ok iff connected and the verdict on the answer is ok; the key is freed iff a connection was obtained, whatever the agent answered |
| RunOne.StopVerdict | src/mcp_socket_server/server.py:482-499 | a stop is ok iff the agent answered with a dict that says neither that it stopped with an incomplete file nor that it did not stop, with an error |
| RunOne.StopTells | src/mcp_socket_server/server.py:486-499 | the result keeps every field the agent sent, with a warning exactly when the file is incomplete, and gives as reason the exit code, the agent's error or the exception |
| RunOne.FlagIsSuccess | src/mcp_socket_server/server.py:196-216 | the flag that decides about the key in the step machine is the success reported for the same call |
| RunOne.StopFailsForTwoReasons | src/mcp_socket_server/server.py:479-495 | a stop the step machine takes as carried out is one reported as success, or one that fails only because the agent says that the stopped capture file is incomplete |
| Results.ResultIsFaithful | src/mcp_socket_server/server.py:171-216 | a result is of its target, ok exactly when the call was made and neither raised nor returned False or an error dict, and otherwise has a reason |
| Results.ResultTells | src/mcp_socket_server/server.py:171-216 | a success carries what the call returned, or the note for None; a failure carries the conflict, what kept the pool from lending, the exception, the `_error` value or the text for False |
| Results.FalsyValues | src/mcp_socket_server/server.py:488-494 | the values that count as false are exactly None, False, 0 and the empty text, list and dict |
| Results.FailuresTellReasons | src/mcp_socket_server/server.py:134-135 | the failed entries are those of the results that are not ok, each with its own reason |
| Results.ReportDistributes | src/mcp_socket_server/server.py:255-257 | the report of two lists is the two reports in order |
| Results.ReportOfOne | src/mcp_socket_server/server.py:255-257 | the report of one result is one entry or one failure with its reason |
| Results.WrapKeepsData | src/mcp_socket_server/server.py:138-142 | an entry keeps every field of a dict besides the target, and any other value under `result` |
| Results.ReportConserves | src/mcp_socket_server/server.py:134-142 | successes and failures together name the same targets, with multiplicity, as the results; ok is the number of entries |
| Results.EntriesNameTargets | src/mcp_socket_server/server.py:138-142 | the visible entries name the successful targets in order iff no agent sent a different `target` field |
| Results.PickIsPermutation | src/mcp_socket_server/server.py:229-234 | collecting in any completion order rearranges the per-task results, losing and doubling none |
| Results.Collect | src/mcp_socket_server/server.py:227-234 | the results are those of the tasks in completion order; with duplicates, their targets are the resolved list as a multiset |
| Results.RunBatch | src/mcp_socket_server/server.py:227-257 | ok equals the number of entries, the audit counts add up to the resolved list, results plus failures conserve it, and each failed entry has the reason of its result |
| Results.SchedulerBatch | src/mcp_socket_server/pool.py:136-150 | one result per requested target in completion order, and the same conservation for the lock-free batch |
| Results.ReadTells | src/mcp_socket_server/pool.py:143-149 | a read is ok iff its call did not raise, with its data or the exception |
| Upgrade.AcceptedIffPushed | src/mcp_socket_server/server.py:713-739 | a target counts as pushed iff the agent accepted the upgrade; its entry names it and the version it came from |
| Upgrade.RefusedTells | src/mcp_socket_server/server.py:713-732 | a target that was not upgraded has the reason the agent, the push or the exception gave |
| Upgrade.PollRound | src/mcp_socket_server/server.py:752-763 | one walk over a copy polls every item once, and each item removed from pending is still there, duplicates included |
| Upgrade.RemovesFirst | src/mcp_socket_server/server.py:763 | of equal pending items the first one goes |
| Upgrade.PollUntil | src/mcp_socket_server/server.py:740-763 | every pushed item is pending or confirmed; confirmed means some poll read exactly the wanted version; a pending item was polled in every round |
| Upgrade.UpgradeRun | src/mcp_socket_server/server.py:734-785 | every resolved target is reported once; reported upgraded iff accepted and some poll read the wanted version, with the version it came from; a failure has the reason of its refusal, or says that the version never answered |
| Registry.DeletedKeepsUnique | src/mcp_socket_server/registry.py:45-52 | deletion removes the one row of an endpoint, if any, and keeps rows unique |
| Registry.DeletedKeepsOrder | src/mcp_socket_server/registry.py:45-52 | the rows that stay keep their order |
| Registry.AddedOrKept | src/mcp_socket_server/registry.py:32-43 | a new endpoint gets a row with its tags after all others; a registered one keeps its row, tags and flag included |
| Registry.Table.AddTarget | src/mcp_socket_server/registry.py:32-43 | an endpoint already registered is left as it is; rows stay unique |
| Registry.Table.RemoveTarget | src/mcp_socket_server/registry.py:45-52 | exactly the rows of the endpoint go, and the answer says whether there was one |
| Registry.Table.GetListenLiveness | src/mcp_socket_server/registry.py:61-66 | true iff the endpoint is registered with its flag set |
| Registry.Table.ResolveTargets | src/mcp_socket_server/registry.py:92-112 | the tag index built by nested loops gives what a plain scan per tag gives |
| Registry.ResolveDistributes | src/mcp_socket_server/registry.py:104-112 | resolution distributes over list concatenation |
| Registry.TagResolves | src/mcp_socket_server/registry.py:104-106 | a tag reference resolves to the hosts of its tag |
| Registry.EndpointResolves | src/mcp_socket_server/registry.py:107-109 | host:digits resolves to the host |
| Registry.OtherResolves | src/mcp_socket_server/registry.py:107-111 | any other item resolves to itself |
| Registry.SplitsAtColon | src/mcp_socket_server/registry.py:107-109 | a text is its part before the first colon, the colon and the part after it |
| Registry.ScanDistributes | src/mcp_socket_server/registry.py:98-103 | the hosts of a tag come in row order |
| Registry.ScanFindsTagged | src/mcp_socket_server/registry.py:98-106 | a tag yields exactly the hosts of the rows carrying it, and nothing iff it is unknown |
| Registry.OnRowCounts | src/mcp_socket_server/registry.py:101-103 | a row contributes its host once per occurrence of the tag |
| Registry.ResolveTwice | src/mcp_socket_server/server.py:420-425 | resolving twice is resolving once, for every list, when no tagged host starts with @ or has the form host:digits |
| Registry.ResolveTwiceIff | src/mcp_socket_server/registry.py:92-112 | for every registry, that is so for every list iff the hosts of each tag in use resolve to themselves |
| Registry.ResolveTwiceHosts | src/mcp_socket_server/registry.py:104-112 | where no tagged host starts with @, that is so for every list iff no tagged host has the form host:digits |
| Registry.StopMissesStart | src/mcp_socket_server/server.py:470-503 | with a target registered as host:digits, resolving once and twice give different lock names |
| Listeners.FlagMeansStarted | src/mcp_socket_server/server.py:627-670 | in every interleaving of listen calls with each other and all other work, acknowledgement and flag update apart, a set flag means that the last acknowledged listen action of the endpoint was a start, or a stop in its call is about to clear it |
| Listeners.ListenTakesEffect | src/mcp_socket_server/server.py:627-643 | an acknowledged listen call becomes the last action of its endpoint and settles its flag |
| Listeners.ListenFlagGetsSet | src/mcp_socket_server/server.py:627-638 | a run in which a registered target ends up marked as listening |
| Listeners.SettlesOne | src/mcp_socket_server/server.py:627-643 | the flag is set iff a start was acknowledged, the agent can stop again and the endpoint is registered, cleared by a stop, and kept otherwise; no other endpoint changes |
| Listeners.OnlyAddRegisters | src/mcp_socket_server/server.py:270-286 | an endpoint gets registered only by adding it, and then without a flag |
| Listeners.OnlySafeRemoval | src/mcp_socket_server/server.py:289-298 | over every run of tool calls and task steps an endpoint disappears iff it is removed while no task is exclusively in flight on its host, no key of it is held and it has no listen flag |
| Listeners.RemovalLeavesNoCapture | src/mcp_socket_server/server.py:289-298 | unless a release interrupted it, no capture of a host is starting or running when its row goes |
| Listeners.RemoveTargetTool | src/mcp_socket_server/server.py:289-298 | the tool has exactly the effect of that step in every world whose lock of the host is that of the real lock manager |
| Listeners.ListenStartTool | src/mcp_socket_server/server.py:628-638 | the flag is set only after the agent acknowledged and the probe found one that can stop again |
| Listeners.ListenStopTool | src/mcp_socket_server/server.py:639-643 | the flag is cleared iff the agent acknowledged |
| Wire.FromLEOfLE | src/mcp_socket_server/socket_client.py:72-73 | little-endian packing of k bytes is inverted by unpacking for every value that fits |
| Wire.LEOfFromLE | src/mcp_socket_server/socket_client.py:128-136 | unpacking k bytes is inverted by packing, for every byte string |
| Wire.I32RoundTrip | src/mcp_socket_server/socket_client.py:72-73 | the signed 4-byte prefix round-trips on the whole 32-bit range |
| Wire.I32Bytes | src/mcp_socket_server/socket_client.py:72-73 | the prefix is the two's complement in four bytes, least significant first |
| Wire.U64RoundTrip | src/mcp_socket_server/socket_client.py:136 | the 8-byte prefix round-trips, and its first byte is the length mod 256 |
| Client.Connection.RecvN | src/mcp_socket_server/socket_client.py:84-95 | for any chunking by the socket, exactly the next n bytes are returned and no more consumed; with fewer the read fails |
| Client.Connection.RecvI32Prefixed | src/mcp_socket_server/socket_client.py:125-149 | one response with a 4-byte prefix is taken off the stream, body and no more, or the read fails |
| Client.Connection.RecvFileResponse | src/mcp_socket_server/socket_client.py:134-140 | one response with an 8-byte prefix is taken off the stream, body and no more, or the read fails |
| Client.Connection.Fetch | src/mcp_socket_server/socket_client.py:324-340 | the fetch branch ends as its specification says and, on success, consumes exactly one response |
| Client.Connection.Send | src/mcp_socket_server/socket_client.py:67-75 | one frame is appended iff datatype and length fit 32 bits, and nothing otherwise |
| Client.Connection.SendRaw | src/mcp_socket_server/socket_client.py:77-81 | one raw frame is appended iff its length fits 32 bits, and nothing otherwise |
| Client.TakeBodyOfEncode | src/mcp_socket_server/socket_client.py:125-149 | reading one prefixed response gives its body and leaves the rest of the stream |
| Client.CutOffFails | src/mcp_socket_server/socket_client.py:84-95 | a response that is cut off anywhere is never taken for a whole one |
| Client.NegativeLengthIsEmpty | src/mcp_socket_server/socket_client.py:84-95 | a negative length reads an empty body |
| Client.ConnectionStaysAligned | src/mcp_socket_server/socket_client.py:125-149 | any list of responses with 4-byte and 8-byte prefixes, read with the matching receivers, gives the bodies in order and leaves the rest |
| Client.FetchDiscriminates | src/mcp_socket_server/socket_client.py:324-340 | a body of length L comes back iff L mod 256 is not 123, and is otherwise taken for an error |
| Client.FetchCutOff | src/mcp_socket_server/socket_client.py:324-340 | a fetched body that is cut off is never returned |
| Frames.FrameDelivered | tests/mock_socket_server.py:43-68 | one frame in any chunks with the length in the first is delivered once and leaves the buffer empty; if its last chunk holds more, it is lost |
| Frames.FrameDeliveredIff | tests/mock_socket_server.py:53-57 | an unmerged frame is delivered iff its first chunk has at least 4 bytes |
| Frames.ShortChunkEnds | tests/mock_socket_server.py:53-55 | a first chunk shorter than the length ends the loop and nothing after it is looked at |
| Frames.FramesDelivered | tests/mock_socket_server.py:43-68 | a sequence of frames, each chunked on its own, is delivered in order |
| Frames.FramesDeliveredIff | tests/mock_socket_server.py:43-68 | for any chunks of the bytes of any frames: all are delivered and the buffer ends empty iff the chunks fall into one group per frame, each beginning with a whole length |
| Upload.RawFramesPending | tests/mock_socket_server.py:89-100 | while raw frames add up to less than the announced length they are only collected: the binary flag stays set and nothing is acknowledged |
| Upload.RawFrames | tests/mock_socket_server.py:89-100 | the raw frame that reaches the announced length clears the flag and is acknowledged once |
| Upload.UploadArrivesIff | tests/mock_socket_server.py:70-109 | 21, 22, 23s, 24 store the content, the marker standing for the empty file, iff the last piece is the one that reaches the length; otherwise the connection ends |
| Upload.UploadedFile | tests/mock_socket_server.py:102-106 | the stored file is the content iff the content is not the two-byte marker, which stores the empty file |
| Upload.UploadEndToEnd | tests/mock_socket_server.py:43-109 | for any chunks of each message, unmerged and with whole lengths first, the upload is stored and the peer is ready for the next request |
| Upload.EndsConnectionIff | tests/mock_socket_server.py:70-116 | exactly which frames end the connection, storing and answering nothing |
| Upload.SilentRequest | tests/mock_socket_server.py:111-116 | a request without an answer changes nothing |
| Upload.ServeStops | tests/mock_socket_server.py:43-116 | the loop stops at the frame that ends the connection, in the state that frame leaves |
| Upload.EmptyChunkEnds | tests/mock_socket_server.py:51-52 | an empty read ends the loop |
| Upload.Texts | tests/mock_socket_server.py:78-109 | the acknowledgements and the marker, as texts |
| Upload.Handler.OnFrame | tests/mock_socket_server.py:70-116 | the dispatch of one frame on the handler's fields |
| Upload.Handler.Handle | tests/mock_socket_server.py:43-116 | the loop over received chunks serves what the specification serves, and stops where it stops |
| Conversation.RequestsAnswered | tests/mock_socket_server.py:111-116 | ordinary requests are answered once each, in order, changing nothing else of the peer |
| Conversation.ConversationStaysAligned | src/mcp_socket_server/socket_client.py:67-149 | any list of exchanges over one connection: requests chunked on their way, answers decoded into exactly the response bodies |

## Left out

- Threads and real time: one step is one critical section of the code, the clock never runs backwards, and a
  wait for a slot is a task staying where it is until a slot is free or, while the pool is full, its borrow times out.
- The bound of 50 worker threads: any number of tasks may be in flight, which covers every bounded run.
- Pools.TargetPool.Acquire: one pass with no other thread at work; waiting among other tasks is in the step machine.
- RunOne.RunLocked: one task with no other in between; interleavings are in the step machine.
- An agent carries out a request at most once, and is known by the name it was called by: two names of one machine
  are two targets, as they are for the lock map of the code.
- Listeners.OnlySafeRemoval: `remove_target` is one step here; the code checks and deletes in separate ones.
- The `failed_details` list of `capture_stop`; the structured data it shows is kept in the results.
- Client.Connection.RecvUntilTimeout: some prefix of what is available, since the code has no framing there; the
  answers read this way (version, isfile, acknowledgements) are therefore not part of the alignment results.
- Client.Connection.RecvN: a timeout of the socket and a closed connection are one error.
- `bufsize` of the peer, which only bounds the size of a chunk; every chunk size is covered.
- Host byte order: the 4-byte prefix is packed little-endian, as on the machines the code runs on.
- JSON and gzip: parameters of the peer, and bodies are left undecoded on the client side.
- SQLite, timestamps and the audit table: rows are an ordered list and the audit is its two counts.
- How `upgrade_run` chooses a version, downloads, pushes and compares versions, and how it splits a target into
  host and port to poll (`endpoint` is a parameter).
- `list_targets`, the reachability check and bracket stripping of `add_target`, `file_transfer`, payload builders and
  the peer's table of answers: single-function facts.
- FastMCP registration, transport, logging, configuration, the whitelist and the daily check: plumbing.
- A server that was never initialised (no lock manager or registry), and exceptions outside `Exception`.
