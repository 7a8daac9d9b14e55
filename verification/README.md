# Verification of the store, statistics and process harness

This project models, in Dafny, the behaviour that a functional-test suite for a
geographically redundant store relies on, and proves what the suite's tests and comments
promise. There are four parts.

**The versioned store and the thrash test** (`VersionedStore`, `Thrash`, `ThrashBounds`,
`ThrashVerdict`, `ThrashTest`, `Keys`, over `Decimal` and `Sums`). The store is one map from
keys to values with version tokens, as the test cases pin it down: token 0 asks for an add,
any other token for a compare-and-set, lifetime 0 makes a write a delete, a delete is always
OK. The thrash test is a step system in which any number of threads, keys and rounds
interleave their separate gets and sets in any order; time may pass at any point, a set may
be answered with ERROR, and a get may be answered with an old value. Proved: no update is
lost or counted twice; the retry loop, which has no bound of its own, makes at most
`(T-1)*T*K*N` failed attempts, and for each out-of-date answer one more and for each passing
of time T more; the test's own verdict. The classes run the same loops against a mutable
store, and their termination comes from the same charging argument.

**The replicated store** (`Replication`, `Durability`, `Failover`, `ReplicatedThrash`,
`ReplicatedBounds`, `TwoPrimaries`). *This is a reconstruction*: Rogers, memcached and the
store's client are submodules and are not part of this model. What is fixed by the tests and
comments is: a primary decides every compare-and-set; backups receive its decisions
asynchronously (here, one FIFO queue for each); a delete is visible at once (here, it is
acknowledged once every backup has taken in all that was queued for the deleted key); a
write with lifetime 0 is not; a get may be answered by any replica that has the key; one
replica may die or come back empty. Tokens travel with the values. What a stale token does
just after a failover is left open, as the comment at
`src/test_memcachedsolution.cpp:787-788` leaves it: `Failover.UpdateAfterFailure` takes any
token. How long the thrash test takes here depends on the deliveries: a get that comes when
everything of its key has been delivered costs no more than on a single store, and while one
backup lags there is no bound at all (`ReplicatedBounds`).

**Windowed statistics** (`Statistics`, `Windows`, `Gauge`, `IpTable`, `Oid`, `IpWalk`). The
tables themselves are submodules and are not part of this model; the code here is their
tests, so the model takes its contract from the tests. A row rotates its windows only when it is
touched; the reference is the complete log of events, filtered by aligned window, and for
the continuous accumulator one sample of the value for every millisecond of the window.
Time is an integer number of milliseconds, moved forward explicitly.

**Processes and sites** (`Processes`, `SiteControl`, `Config`). The operating system is a
table of live and zombie children that gives a fork any free pid unless it is one it refuses.
`SiteControl` has the classes; `Processes` the functions they are proved against; `Config`
the addresses and the three configuration files, each with a reader. What is proved of one
site is proved among any other instances the program has: other sites, the name server.

## What the proofs found

- The last loop of the thrash test needs at least one increment to have been made: the keys
  are added with a lifetime of 60 seconds and the test then sleeps for 61, so with no
  threads or no rounds they have expired (`ThrashVerdict.ThrashTestVerdict`).
- The assertions of `CounterTimePeriods` hold exactly when the test starts in the first
  4m50s of a five minute period, and those of the ageing test exactly in the first 4m55s:
  the windows are aligned to the clock, and neither test first jumps to the start of one.
- `start_instance` does not check `_running`; starting a running instance orphans its child
  for good (`Processes.StartNeedsTheGuard`, `Processes.OrphanForGood`).
- `get_first_*` return `back()`, the last instance, although `src/site.h:90-97` says first.
- The comment at `src/test_snmp.cpp:872` says 4m50s where the code advances to 4m55s; the
  comment at 579 has one zero too few in the sum of squares, which line 576 has right. The
  model follows the code in both.
- `failed_data_in` is declared at `src/test_memcachedsolution.cpp:416-417` and 454-455 but
  not what is passed to the store.

## Model

| member | source | states |
|---|---|---|
| VersionedStore.TokenBuysOneWrite | src/test_memcachedsolution.cpp:398-431 | Over any run of sets, deletes and passing time, a nonzero token is accepted for a key at most once. |
| VersionedStore.GetThenSet | src/test_memcachedsolution.cpp:398-473 | A set with the token of an earlier get is taken if and only if nobody replaced or removed the value in between and it has not expired; otherwise the answer is contention. |
| VersionedStore.GetNothingThenSet | src/test_memcachedsolution.cpp:476-553 | After a get that missed (a deleted or expired key included) and any run, the set is an add: taken if and only if the key is absent by then, and always if nobody touched it in between. |
| VersionedStore.ReadBack | src/test_memcachedsolution.cpp:333-394 | After a taken write, and after a delete, any run that does not touch the key leaves the next get with exactly the written value while its lifetime lasts and nothing after it, or with nothing. |
| VersionedStore.SetNeedsTheToken | src/test_memcachedsolution.cpp:398-494 | The token a get would give, 0 for a miss, is the only one a set is taken under; any other set, an add of a key that is there included, is answered with contention and changes nothing. |
| VersionedStore.ExecClock | src/test_memcachedsolution.cpp:376-394 | The store's clock moves by exactly the time that passes in a run. |
| VersionedStore.ExecKeepsValid | src/test_memcachedsolution.cpp:398-557 | Every run keeps all tokens positive and already issued. |
| VersionedStore.MemcachedStore.Get | src/test_memcachedsolution.cpp:165-178 | The client's get answers what the map answers, and ERROR if the domain does not resolve. |
| VersionedStore.MemcachedStore.Set | src/test_memcachedsolution.cpp:139-163 | The client's set is the map's set: status and whole new state; ERROR and no change if the domain does not resolve. |
| VersionedStore.MemcachedStore.Delete | src/test_memcachedsolution.cpp:519-524 | The client's delete is the map's delete and is always OK, even for a key that is absent; ERROR and no change if the domain does not resolve. |
| Decimal.AtoiOfPrinted | src/test_memcachedsolution.cpp:1042-1046 | Parsing a printed counter gives it back, so a counter survives its trip through the store as text. |
| Decimal.PrintInjective | src/site.cpp:56-59 | Different numbers print differently. |
| Decimal.AtoiMeaning | src/test_memcachedsolution.cpp:1042 | White space is passed over, a sign heeded, and the number ends where the digits end; no text is 0. |
| Decimal.NumberMeaning | src/test_memcachedsolution.cpp:1042 | A digit denotes itself, and one more digit makes ten times as much and the digit. |
| Decimal.PrintOfNumber | src/test_memcachedsolution.cpp:1046 | Digits without a 0 in front are what their number prints as, so printing is the only way to write it. |
| Thrash.StepKeepsInv | src/test_memcachedsolution.cpp:1020-1059 | Whatever request comes next, tokens stay issued, every thread stays at a position of its loops, and each value about to be written is one more than the value its token stands for. |
| Thrash.StepBalances | src/test_memcachedsolution.cpp:1036-1056 | One request moves a key's value and the threads' progress by the same amount, but for errors and expiry. |
| Thrash.RunBalances | src/test_memcachedsolution.cpp:1020-1059 | The same over every run, from any good state. |
| Thrash.NoUpdateLost | src/test_memcachedsolution.cpp:1061-1115 | In every interleaving a key's value is the number of writes taken less what expired; when all threads are through it is T*N less the increments given up on ERROR and the expired counts, and T*N if and only if there were none of either. |
| Thrash.SetupStores | src/test_memcachedsolution.cpp:1073-1080 | The adds of distinct absent keys are all taken, with value "0" and the short lifetime, and touch nothing else. |
| ThrashBounds.RetriesAreBounded | src/test_memcachedsolution.cpp:1036-1056 | Every run makes at most 2*T*T*K*N requests, of which at most (T-1)*T*K*N are refused sets, plus 2 and 1 for each get answered with an out-of-date value, and 2*T and T for each passing of time. |
| ThrashBounds.RefusedOnlyForARivalsWin | src/test_memcachedsolution.cpp:1036-1056 | Whatever happens between a thread's get and its set, time included, the set comes to be refused if and only if another thread has a set of the same key taken meanwhile or the value read has expired; after a get that missed, if and only if such a set was taken and is still alive. |
| ThrashBounds.RequestBurnsFuel | src/test_memcachedsolution.cpp:1036-1056 | Each request, refused or not, lowers a measure of the requests still to come by 1; only an out-of-date answer adds to it, by 1 in all, and the passing of time, by at most 2*T. |
| ThrashBounds.RefusalIsCharged | src/test_memcachedsolution.cpp:1036-1056 | Each refusal lowers by 1 a measure that no request raises, save a get with an out-of-date answer by 1; the passing of time adds at most T. |
| ThrashBounds.RequestsAndTicks | src/test_memcachedsolution.cpp:1036-1056 | Every action of a run is a request or a passing of time. |
| ThrashVerdict.ThrashTestVerdict | src/test_memcachedsolution.cpp:1061-1115 | For any interleaving that takes under 60 seconds, the check after the final sleep passes for a key if and only if there was an increment to make and none of the key's was given up on an ERROR. |
| ThrashVerdict.VerdictOfAnyLength | src/test_memcachedsolution.cpp:1061-1115 | However long the run, a key passes the final check if and only if no increment of it was given up on an ERROR, no count of it expired on the way, and its last taken write (or its setup) lives past the final sleep. |
| ThrashVerdict.ShortRunKeeps | src/test_memcachedsolution.cpp:1073-1099 | In a run of under 60 seconds no key expires, and every incremented key has the long lifetime. |
| ThrashVerdict.CountersFit | src/test_memcachedsolution.cpp:1042-1046 | No thread ever computes a counter above T*N, as long as no answer shows more than the increments made when it is given. |
| ThrashVerdict.FreshIsPlausible | src/test_memcachedsolution.cpp:1038-1042 | The store's own answers never show more than that. |
| ThrashVerdict.PositionTells | src/test_memcachedsolution.cpp:1020-1059 | Over every run each increment a thread is past was either taken or given up on an ERROR, and none twice. |
| ThrashVerdict.OwnWinsCount | src/test_memcachedsolution.cpp:1020-1059 | A thread's taken increments of a key are part of the key's count, and its errors part of the key's errors. |
| ThrashTest.EveryGetFinds | src/test_memcachedsolution.cpp:1040-1042 | In every run of under 60 seconds every get finds its key. |
| ThrashTest.Harness.GetData | src/test_memcachedsolution.cpp:1036-1044 | A thread's get is OK, as expected of it; the answer, the thread's new position and the recorded request, one step of the model. |
| ThrashTest.Harness.SetData | src/test_memcachedsolution.cpp:1046-1052 | A thread's set: ERROR with nothing written if it is one that fails, and otherwise OK or contention as the token decides; the thread's new position and the recorded request, one step of the model. |
| ThrashTest.Harness.Pause | src/test_memcachedsolution.cpp:1082-1097 | Time passes without reaching the keys' first expiry, one step of the model. |
| ThrashTest.Harness.Attempt | src/test_memcachedsolution.cpp:1036-1056 | One pass of the retry loop, with others' requests and passing time in between, ends in OK or ERROR and the next key or in contention and the same one, and uses up time or fuel. |
| ThrashTest.Harness.Increment | src/test_memcachedsolution.cpp:1036-1056 | The retry loop terminates under every schedule and leaves the thread exactly one increment further. |
| ThrashTest.Harness.ThrashThreadFn | src/test_memcachedsolution.cpp:1020-1059 | One thread's nested loops end, while the others make any requests in between, with exactly N of its increments of every key taken or given up on an ERROR. |
| ThrashTest.Harness.RunToEnd | src/test_memcachedsolution.cpp:1082-1097 | Under every schedule, with pauses of under 60 seconds in all, all the threads come to their end, by a valid run of the model. |
| ThrashTest.AddKeys | src/test_memcachedsolution.cpp:1073-1080 | The setup loop's adds all succeed and leave the state of the model's setup. |
| ThrashTest.CheckKeys | src/test_memcachedsolution.cpp:1101-1114 | The final loop is true if and only if every key exists and holds rounds times threads. |
| ThrashTest.EveryKeyPasses | src/test_memcachedsolution.cpp:1101-1114 | After any run of under 60 seconds the final check passes for all keys if and only if no set was answered with ERROR and there was an increment to make, or no key. |
| ThrashTest.RunThrashTest | src/test_memcachedsolution.cpp:1061-1115 | The whole test, for any threads, keys and rounds, every schedule, pauses of under 60 seconds in all and whichever sets fail: it takes the store by a run of the model from the adds to the threads' end and on by the final sleep; its errors are the sets that failed; it passes if and only if every key then holds the full count, that is if no set failed and there is an increment to make or no key to check. |
| Keys.KeysCollide | src/test_memcachedsolution.cpp:97-100 | Two issues give the same key if and only if they are a whole number of wraps of the counter apart. |
| Keys.KeysCountUp | src/test_memcachedsolution.cpp:97-100 | The keys are the numbers from the seed up in decimal, and start over at 0 after 2^32 - 1. |
| Keys.KeysAreDistinct | src/test_memcachedsolution.cpp:97-100 | From any seed a run of issues has no repeated key if and only if it is at most 2^32 long. |
| Keys.Fixture.constructor | src/test_memcachedsolution.cpp:51-83 | The suite's seed gives the first test its key. |
| Keys.Fixture.GetNewKey | src/test_memcachedsolution.cpp:97-100 | Issues the next key of the sequence, through wrap-around. |
| Keys.Fixture.ThrashTest | src/test_memcachedsolution.cpp:1067-1115 | With keys issued by the fixture and a store holding only earlier ones, the test's adds cannot collide, and what RunThrashTest promises holds of the next keys. |
| Replication.PrimaryIsTheSingleMap | src/test_memcachedsolution.cpp:1007-1016 | In every run of requests and deliveries the primary is exactly the single map of the same requests, and every backup with its queue amounts to the primary. |
| Replication.BackupTakesAPrefix | src/test_memcachedsolution.cpp:466-470 | For every key a backup has taken in a prefix of the committed updates and the rest is exactly what is queued for it. |
| Replication.BackupsTrailThePrimary | src/test_memcachedsolution.cpp:466-472 | Under every key a backup always holds exactly what the primary held at some earlier moment, and that moment never moves back. |
| Replication.DrainLandsTheSame | src/test_memcachedsolution.cpp:511-515 | Taking in a deleted key's updates ahead of the others' ends in the same contents. |
| ReplicatedThrash.AnswersAreAdmissible | src/test_memcachedsolution.cpp:1007-1016 | An out-of-date answer from a backup never pairs a current token with an old value. |
| ReplicatedThrash.RStepRefines | src/test_memcachedsolution.cpp:1007-1016 | Every step against the cluster is, at the primary, a step against one map or none at all. |
| ReplicatedThrash.RunRefines | src/test_memcachedsolution.cpp:1007-1016 | Every run against the cluster with delayed backups refines a run against one map. |
| ReplicatedThrash.NoUpdateLostOnReplicas | src/test_memcachedsolution.cpp:1007-1115 | The thrash test on the replicated store loses no update, and once a key's updates are delivered every replica that answers gives the final count. |
| ReplicatedThrash.ThrashTestVerdictOnReplicas | src/test_memcachedsolution.cpp:1061-1115 | On the replicated store, in under 60 seconds and with a key's updates delivered, whichever replica answers the final get passes the check if and only if there was an increment to make and none was given up on an ERROR. |
| ReplicatedThrash.RunIsPlausible | src/test_memcachedsolution.cpp:1038-1042 | In every run on the replicated store no answer of any replica shows more than the increments made. |
| ReplicatedThrash.CountersFitOnReplicas | src/test_memcachedsolution.cpp:1042-1046 | However old the answers it gets, no thread ever computes a counter above T*N. |
| ReplicatedBounds.LateReadsAreLate | src/test_memcachedsolution.cpp:466-472 | A run has late gets if and only if at some get of it an update of the key is still on its way to a backup. |
| ReplicatedBounds.StaleReadsAreLate | src/test_memcachedsolution.cpp:1036-1056 | Only a get that comes while an update of its key is still on its way to a backup can be answered out of date. |
| ReplicatedBounds.RetriesAreBoundedOnReplicas | src/test_memcachedsolution.cpp:1036-1056 | On the replicated store every run keeps the bounds on requests and refusals, plus 2 and 1 for each such late get, and 2*T and T for each passing of time. |
| ReplicatedBounds.LaggingBackupRefusesForEver | src/test_memcachedsolution.cpp:1036-1056 | While a backup lags there is no bound: two threads and one key have, for any m, a run with m refusals in which no time passes. |
| Durability.AfterALoss | src/test_memcachedsolution.cpp:714-731 | A killed replica is gone; a restarted one is back and misses every key at any time; the others are as they were. |
| Durability.OnlyTheOthersAnswer | src/test_memcachedsolution.cpp:714-731 | After a loss of either kind a get is answered exactly as by the other replicas alone: with a value if and only if one of them holds it, with a miss if and only if none does. |
| Durability.SurvivesIffRedundant | src/test_memcachedsolution.cpp:714-731 | Losing any one replica goes unnoticed by every reader if and only if no replica holds anything but the acknowledged value and a second one holds that. |
| Durability.DrainedKeySurvivesLoss | src/test_memcachedsolution.cpp:714-890 | After any run, once a key's updates have reached the backups, the loss of any one replica leaves every get answering as the single map does, now and later: values stay and deleted ones do not return. |
| Durability.SurvivorsHoldTheKey | src/test_memcachedsolution.cpp:714-731 | After such a run and loss every replica but the one lost holds exactly the acknowledged value, so any of them can decide the next write. |
| Durability.DeleteIsVisibleAtOnce | src/test_memcachedsolution.cpp:511-515 | After a delete no replica can give the key, whatever of it was still on its way, and though other keys' updates still are. |
| Durability.TtlZeroIsNotVisibleAtOnce | src/test_memcachedsolution.cpp:466-472 | After a set with lifetime 0 and any deliveries, a get can give the old value if and only if some backup has not heard of it, and can miss if and only if all have. |
| TwoPrimaries.RoundLosesOne | src/test_memcachedsolution.cpp:1007-1016 | With two primaries there is a run in which both threads' increments are acknowledged and forwarded and both nodes end one higher. |
| TwoPrimaries.TwoPrimariesLoseUpdates | src/test_memcachedsolution.cpp:1007-1016 | For any number of rounds N the thrash test with two threads that disagree about the primary has a run in which both come to their end without ERROR or expiry, everything is delivered, and both nodes hold N in place of 2*N. |
| Failover.AnySurvivorCanDecide | src/test_memcachedsolution.cpp:714-890 | Whichever survivor is to decide, there is a cluster of it and all the others. |
| Failover.SurvivorsAnswerAsTheSingleMap | src/test_memcachedsolution.cpp:714-890 | After any run and the loss of one replica, with any survivor promoted, the survivors begin with the acknowledged value of a delivered key, and over any further run of requests and deliveries they answer, once its updates are delivered, exactly as the single map does. |
| Failover.FailoverIsInvisible | src/test_memcachedsolution.cpp:714-890 | If the promoted replica goes on issuing tokens where the lost one stopped, requests about one key get the answers, tokens included, of the single map that knows of no failure. |
| Failover.ClusterSet | src/test_memcachedsolution.cpp:787-802 | A set among the survivors is decided by the promoted one as the map decides it, whatever arrives where and when. |
| Failover.ClusterGet | src/test_memcachedsolution.cpp:787-802 | Any survivor's answer is the promoted one's, once the key's updates have arrived. |
| Failover.UpdateAfterFailure | src/test_memcachedsolution.cpp:787-802 | Whatever the old token does after a failover, whichever survivor decides and whichever answer: the sets made of the cluster, the status of each, what each get reads, and that every expectation of the test is met. |
| Statistics.FoldMarks | src/test_snmp.cpp:52-88 | The totals count the samples, and the marks are the greatest and the least of them. |
| Statistics.FoldSpread | src/test_snmp.cpp:574-583 | The totals determine the sum of squared distances from any point. |
| Statistics.ScaledVarianceMeaning | src/test_snmp.cpp:574-583 | Count times sum of squares less squared sum is count squared times the true variance. |
| Statistics.CauchySchwarz | src/test_snmp.cpp:574-583 | The squared sum never exceeds count times the sum of squares. |
| Statistics.FoldSums | src/test_snmp.cpp:574-583 | The totals are the sum of the samples and the sum of their squares. |
| Statistics.RowMeaning | src/test_snmp.cpp:574-583 | The mean shown is that of the samples, rounded down, and the variance shown is the mean of the squares, rounded down, less the square of the mean shown. |
| Statistics.EmptyRow | src/test_snmp.cpp:279-282 | A row without samples shows zeros throughout. |
| Statistics.VarianceIsClose | src/test_snmp.cpp:574-583 | For any non-empty samples the integer variance is never negative and lies strictly between the true one less 1 and the true one plus twice the mean plus 1. |
| Statistics.MeanBetweenMarks | src/test_snmp.cpp:211-223 | For any non-empty samples the integer mean lies between the marks. |
| Statistics.HoldIsHeld | src/test_snmp.cpp:574-583 | The closed formula for a value held for some time equals one sample for each unit of it. |
| Statistics.ConstantWindow | src/test_snmp.cpp:558-568 | A window that saw one value has it as mean and marks, and variance 0. |
| Windows.ReplayTracks | src/test_snmp.cpp:163-271 | After any log in order of time the row's two windows are the folds of the log's events in those windows. |
| Windows.LazyWindowIsExact | src/test_snmp.cpp:90-145 | For any events, gaps and moment of reading the lazily rotated row equals the fold over the complete log, filtered by aligned window. |
| Windows.CountsAgeOut | src/test_snmp.cpp:841-891 | Two whole intervals after the last event both windows are zero. |
| Windows.JumpStartsTheNextWindow | src/test_snmp.cpp:500-512 | The jump moves forward by at most an interval and lands on the start of the next window, where current becomes previous. |
| Windows.ReferenceSnoc | src/test_snmp.cpp:273-322 | A row is about the values of just the events of its period, in their order: the 5 seconds before the current ones, the current 5 minutes, or the 5 minutes before. |
| Windows.OneEvent | src/test_snmp.cpp:273-322 | In exactly which rows one increment is counted at any later moment. |
| Windows.CounterTimePeriodsVerdict | src/test_snmp.cpp:273-322 | The test's assertions about both its increments hold if and only if it starts in the first 4m50s of a period. |
| Windows.CountsAgeOutVerdict | src/test_snmp.cpp:841-891 | The ageing test's assertions hold if and only if it starts in the first 4m55s of a period. |
| Windows.StringRowsVerdict | src/test_snmp.cpp:163-223 | Calibration: the literal figures of the test's first string, mean 150 and variance 2500 included, hold if and only if it starts in the first 4m55s of a period. |
| Windows.StringRowsAge | src/test_snmp.cpp:251-266 | Ten minutes on every row is zero again, whenever the test started. |
| Windows.EventTable.Accumulate | src/test_snmp.cpp:192-209 | Adds the event to the log that both windows of the table stand for. |
| Windows.EventTable.Get | src/test_snmp.cpp:90-145 | Each of the three rows shows exactly the fold of the logged events of its period, with the mean between the marks and no negative variance. |
| Gauge.SettleFastIsSettle | src/test_snmp.cpp:574-583 | Bringing a gauge up to date takes a fixed number of steps, with the result of counting every millisecond. |
| Gauge.SettleAgrees | src/test_snmp.cpp:514-590 | Moving the clock keeps the gauge equal to the sampled history, within a window, into the next one and past skipped ones. |
| Gauge.ReplayAgrees | src/test_snmp.cpp:514-590 | So does any sequence of values given at any times. |
| Gauge.GaugeIsExact | src/test_snmp.cpp:514-590 | For any values, times and moment of reading the rows are the totals of the value sampled every millisecond of the current and the previous window, the last value carried on and the time before creation left out. |
| Gauge.RowsAreSane | src/test_snmp.cpp:550-572 | In every reachable row the mean lies between the marks and the variance is not negative. |
| Gauge.UntouchedWindowIsConstant | src/test_snmp.cpp:558-568 | A value unchanged through a whole window fills it: mean and marks are that value, the variance is 0. |
| Gauge.FirstFigures | src/test_snmp.cpp:514-550 | Calibration: the model gives the literal figures the test has for its first period, wherever the clock stood. |
| Gauge.SecondFigures | src/test_snmp.cpp:552-590 | Calibration: the literal figures of the second period, the variance 156 included. |
| Gauge.GaugeTable.Accumulate | src/test_snmp.cpp:530-572 | Gives a value: the whole new row and log. |
| Gauge.GaugeTable.Get | src/test_snmp.cpp:534-590 | The rows are those of the sampled history since the table was created. |
| IpTable.TableIsExact | src/test_snmp.cpp:638-838 | Over any run an address has rows exactly while it holds a reference, and each row is the number of its increments in that period since it last came in. |
| IpTable.CountsAreIncrements | src/test_snmp.cpp:664-725 | Told from the log alone: a row's count is the number of the address's increments in the period since which it has at all times been added more often than removed. |
| IpTable.TableCounts | src/test_snmp.cpp:638-838 | The whole table from the log alone: which addresses have rows, and what each row counts. |
| IpTable.NetIsAddsLessRemoves | src/test_snmp.cpp:664-725 | The balance of an address is how often the log adds it less how often it removes it. |
| IpTable.AddressesAreIndependent | src/test_snmp.cpp:755-838 | What other addresses do never changes an address's presence or counts. |
| IpTable.BalancedTable | src/test_snmp.cpp:664-725 | While no address is removed more often than added it has rows if and only if it was added more often than removed. |
| IpTable.IpTimeBasedCounterTable.AddIp | src/test_snmp.cpp:638-660 | Appends to the history the table stands for. |
| IpTable.IpTimeBasedCounterTable.RemoveIp | src/test_snmp.cpp:664-725 | The same for a removal. |
| IpTable.IpTimeBasedCounterTable.Increment | src/test_snmp.cpp:755-838 | The same for an increment. |
| IpTable.IpTimeBasedCounterTable.Get | src/test_snmp.cpp:638-838 | Whether the address has rows, and the count its history gives. |
| Oid.DecodeEncoded | src/test_snmp.cpp:172-181 | Decoding a length-prefixed index gives the original back, whatever follows it. |
| Oid.EncodingIsPrefixFree | src/test_snmp.cpp:172-181 | No encoded index is the beginning of another one. |
| Oid.IpEncodingIsPrefixFree | src/test_snmp.cpp:755-791 | The same for addresses with their type and length. |
| Oid.LessIsLexicographic | src/test_snmp.cpp:29-50 | An identifier comes before another if and only if it is a beginning of it or is smaller where they first differ. |
| Oid.SortedListingIsUnique | src/test_snmp.cpp:29-50 | A set of identifiers has one listing in order. |
| Oid.WalkAt | src/test_snmp.cpp:29-50 | Where each cell is in a column-by-column listing. |
| Oid.WalkIncreases | src/test_snmp.cpp:29-50 | Column by column and row by row is increasing order of identifier. |
| Oid.WalkOrder | src/test_snmp.cpp:29-50 | Any ordered listing of exactly the table's cells has rows times columns entries, each cell at its column-then-row place. |
| Oid.EventTableWalk | src/test_snmp.cpp:29-50 | The walk of an event table has 15 entries, columns 2 to 6 in turn, each with periods 1 to 3. |
| Oid.AddressRowsIncrease | src/test_snmp.cpp:755-791 | Ordered addresses give their rows in order, three periods for each. |
| Oid.EncodedOrder | src/test_snmp.cpp:172-181 | In length-prefixed form the shorter string comes first, and strings of one length come in their own order. |
| Oid.StringRowsIncrease | src/test_snmp.cpp:172-181 | Strings in that order give the rows of a table by period and string in order. |
| Oid.StringCellNumbers | src/test_snmp.cpp:172-181 | The cell of a string, number by number: 1, column, period, length, characters. |
| IpWalk.WalkHasThreeLinesEach | src/test_snmp.cpp:755-838 | After any run a walk of the table has three lines for each address with a reference, and no others. |
| IpWalk.WalkShowsCounts | src/test_snmp.cpp:755-838 | They come address by address in order, each the cell of its period with the number of the address's own increments in it since it last came in. |
| IpWalk.WalkShowsIncrements | src/test_snmp.cpp:755-838 | The same from the log alone. |
| IpWalk.CellNumbers | src/test_snmp.cpp:682-691 | The cell of an IPv4 address, number by number: 1, column, 1, 4, the address, and 1 to 3 for the previous 5s, current 5m and previous 5m. |
| IpWalk.WalkExists | src/test_snmp.cpp:755-838 | Every table of addresses of one length has a listing in order and a walk. |
| Processes.KillStaysOrdered | src/processinstance.cpp:56-80 | A kill succeeds, stops the instance, spares the others and keeps every child owned by one instance. |
| Processes.EdgeCases | src/processinstance.cpp:27-87 | A kill of a stopped instance succeeds and does nothing; one whose child cannot be signalled fails, and then so does a restart; a failed fork changes nothing; an exited child is a zombie until it is reaped. |
| Processes.EveryChildHasOneOwner | src/processinstance.cpp:27-87 | Over every guarded run of starts, kills, restarts and exits, with pids reused, each running instance owns one unreaped child, no two share one, none is forgotten, and SIGTERM goes to a pid its sender alone owns. |
| Processes.OneChildPerRunningInstance | src/processinstance.h:35-38 | There are exactly as many unreaped children as running instances. |
| Processes.StartNeedsTheGuard | src/processinstance.cpp:27-53 | A start leaves every child owned if and only if the instance was not running or the fork failed; otherwise it orphans the instance's first child. |
| Processes.OrphanForGood | src/processinstance.cpp:27-87 | An orphan stays unreaped and owned by no instance over every later run, guarded or not. |
| Processes.KillLeavesOnlyOthers | src/site.cpp:198-204 | After a kill of a site among any other instances its own are all stopped, every child left is the others', and the others and their children are as they were. |
| Processes.KillLeavesNoChild | src/site.cpp:198-204 | In a program whose only instances are the site's, no child is left, live or zombie. |
| Processes.RestartGivesFreshChildren | src/site.cpp:188-196 | If the forks succeed, a restart of a site among any other instances leaves each of its own one live child born during it; every other child is the others', who are as they were. |
| Processes.AllFreshIsAll | src/site.cpp:188-196 | In a program whose only instances are the site's, those fresh children are all there are and no zombie is left. |
| Processes.StartGivesFreshChildren | src/site.cpp:180-186 | The same for a start of a site at rest, whatever else is running. |
| Processes.KillAllIsARun | src/site.cpp:161-204 | A site-wide kill is a guarded run of single kills, so that what holds over runs holds of it. |
| Processes.StartAllIsARun | src/site.cpp:161-186 | The same of a start from rest. |
| Processes.RestartAllIsARun | src/site.cpp:161-196 | The same of a restart. |
| SiteControl.ProcessInstance.StartInstance | src/processinstance.cpp:27-53 | The whole effect of a start on the instance and the children; it fails if and only if the fork is refused. |
| SiteControl.ProcessInstance.KillInstance | src/processinstance.cpp:56-80 | The whole effect of a kill, and its result. |
| SiteControl.ProcessInstance.RestartInstance | src/processinstance.cpp:83-87 | Kill, and start only if that worked; then it fails if and only if the fork is refused. |
| SiteControl.ProcessInstance.WaitForInstance | src/processinstance.cpp:91-133 | True if and only if there is a socket and one of the first five attempts connects; exactly how many attempts fail. |
| SiteControl.OneAmongMany | src/site.cpp:161-177 | What an operation does to one instance among many is what it does to it alone. |
| SiteControl.Site.Create | src/site.cpp:25-42 | Nothing if the name is not in the deployment; else the given numbers of different, stopped instances at the site's addresses, and the three files' contents. |
| SiteControl.Site.CreateMemcachedInstances | src/site.cpp:62-84 | The loop makes the instances and writes the list of their endpoints. |
| SiteControl.Site.CreateRogersInstances | src/site.cpp:87-95 | The loop makes the instances at their addresses. |
| SiteControl.Site.CreateChronosInstances | src/site.cpp:98-158 | The loops make the instances and write the cluster and shared files. |
| SiteControl.WriteSharedConf | src/site.cpp:98-128 | The loop over the deployment writes the specified text. |
| SiteControl.Site.Start | src/site.cpp:180-186 | Starts the instances in order, each with a fork of its own that fails if and only if it is refused; from rest and without refusals each has one fresh live child, and all other children are the other instances' and as they were. |
| SiteControl.Site.Kill | src/site.cpp:198-204 | Kills the instances in order; all are stopped, and the children left are exactly the other instances', as they were. |
| SiteControl.KillOneOfTwo | src/test_s4solution.cpp:440 | One site is killed while another and the name server run: those keep their children, and no others are left. |
| SiteControl.Site.Restart | src/site.cpp:188-196 | Restarts the instances in order; if no fork is refused each has one fresh live child, and all other children are the other instances' and as they were. |
| SiteControl.Site.Destroy | src/site.cpp:45-53 | Destroying the site leaves it no instance, and exactly the other instances' children, as they were. |
| SiteControl.Site.WaitForInstances | src/site.cpp:207-220 | True if and only if every instance came up; all are tried, also after a failure, and exactly how often each. |
| SiteControl.Site.GetFirstMemcached | src/site.cpp:247-262 | Gives the last instance, which is the first if and only if there is only one. |
| Config.AddressShowsIndex | src/site.cpp:56-59 | An address is the prefix and, after the last dot, the digits of the index with no 0 in front. |
| Config.PortsAsWritten | src/site.cpp:20-22 | The three ports as decimal texts. |
| Config.AddressesAreDistinct | src/site.cpp:56-59 | Addresses of different sites, or different indices, never coincide. |
| Config.EndpointsAreDistinct | src/site.h:35-46 | Two processes share an endpoint only if site, kind and index are the same. |
| Config.SiteEndpointIsPlain | src/site.h:35-46 | The endpoints of a site can be told apart in its files whenever its prefix has no colon, comma or line break. |
| Config.ClusterSettingsRoundTrip | src/site.cpp:62-84 | A reader that takes only "servers=" and a list with commas, or nothing, gets the endpoints written, in order, for any count. |
| Config.ClusterConfRoundTrip | src/site.cpp:130-158 | A reader that takes only "[cluster]" and lines with "node = " gets the endpoints written, in order. |
| Config.SharedConfRoundTrip | src/site.cpp:98-128 | A reader that takes only "[sites]" and lines with "local_site = " or "remote_site = " gets the sites written, with their domains. |
| Config.TwoSitesAsWritten | src/site.cpp:112-128 | The shared files of any two sites, word for word. |
| Config.SharedConfNamesTheOthers | src/site.cpp:98-128 | A site's file lists a site as remote if and only if it is another one of the deployment. |
| Config.OneLocalSite | src/site.cpp:98-128 | A site's file has exactly one local line, which names the site, and a line with name and domain for every other. |
| Config.RemoteIsMutual | src/site.cpp:98-128 | Of two sites of a deployment, one lists the other as remote if and only if the other lists it, which is whenever they differ. |

## Left out

- A get answered by ERROR in the thrash loop: it leaves `value` and `cas` uninitialised, so only OK and NOT_FOUND are modelled; a set answered by ERROR is modelled, as not taken.
- An ERROR after which the write was taken nevertheless, and network timeouts.
- ThrashVerdict.CountersFit: bounds the counters by T*N in place of modelling `int` overflow; tokens are unbounded naturals, not 64 bits wide.
- ThrashTest.RunThrashTest: at most 60 seconds pass between the adds and the threads' end; runs of any length are the subject of ThrashVerdict.VerdictOfAnyLength.
- Negative expiry times, and expiry clocks that differ between replicas.
- Filling a replica that came back empty from the others, and a failover while updates of the key are on their way, whose outcome nothing in the tests fixes; nor is an empty replica promoted.
- Replication.Handle: a delete is one step together with its key's delivery to the backups, since the tests only see it afterwards.
- Failover.UpdateAfterFailure: each get comes after the key's updates have arrived; one that comes before may see older data, as Durability.TtlZeroIsNotVisibleAtOnce shows, although the test does not wait.
- SiteControl.ProcessInstance.KillInstance: the wait is taken to report the exit of the child; a `waitpid` that fails leaves `status` unset in the source.
- Oid.StringRowsIncrease: that the period comes before the string in the index is read off the argument order in the tests, since the helper that builds the identifier is not part of this model.
- Gauge.GaugeIsExact: a value that is replaced within the same millisecond has no time and does not touch the marks; the tests do not say what it should do. The value before the first one given is taken to be 0.
- `CxCounterTable`, `SuccessFailCountTable`, `IPCountTable` and the node-type and request-type tables: they repeat the windowed counter, or a plain count, with another index.
- The SNMP agent and the parsing of `snmpwalk` output.
- `fork` in the child, `exec` and its failure, EINTR and EPERM, environment and command lines; SIGTERM and the wait that follows it are one step, and a child that ignores SIGTERM is not modelled.
- Real sockets: `Network` says in advance what each attempt would meet, and the one second pause between attempts is not modelled.
- File systems: directories, and files as streams; a file is the string written to it.
- The empty topology map of `src/site.cpp:104-111` as a case of its own: SiteControl.WriteSharedConf follows the branch, but the constructor cannot reach it, since it looks its own name up first.
- The topologies' Rogers domains and DNS servers, which no configuration file carries.
- The order of `std::map`: the deployment is a sequence of entries with distinct names, in any order.
- S4 and its timers, the DNS tests, `get_log_level`, dnsmasq, signal handlers and build files: plumbing, or too thin to fix a protocol.
