# A verified model of the network ping benchmark

A C++ server opens many connections to a client and keeps a ping-pong going on each: main thread, worker threads
behind a home-made barrier, an edge-triggered selector, a queue of due times, counters and a latency histogram. The
result goes to a Python driver as text, and the driver prints a report as YAML. This project models these parts in
Dafny and proves what they promise. `dafny verify dfyconfig.toml` checks all of it.

| file | what it models |
|---|---|
| `Protocol`, `ProtocolInvariant`, `ProtocolTheorems`, `ProtocolProgress` | main thread, workers, network and client as one transition system, for any number of connections and workers; its invariant; safety over all interleavings; what can still happen from every reachable state |
| `Kernel` | the world outside: clock, sockets, poll, epoll, random numbers and the flag `done`, with free answers that are recorded, so that the contracts say what the programs make of each; `epoll_wait_ex` |
| `Selector` | the abstract selector, `PollRSelector` and `EPollRSelector` as classes that refine it, and the client's event loop |
| `Rotation`, `ConnectAll` | round-robin turns and the windowed opening of connections |
| `WaitQueue`, `History`, `Books`, `Worker` | the due-time queue, the history of a worker, its books and what keeps them in order, and `worker_thread` as a class |
| `Refinement`, `Execution` | every pass of the class's loop, complete or returning, is a path of the worker in the transition system, and the system can take its steps, whatever the others do between any two of them |
| `Pacing` | what the tokens of the transition system mean for the history of the class: no socket is reported too early, and pings keep their distance |
| `Log2`, `Words64`, `Results`, `Lats`, `TimeText` | the bit-twiddling logarithm, 64-bit words as numbers, partition and merge, percentiles, `get_lats`, time strings |
| `Text`, `ControlText` | numbers as text and the two control messages |
| `PrettyYaml`, `YamlShape`, `YamlReader`, `YamlRoundTrip`, `YamlLayout` | the printer, which layout it chooses, an independent reader of YAML, the round trip between them, and widths |
| `Totals` | sums over sequences and maps |

How the pieces fit. The transition system gives every message and every notification a place of its own, so that "one
message per connection" is a theorem. The worker's class runs on any epoll instance, and its books count with
multiplicities. `Refinement` and `Execution` make its runs runs of the transition system: the class does nothing that
the system's worker does not do, and the system can take its steps, with any steps of the other threads, the client and
the network between any two of them (`Execution.RunExecutes`). `Pacing` brings the tokens back: as epoll has one
notification for each unread message, a socket whose connection is intact is never reported while it waits, so it is in
at most one place at every loop head (`Pacing.SystemStaysCalm`), and its pings are spaced in everything its worker has
done, until a loop head or until its return (`Pacing.SystemPingsAreSpaced`).

## Where the code falls short of its intent

These are proved, not assumed away; each holds for all inputs it names.

- A failed initial write (server.cpp:547-553) leaves the barrier's mutex locked: the test can still end if and only if
  no initial write has failed (`CanFinishIffNoWriteFailed`). After a failure it can get to a state (`FailedGetsStuck`)
  in which no thread can take a step (`StuckAfterFailedWrite`); such a state is reachable if and only if there is a
  connection (`StuckIsReachableIff`).
- `epoll_wait` takes an int (common.cpp:127-132): from 2^31 milliseconds on the request is no longer the time left,
  and some of those waits have no limit (`RequestIsTight`).
- `epoll_wait_ex` is given milliseconds where it expects nanoseconds (server.cpp:265): connecting never sleeps in the
  kernel exactly when the number is below a million and not -1 (`ConnectingNeverSleepsIff`), as the default of 1000 is
  (`DefaultTimeoutNeverSleeps`), and it gives up after that many nanoseconds without an event (`ConnectAll`).
- A descriptor that is reported again while it waits, as after a hang-up of its peer, gets a second entry in the
  queue. The counters still match, but its open reports are more than the one of a waiting descriptor, exactly when it
  has more than one entry (`ZeroOrOneIff`; `TwiceQueued` is an input).
- `wait_for_conn` returns 1, which is true, when bind fails (client.cpp:128-131, `WaitForConn`); the client then waits
  on no descriptor and never ends (`RunTest`).
- `num_conn` of 0 divides by zero (server.cpp:507-508), and only that does (`Assign`).
- The percentile reads (server.cpp:592-595) stay in range if and only if more than 19/20 of `num_conn` sockets were
  pinged (`AllInRangeIff`).
- `log2_64(0)` is 63 (`Log2_64`).
- A due time that wraps around 64 bits lets a ping go early; the comparison honours the pause exactly when the sum
  does not wrap (`DueTimeIsExact`).
- `get_lats` takes the sum of the keys for the number of messages (main.py:443). For bases above one its answer is the
  intended one exactly when the two totals are zero together and, if they are not, no cumulative count lies between
  their shares (`LatIsIntendedIff`). So bucket 0 alone gives zero where one is meant (`BucketZeroAloneIsWrong`), and a
  slot stays empty when all messages together do not reach its share (`LatIsFilledIff`).
- A response that is cut short is taken for a result exactly when the cut is between two digits of its last
  percentile, which then is too small (`CutResponseIff`).
- `dumpv` loses an empty list, or fails on it, exactly where fewer than two columns are left (`RoundTripIff`,
  `EmptyListIsLost`). With a `min_width` of at least 2 this cannot happen.
- A string survives the printer exactly when, printed bare, it does not look like a number, a boolean or null, and,
  printed between quotes, has no quote, no backslash and no character below 0x20 but the tab (`StringReadBackIff`);
  `dumps_simple` escapes nothing.

## Model

| member | source | states |
|---|---|---|
| Protocol.RoundRobin | server.cpp:516-522 | the assignment of sockets to workers takes turns, and is one of those the transition system covers |
| ProtocolInvariant.InitInv | server.cpp:524-532 | the state in which main has taken the mutex satisfies the invariant |
| ProtocolInvariant.MainStepInv | server.cpp:530-580 | every step of main keeps it: spawning, initial writes, barrier, unlock, done, joins, merge |
| ProtocolInvariant.WorkerStepInv | server.cpp:381-483 | every step of a worker keeps it: barrier, poll, drain, test of done, deferring or listing, receive and write halves of a ping, exits |
| ProtocolInvariant.ClientStepInv | client.cpp:258-286 | every step of the client keeps it: poll, receive, echo, close |
| ProtocolInvariant.StepInv | server.cpp:381-580 | every step of any thread, of the client or of the network keeps the invariant |
| ProtocolInvariant.ReachableInv | server.cpp:381-580 | every reachable state satisfies it |
| ProtocolTheorems.OneMessagePerConnection | server.cpp:547-553 | in every reachable state an intact connection holds exactly one message once its initial write is done, and none before |
| ProtocolTheorems.UnreadMessageHasOneNotification | server.cpp:433-482 | an unread message has exactly one notification: a pending edge, or one place in one of the worker's lists; without a message there is none |
| ProtocolTheorems.UnreadEchoHasOneNotification | client.cpp:258-286 | an unread echo at the client has exactly one notification: a pending edge, or one place in what is left of the client's batch |
| ProtocolTheorems.NeverReportedTwice | common.h:45-47 | epoll never reports a descriptor its worker still has in a list or is echoing |
| ProtocolTheorems.PingFindsItsMessage | server.cpp:294-314 | before each ping the worker can stop exactly when done is set, and otherwise fails to receive exactly over a broken connection; on an intact one its whole message is there, and recv cannot come up empty |
| ProtocolTheorems.ClientDropsOnlyBroken | client.cpp:166-186 | the client drops a connection exactly when it is broken, receives the message it was told of otherwise, and can always write an echo |
| ProtocolTheorems.ClientFinishesItsBatch | client.cpp:258-286 | between two polls every step of the client brings it nearer to the end of its batch |
| ProtocolTheorems.BreakIsReported | client.cpp:258-286 | a break is reported to both ends: a waiting client can drop the connection, and the worker that has it wakes up |
| ProtocolTheorems.WorkersLeaveWithReason | server.cpp:401-478 | a worker returns only after done, an error of the wait, or a ping on a broken connection |
| ProtocolTheorems.NobodyPassesTheBarrier | server.cpp:381-386 | while main holds the mutex, no worker can do anything but register |
| ProtocolTheorems.UnlockFindsEveryoneReady | server.cpp:556-559 | at the unlock every worker waits at the barrier and every connection has its message |
| ProtocolTheorems.ActiveCountIsExact | server.cpp:81-86 | active_count is the number of workers between their increment and their exit |
| ProtocolTheorems.MainFollowsScript | server.cpp:524-580 | in every run main has taken the steps its state shows, in this order; a test that ends has started every worker and every connection once, passed the barrier, slept while the workers ran, set done and joined all of them |
| ProtocolTheorems.MergeAfterEveryExit | server.cpp:571-580 | results are merged after every worker has left for good, and the total is the sum over all workers |
| ProtocolTheorems.TotalIsReports | server.cpp:574-580 | the merged total is the number of reports that the workers counted in the whole run |
| ProtocolTheorems.CanFinishIffNoWriteFailed | server.cpp:544-580 | from a reachable state the merge can be reached if and only if no initial write has failed |
| ProtocolTheorems.StuckAfterFailedWrite | server.cpp:547-572 | after a failed write, with main at the join and all workers registered, no thread can take any step |
| ProtocolTheorems.FailedGetsStuck | server.cpp:547-572 | from every state after a failed write some run leads to such a state |
| ProtocolTheorems.StuckIsReachableIff | server.cpp:547-572 | one is reachable if and only if there is a connection |
| ProtocolProgress.BringToPing | server.cpp:388-483 | a running test on intact connections can be continued until a given connection's worker holds its message |
| ProtocolProgress.EveryMessageCanBeAnswered | server.cpp:433-482 | from every such reachable state every connection's message can still reach its next ping: no wake-up is lost |
| Kernel.Clock.Read | common.h:63-71 | the clock does not go back, and does not repeat a reading for ever |
| EpollWait.EpollWaitEx | common.cpp:104-161 | polls at least once; every call asks for exactly the whole milliseconds left until the deadline, converted to int; the last answer decides: events are returned and stamped, a failure is false with a ready count of -1, and without events it returns true only at or after the deadline; retries interrupts; ends |
| EpollWait.RequestIsTight | common.cpp:116-132 | a limited call does not ask to sleep beyond the deadline, and asks for all whole milliseconds before it, if and only if these are fewer than 2^31; and which larger numbers become a wait without limit |
| EpollWait.NeverSleepsIff | common.cpp:104-161 | a wait of no more milliseconds than an int holds makes only calls that do not sleep if and only if it is given less than a million nanoseconds, and not -1; the first call of any wait does not sleep if and only if its milliseconds are a multiple of 2^32 |
| SelectorSpec.EachOncePerWait | common.h:16-22 | between two waits next returns distinct descriptors, all registered and ready; once it returns false, exactly the ready ones |
| SelectorSpec.RemovedNeverReappears | common.h:16-22 | a descriptor that is not registered, such as a removed one, is never returned |
| PollSelector.PollRSelector.AddFd | client.cpp:55-64 | registers the descriptor, and refuses exactly when all slots have been used |
| PollSelector.PollRSelector.Wait | client.cpp:66-74 | refines the abstract wait: fails exactly when poll does; otherwise the descriptors stay, and the events poll found are to be enumerated in the order of the array, with their bits |
| PollSelector.PollRSelector.Next | client.cpp:76-86 | refines the abstract next: returns each pending event once, in order and with its bits, and false only when none is left |
| PollSelector.PollRSelector.RemoveCurrentReady | client.cpp:88-90 | removes exactly the descriptor returned last |
| PollSelector.UsedRemove | client.cpp:88-90 | overwriting one entry with -1 removes that descriptor and no other |
| EPollSelector.EPollRSelector.Wait | common.cpp:63-75 | refines the abstract wait: fails exactly when the last call does; otherwise what is pending is the kernel's last answer |
| EPollSelector.EPollRSelector.Next | common.cpp:77-94 | refines the abstract next: the pending events in order, each once and with its bits |
| EPollSelector.EPollRSelector.RemoveCurrentReady | common.cpp:96-98 | removes exactly the descriptor returned last and keeps the pending events |
| EPollSelector.EPollRSelector.ReadyCount | common.cpp:100-102 | the number of events not yet returned |
| ClientLoop.WaitForConn | client.cpp:101-164 | true exactly when socket and every accept succeed, with as many distinct sockets as asked for; a failed bind returns true with none |
| ClientLoop.MustClose | client.cpp:265-279 | the socket is closed if and only if hang-up, error or invalid is set, or a message was to be taken and was not received or not echoed whole, or there are only unknown bits |
| ClientLoop.HandleEvents | client.cpp:262-285 | every pending event is handled, in order; the closed sockets, and only they, are removed and counted down; the messages received and sent are those of the input events |
| ClientLoop.EchoedStays | client.cpp:273-285 | a socket that is handled stays registered if and only if it was not to be closed, as when its message was echoed |
| ClientLoop.Turn | client.cpp:258-286 | one wait and what is reported: fails exactly when the wait does; fd_left goes down with the registered descriptors, one event is handled for each the kernel reported |
| ClientLoop.Serve | client.cpp:258-286 | any number of such turns: ends when no socket is left, fails exactly when a wait does, and what is no longer registered was closed for an event |
| ClientLoop.RunTest | client.cpp:233-292 | over either selector: fails exactly when setting up, add_fd or a wait does; fd_left is the number of registered descriptors and the loop ends exactly when none is left; every reported event was handled; after a failed bind nothing is registered and it never ends |
| Rotation.Division | server.cpp:518-518 | an index modulo the number of workers is the turn in a rotation, its quotient the number of whole rounds |
| Rotation.Fair | server.cpp:517-522 | in a rotation everyone gets the same number of turns, up to one |
| ConnectAll.Opened | server.cpp:229-263 | a new socket keeps the window: the waiting count is the number of registered descriptors and stays within the queue, sources stay in turn |
| ConnectAll.Confirmed | server.cpp:277-284 | so does a confirmed one |
| ConnectAll.OpenMore | server.cpp:226-263 | opens sockets until the window is full or all are open, and fails exactly when a call for one of them does |
| ConnectAll.ConfirmReady | server.cpp:274-284 | confirms and takes out as many sockets as were ready, and fails exactly when a check does |
| ConnectAll.ConnectAll | server.cpp:192-287 | ends; returns true if and only if every call it made succeeded and every wait was answered, and then with exactly the asked number of distinct sockets, all confirmed, none waiting, each bound to the source address whose turn it was; it waits only while the window is full or all sockets are open; all its calls of epoll_wait are those of its waits, each given the milliseconds as nanoseconds; gives up on a wait without events only after that many nanoseconds |
| ConnectAll.ConnectingNeverSleepsIff | server.cpp:265-265 | if it waits at all, its waits never sleep in the kernel if and only if the number passed is below a million and not -1 |
| ConnectAll.DefaultTimeoutNeverSleeps | server.cpp:198-198 | with the default of 1000 no wait sleeps, where one for 1000 milliseconds begins by asking for all of them |
| ConnectAll.SourcesAreFair | server.cpp:242-250 | the source addresses are used equally often, up to one |
| Log2.Smearing | server.cpp:164-169 | the six shifts fill every bit below the highest and none above |
| Log2.Isolating | server.cpp:171-171 | the subtraction leaves the highest bit alone |
| Log2.TableInvertsShift | server.cpp:154-171 | for every shift the table entry under the top six bits of the shifted constant is the shift |
| Log2.Lookup | server.cpp:171-171 | the lookup of a smeared value is the position of its highest bit, and 63 for zero |
| Log2.Log2_64 | server.cpp:153-172 | for every 64-bit value but zero the result is its binary logarithm rounded down; for zero it is 63 |
| Log2.Log2IsUnique | server.cpp:153-172 | there is only one such number |
| WaitQueue.Top | server.cpp:88-96 | with the reversed order the top of the queue is an earliest entry |
| WaitQueue.DrainExpired | server.cpp:407-416 | the ready list gets exactly the entries that are due, in order of their deadlines; the later ones stay |
| WaitQueue.DrainIsExact | server.cpp:407-416 | entry by entry: what is due is moved with its multiplicity, what is not due stays with it |
| History.BucketOf | server.cpp:442-448 | a latency is counted under its binary logarithm |
| History.LatencyBucketIff | server.cpp:442-448 | a latency d below 2^64 and not zero is counted in bucket b if and only if 2^b <= d < 2^(b + 1) |
| History.HistogramIsExact | server.cpp:438-449 | each bucket of a history counts the latencies between its two powers of two, and the last one those of zero |
| Books.LatMapIsHistogram | server.cpp:438-449 | so does the map lat_map of a worker whose books are in order |
| History.PingsAreSpaced | server.cpp:452-480 | in every history of a worker, if the times of a socket do not overflow and it is calm, its m-th and n-th pings are at least n - m times the minimal timeout apart |
| Books.ReportedInOrder | server.cpp:433-471 | looking at a report keeps the books, whether or not its socket waits already: per socket, events seen are pings sent plus its entries in the queue and the list; mcount matches both sums; the due time is the one drawn |
| Books.AnsweredInOrder | server.cpp:473-482 | so does a ping |
| Books.DrainedInOrder | server.cpp:407-416 | so does the drain |
| Books.InOrderIsAtLeast | server.cpp:401-478 | at an early return each equality weakens to at-least |
| Books.ZeroOrOneIff | server.cpp:405-471 | at a loop head the open reports of a socket are one if it waits and none otherwise, exactly when it has at most one entry, as every socket has that is never reported too early |
| Books.StaysCalm | server.cpp:433-482 | a socket that is reported only when it is in no list is never reported before its last report was answered |
| Books.DeferredInOrder | server.cpp:462-465 | deferring a socket adds one entry and keeps the books, and a second entry breaks the zero-or-one form |
| Books.TwiceQueued | server.cpp:433-465 | a socket reported twice and deferred twice: the books are in order, with two messages, two entries and no ping |
| Books.DueTimeIsExact | server.cpp:462-462 | the 64-bit comparison of due times honours the pause exactly when the sum does not wrap |
| Worker.PollTimeoutIsShort | server.cpp:394-402 | for clock readings below 2^63 the timeout handed to the selector is exactly the time to the earliest deadline, none if that has passed, and none too if it is 2^63 nanoseconds ahead |
| Worker.WorkerThread.constructor | server.cpp:365-379 | a new worker's books are in order, on any epoll instance |
| Worker.WorkerThread.CountLatency | server.cpp:434-449 | a known descriptor's latency is counted once in its bucket; a new one is entered with time zero |
| Worker.WorkerThread.DrawTimeout | server.cpp:451-465 | the pause is drawn between the limits, or is their common value; the descriptor is deferred exactly when its due time is ahead |
| Worker.WorkerThread.LookAt | server.cpp:433-468 | the whole new state after one report: deferred to its due time, or listed |
| Worker.WorkerThread.ScanReported | server.cpp:432-471 | every report is looked at once, in order; done is read after each one that is listed, and the loop is left exactly when it is found set |
| Worker.WorkerThread.Ping | server.cpp:294-314 | receives the message and sends it back; which of the two failed is its answer |
| Worker.WorkerThread.Answer | server.cpp:480-481 | after a ping the time of the write and the socket's count are updated, and nothing else |
| Worker.WorkerThread.PingAll | server.cpp:473-482 | done is read before each ping; the listed descriptors are pinged once each, in order, unless done is found set or a ping is not received or not written; a return tells which, after exactly that first part of them |
| Worker.WorkerThread.AwaitReports | server.cpp:401-402 | true if and only if the last call of epoll_wait did not fail, with events or without |
| Worker.WorkerThread.Sleep | server.cpp:394-402 | one wait until the earliest deadline, or for a tenth of a second when nothing is queued; true if and only if its last call did not fail |
| Worker.WorkerThread.LookAndPing | server.cpp:432-482 | looks at every report, defers or pings each in order, and leaves the books in order; a return says where it left, and why |
| Worker.WorkerThread.Iterate | server.cpp:388-483 | a whole pass waits, drains exactly, looks at every report, defers or pings each, and leaves the books in order; a pass that returns has done exactly a first part of this; it returns for the wait if and only if the kernel call failed, for done if and only if its last reading found it set, and for a ping if and only if that was not received or not written; all it asked of the kernel, of done, of the sockets and of the generator is in its record |
| Worker.WorkerThread.Run | server.cpp:388-483 | a run is a chain of such passes, each with its reason, with the books in order at every loop head it came to, and at-least at a return; the records together are all the run has asked |
| Worker.ReportMoves | server.cpp:433-468 | a report that is looked at stays unread: it moves from the reports to the queue or the list |
| Refinement.PassIsPath | server.cpp:388-483 | a whole pass of the class is a path of the transition system's worker, from loop head to loop head |
| Refinement.ReturnIsPath | server.cpp:401-478 | a pass that returns is a path too, and its last step leaves the loop for the reason of the return, with the class's counter and queue |
| Execution.LocalIsEnabled | server.cpp:294-314 | a receive on an intact connection finds its message, a write its connection, and a test of done passes while it is unset: what the worker can do, the system lets it do |
| Execution.PassExecutes | server.cpp:388-483 | the steps of a whole pass can be taken in the system, with any steps of main, the other workers, the client and the network between any two of them, and lead to the next loop head, if done is not set when the worker looks and epoll has the edges it reports |
| Execution.ReturnExecutes | server.cpp:401-478 | so can the steps of a pass that returns, up to the one that leaves the loop |
| Execution.LastStepEnabled | server.cpp:401-478 | that one can be taken once main has set done, or the connection is broken, and the worker then leaves with that reason |
| Execution.RunExecutes | server.cpp:388-483 | a run of any number of passes, the last of which may return, is a run of the system |
| Pacing.ReportedHasNoEntry | server.cpp:401-471 | what epoll reports of an intact connection has no entry in the queue |
| Pacing.PassKeepsCalm | server.cpp:388-483 | a pass, complete or returning, reports no socket again before its last report was answered, if the connection is intact |
| Pacing.SystemRunExecutes | server.cpp:388-483 | the steps of a run of the class, as its contract describes it, woven with those of the others, can be taken from a reachable state and lead to a reachable one |
| Pacing.SystemStaysCalm | server.cpp:388-483 | in such a run no socket whose connection is intact is reported again before its last report was answered; at every loop head its open reports are one if it waits and none otherwise |
| Pacing.SystemPingsAreSpaced | server.cpp:388-483 | in all a worker has done in a run of the system, until a loop head or its return, the m-th and n-th pings of a socket whose connection is intact are at least n - m times the minimal timeout apart |
| Results.Assign | server.cpp:507-522 | fails with a division by zero exactly for no connections, and otherwise only when a selector cannot be created or a socket not registered; the shares are those of a rotation and fit the event arrays |
| Results.EverySocketHasOneWorker | server.cpp:516-522 | every socket is in exactly one share, and nothing else is in any |
| Results.SharesCover | server.cpp:516-522 | the shares together are as large as the list of sockets |
| Results.AddLatencies | server.cpp:578-579 | adding a worker's histogram adds bucket by bucket, in any order |
| Results.Merge | server.cpp:574-580 | mcount and every bucket are the sums over the workers |
| Results.CollectCounts | server.cpp:582-588 | the list holds the counts of all pinged sockets, each as often as it occurs |
| Results.Percentiles | server.cpp:590-595 | each entry is None if and only if the read is out of range, that is if 20 times the number of pinged sockets is at most num_conn * (i + 1); otherwise at most the share (i + 1)/20 of num_conn counts is smaller than the entry, and more than that share is at most the entry |
| Results.QuantileIsUnique | server.cpp:592-595 | only one count is on both sides of a share |
| Results.AllInRangeIff | server.cpp:592-595 | all 19 reads are in range if and only if more than 19/20 of num_conn sockets were pinged |
| Results.PercentilesAreQuantiles | server.cpp:592-595 | entries in range are counts in increasing order, and at least (i + 1)/20 of num_conn sockets have a count no larger than entry i; with every connection pinged all are in range |
| Results.EveryConnectionCounted | server.cpp:582-588 | if every worker pinged all its sockets, there are num_conn counts |
| ControlText.SerializeToStr | server.cpp:104-123 | the text of a result, word by word, for any order of the map |
| ControlText.LaterPairCounts | main.py:426-426 | of two pairs with one key the later one counts, and a number without a partner is ignored |
| ControlText.ParsedIff | main.py:422-429 | which numbers are taken for a response, even with a negative number of pairs: those behind the pairs must be as many as the first of them says |
| ControlText.ResponseRoundTrip | main.py:416-431 | the driver recovers message count, base, histogram and percentiles, whatever that order was |
| ControlText.CutResponseIff | main.py:416-431 | a first part of a response's text is taken for a result if and only if it is cut between two digits of the last percentile; that percentile is then too small and everything else is right |
| ControlText.RequestIsLoaded | server.cpp:125-151 | what the server makes of a request with any numbers, and with anything behind it: refused for its length or for swapped timeouts, a negative timeout counts modulo 2^64, the rest is as sent |
| ControlText.ShortRequestIsRefused | server.cpp:130-141 | a request with fewer numbers is refused |
| ControlText.PlusIsRead | server.cpp:130-137 | a number may be written with a plus sign |
| ControlText.RequestRoundTrip | server.cpp:125-151 | the server loads exactly what the driver sent, or refuses it for its length or for swapped timeouts |
| ControlText.RequestRoundTripIff | main.py:403-405 | the request survives if and only if the address is one word, the text fits and the timeouts are in order |
| ControlText.AcceptedIsStable | server.cpp:125-151 | what is accepted is in range and in order, and is accepted unchanged when sent again |
| Text.NatRoundTrip | main.py:421-421 | a decimal number is read back as itself |
| Text.NoLeadingZero | main.py:404-405 | only zero is written with a zero in front |
| Lats.GetLats | main.py:441-457 | each slot holds the answer for its percentile, for the total the code takes; the assertion fails exactly for percentiles out of order when that total is not zero |
| Lats.PowOfTwo | main.py:455-455 | with base 2 the answer for a bucket is a power of two |
| Lats.BucketIsLeast | main.py:450-455 | an answer is the least bucket whose cumulative count reaches the percentile's share, and there is one exactly when some bucket does |
| Lats.LatIsFilledIff | main.py:443-455 | a slot is filled if and only if the keys sum to zero or all messages reach its share of that sum |
| Lats.CountsFillEverySlot | main.py:443-455 | with the number of messages as the total, every slot is filled |
| Lats.LatsAreMonotone | main.py:441-457 | a higher percentile has no lower answer, and lower ones are filled if it is |
| Lats.SameBucketIff | main.py:443-455 | two totals give the same bucket if and only if no cumulative count lies between their shares |
| Lats.LatIsIntendedIff | main.py:443-455 | for a base above one the answer is the one for the number of messages if and only if both totals are zero or neither is, and, in the latter case, no cumulative count lies between their shares |
| Lats.BucketZeroAloneIsWrong | main.py:443-449 | bucket 0 alone is answered with zero where its answer is one |
| Lats.KeySumLeavesSlotEmpty | main.py:443-443 | one bucket whose key is too large leaves its slot empty, though the number of messages would fill it |
| Lats.KeySumFindsLowerMedian | main.py:443-443 | a histogram whose median is reported one bucket too low |
| TimeText.NsToReadable | main.py:460-463 | a time is written in whole seconds, milliseconds, microseconds or nanoseconds, the largest unit it reaches, and not at all below one nanosecond |
| TimeText.WrittenAndRead | plot_tests_results.py:53-62 | reading such a text gives the time rounded down to its unit |
| TimeText.ReadingTruncates | plot_tests_results.py:53-62 | the result is less than one unit below the time, and has the same text |
| TimeText.TruncationIsMonotone | plot_tests_results.py:53-62 | times keep their order |
| PrettyYaml.Dumpv | pretty_yaml.py:28-94 | the two loops produce the lines of the recursive definition, and fail where it does |
| YamlShape.BareIff | pretty_yaml.py:5-10 | a string is printed without quotes if and only if it is alphanumeric when its underscores and dots are taken out |
| YamlShape.ListIsFlowIff | pretty_yaml.py:35-61 | a list is printed on one line in brackets if and only if it has only scalars, and their texts with brackets and separators are no longer than the larger of width and minimum width; the line has that length and is read back as the list |
| YamlShape.DictIsFlowIff | pretty_yaml.py:65-86 | the same for dicts, braces, and keys with their values |
| YamlShape.BlockList | pretty_yaml.py:48-56 | any other list is printed item by item, within the width less the indentation |
| YamlShape.BlockDict | pretty_yaml.py:73-84 | any other dict is printed entry by entry, within the width |
| YamlShape.ItemsAppend | pretty_yaml.py:51-56 | items are printed one after the other, in order |
| YamlShape.EntriesAppend | pretty_yaml.py:74-84 | so are entries |
| YamlShape.OneItem | pretty_yaml.py:49-56 | the lines of an item: a dash before the first, and all behind as many columns as the tab has |
| YamlShape.OneEntry | pretty_yaml.py:74-84 | a value stands on the line of its key if and only if it takes one line, is no dict, does not start with a dash, and the line stays shorter than the width; otherwise below it, behind as many columns as the tab has |
| PrettyYaml.SortAscending | pretty_yaml.py:67-67 | the entries of a flow dict are in the order of their keys |
| YamlRoundTrip.SortKeepsMap | pretty_yaml.py:67-67 | sorting the entries does not change the dict |
| YamlRoundTrip.StringReadBackIff | pretty_yaml.py:5-10 | a string is read back if and only if it is clean: bare, it looks like no number, boolean or null; quoted, it has no quote, no backslash and no character below 0x20 but the tab |
| YamlRoundTrip.FlowListReadBack | pretty_yaml.py:38-46 | a flow list is read back, with either separator |
| YamlRoundTrip.FlowDictReadBack | pretty_yaml.py:65-68 | a flow dict is read back, though its entries were sorted |
| YamlRoundTrip.DumpStarts | pretty_yaml.py:48-58 | of every tree there is at least one line, which items[0] relies on, except for an empty list without room for its brackets; no line list starts with a space |
| YamlRoundTrip.ReadBack | pretty_yaml.py:28-94 | what a reader finds in the lines of any clean tree, at every tab size from 2, width and minimum width |
| YamlRoundTrip.RoundTripIff | pretty_yaml.py:28-94 | the tree is read back if and only if no empty list sits where fewer than two columns are left |
| YamlRoundTrip.LayoutDoesNotMatter | pretty_yaml.py:28-94 | with a minimum width of at least 2, all layouts mean the same tree |
| YamlRoundTrip.EmptyListIsLost | pretty_yaml.py:48-56 | with fewer than two columns an empty list becomes null under a key and raises an error in a list |
| YamlLayout.FlowsKeepWithinWidth | pretty_yaml.py:31-86 | every flow collection, with its indentation of whole tabs and its key, is within the width, or within the minimum width after its indentation |
| YamlLayout.JoinAppend | pretty_yaml.py:97-98 | dumps puts one line feed between any two lines |
| YamlLayout.SplitJoin | pretty_yaml.py:97-98 | joined lines are split again as they were |
| YamlLayout.StringTextReadBackIff | pretty_yaml.py:5-10 | the same as a text: one with a line break is not read back as a string at all |
| YamlLayout.DumpsRoundTripIff | pretty_yaml.py:97-98 | the same if and only if for the text that dumps returns |

## Left out

- EpollWait.EpollWaitEx: counts time in unbounded integers, so the 64-bit wrap of `curr_time + timeout_ns` and its
  signed cast are not modelled; a timeout of exactly -1 means no limit, as in the code.
- Kernel.Clock.Read: a clock that goes backwards (CLOCK_REALTIME may be set) is not modelled; termination of the waits
  and the pacing need one that does not.
- ClientLoop.RunTest: is cut off after a number of waits given by a parameter, as the original may wait for ever.
- Worker.WorkerThread.Run: is cut off after a number of passes given by a parameter, for the same reason.
- PollSelector.PollRSelector.AddFd: a descriptor that is registered already is not covered: the array would hold it
  twice, and the registered descriptors are a set here. The client adds each of its sockets once.
- Results.Assign: numbers of connections below zero, and the overflow of `num_conn * (i + 1)` at line 593, are not
  modelled.
- YamlRoundTrip.RoundTripIff: holds for tab sizes from 2; with a tab of 1 a block item is a dash without a space.
- YamlLayout.FlowsKeepWithinWidth: an empty dict takes two columns even where the minimum width is smaller, so the
  bound takes the minimum width to be at least 2.
- TCP fragmentation and partial messages: the programs treat them as errors, so a message is received whole or not at
  all.
- Sockets, bind, accept, recv and write are free choices that are recorded; signals, sleeping and thread priorities
  are parameters or free choices.
- The failing setup of `run_test` before the threads start, beyond the division by zero, and the move constructor of
  `EPollRSelector`, which the reserve at server.cpp:505 avoids.
- `worker_thread_fast`: `worker_thread` without timeouts; `run_test` does not use it.
- Floating point: the `std::log2` buckets, `avg_lat_ns`, and the rounding of `val / limit` and of `all_mess * perc`;
  the printed base is an opaque word, and percentages are real numbers.
- `sscanf` on numbers out of range, which the C standard leaves undefined, is an outcome of its own.
- `int()` and `float()` on texts other than plain decimal digits, and the 64 KiB limit of the driver's single recv.
- `pretty_yaml` on bytes, floats, tuples, other key types, `get_yamable` objects and letters outside ASCII, and YAML's
  limit of 1024 characters for a key on the line of its value.
- The reader covers the YAML that the printer writes: block collections by indentation, flow collections of scalars,
  double-quoted scalars without escapes and plain scalars of the core schema of YAML 1.2.2 (section 10.3.2).
- Tables, plots, argument parsing, the Python, Go and threaded clients, and everything under old/.
