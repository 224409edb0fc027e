# NetScope: a verified model

NetScope reads a capture file, classifies each TCP or UDP flow by the server name its packets
carry, drops the flows that match a rules file and writes the rest to a second capture file. A
reader thread feeds a load balancer, which spreads packets over N workers by a hash of the
five-tuple; the workers share one output queue, which a writer thread empties into the file.

The project has four layers.

- **Queues and the pipeline.** `AtomicQueue` is the bounded FIFO as a class whose methods are the critical
  sections of the source. `QueueMonitor` is the same queue step by step, as a mutex and two condition
  variables with sleeping and notified threads, spurious wakeups and timeouts; it is proved to refine the
  atomic queue and to lose no wakeup, and `QueueCalls` follows whole calls on it from beginning to return.
  `Pipeline` is the whole engine as a transition system for any N >= 1: one program counter per thread, the
  queue bounds, the shutdown flags and the stop order of `main`. `PipelineInvariants` and `PipelineCounters`
  say what every step keeps, `PipelineTheorems` what follows for every schedule, `PipelineProgress` that the
  engine never gets stuck, and `PipelineDrain` exactly when its stop sequence drains.
- **The flow table.** `Flow` holds the per-flow state machine and the table as functions, with the laws about
  them; `FlowHistory` says what an entry is from its packets and the rules alone; `FastPath` holds the classes
  of the source, proved against those functions, up to the worker's loop over timed packets; `FlowAging` says
  from the turns of that loop when it forgets a flow; `FlowCounting` adds up what live and evicted entries
  have counted; `Rules` is the rule manager and its line parser, `RulesAddress` reads its addresses bit by
  bit, and `RulesText` goes from the text of a rules file to what it blocks.
- **Bytes.** `Tls`, `Http`, `Dns`, `PacketParser` and `Pcap` hold the parsers as offset-walking loops, proved
  against specification functions; those functions are characterised by a grammar and shown to invert encoders
  (`TlsGrammar`, `TlsRoundTrip`, `FrameGrammar`, and inside the other modules).
- **Composition.** `Engine` plugs the reader and the flow state machine into the pipeline, and shows that the
  worker class takes the pipeline worker's steps; `EngineHistory` reads every schedule of the engine,
  evictions included, as one run of the flow table per worker; `EngineCounts` does the same for the
  per-application counters; `FlowAffinity` says which worker and which entry the two directions of a flow get;
  `EndToEnd` goes from a line of the rules file and the bytes of a frame to what the output file can hold.
  `Metrics` is separate: the latency histogram under concurrent recording and scraping.

A schedule is a list of actions, each enabled when it is taken, so a statement about every schedule is
a statement about every reachable state. In the classes, a method whose source waits on a condition variable runs
once the wait is over; the waiting itself is in `QueueMonitor` and `Pipeline`.

## Where the code and its documentation disagree

The model follows the code.

- `loadRules` is documented as replacing all rules (include/rule_manager.h:34); it adds to them.
  `Rules.LoadedExactly` and `Rules.ReplacesExactlyWhen` say when the two agree, `Rules.MayNotReplace`
  is a rule set on which they do not.
- `normalised` is documented as making both directions of a flow match (include/types.h:90), and the
  lookup as trying the reverse direction (src/connection_tracker.cpp:18). It tries the tuple and its
  canonical form only, so in one table both directions share an entry exactly when the canonical one came
  first: `Flow.DirectionsShare`. In the engine they must also hash to one worker:
  `FlowAffinity.DirectionsShareAPlace`, for every schedule, with captures of two generated frames that end in two
  places in `FlowAffinity.DirectionsMaySplit` (the other direction first, any hash) and
  `FlowAffinity.AnswerMaySplit` (the canonical one first, the source's hash).
- "All packets of the same flow" go to one worker (src/load_balancer.cpp:38, include/connection_tracker.h:7): the
  hash is of the directed tuple, so they do exactly when the two directions hash to one worker or only one of
  them occurs, `FlowAffinity.AffinityExactlyWhen`; `FlowAffinity.AffinityFails` is an engine with two workers and
  a capture whose flow goes to both, at the values the source's hash has on it (`FlowAffinity.AnswerHash`,
  `FlowAffinity.ReplyHash`).
- The 500 ms sleep before shutdown is there to let the workers drain (src/main.cpp:269). Nothing enforces it: the balancer and the
  workers leave their loops without draining. `PipelineDrain.DrainsExactlyWhen` says which states before the
  stop sequence guarantee that every packet is decided; for every capture with a packet to decide,
  `EndToEnd.CaptureMayBeAbandoned` gives a schedule in which one is not.
- The writer copies the input's global header, even a byte-swapped one, and writes native record
  headers: `Pcap.SwappedRoundTrip`.
- Of a Prometheus histogram, `_count` and the `+Inf` bucket are meant to be equal; a concurrent scrape can see them
  differ, whatever happened before its first load: `Metrics.CountMayDisagree`, with the exact condition in `Metrics.ConsistentScrape`.

## Model

| member | source | states |
|---|---|---|
| `AtomicQueue.ThreadSafeQueue.Push` | include/thread_safe_queue.h:35-45 | once its wait is over the call is one transition of the atomic queue: accepting the item, or refusing it exactly when the queue is shut; the size counter stays the queue length, within the bound |
| `AtomicQueue.ThreadSafeQueue.TryPush` | include/thread_safe_queue.h:48-55 | accepts exactly on an open queue with room, else refuses and changes nothing |
| `AtomicQueue.ThreadSafeQueue.Pop` | include/thread_safe_queue.h:60-71 | one transition: taking the oldest item, also from a shut queue, or taking nothing from an empty one |
| `AtomicQueue.ThreadSafeQueue.PopWithTimeout` | include/thread_safe_queue.h:74-87 | the same transition, given the value of the condition when the timed wait returned |
| `AtomicQueue.ThreadSafeQueue.Shutdown` | include/thread_safe_queue.h:92-99 | the closing transition: the flag is set and every queued item stays |
| `AtomicQueue.ThreadSafeQueue.Empty` | include/thread_safe_queue.h:104 | the atomic size tells whether the queue is empty |
| `AtomicQueue.ThreadSafeQueue.Size` | include/thread_safe_queue.h:103 | the atomic size is the length of the queue |
| `QueueMonitor.SoundAlways` | include/thread_safe_queue.h:35-99 | in every reachable monitor state the mutex has one holder, each waiter is asleep or notified on the right condition, the bound holds, and the three wakeup invariants hold |
| `QueueMonitor.NoLostWakeup` | include/thread_safe_queue.h:35-99 | while an un-notified producer sleeps on an open queue, free slots never exceed notified producers (plus a notify about to be sent); dually for consumers; on a shut queue sleepers exist only while a notify_all is pending |
| `QueueMonitor.MutexIsReleased` | include/thread_safe_queue.h:35-99 | from any point of any schedule where a thread holds the mutex, it has let go of it at some point before or at its fifth step from there, whatever other threads do in between |
| `QueueMonitor.SleepersAreServed` | include/thread_safe_queue.h:35-99 | while a sleeper's condition holds, the mutex holder, a thread notified on its side or a pending notifier can step; at most seven such steps lead to where it is woken, its condition is false, or a thread notified on its side holds the mutex and tests the same condition |
| `QueueMonitor.RefinesAtomicQueue` | include/thread_safe_queue.h:35-99 | every step of the monitor is one transition of the atomic queue or none, and fixes what the call returns; an open queue returns nothing only after a timeout |
| `QueueCalls.CallsAreAtomic` | include/thread_safe_queue.h:35-99 | in every schedule a call takes effect exactly once, by its own thread between beginning and return, and returns that effect: push and tryPush accept iff they insert their own item, push refuses only when shut, tryPush only when shut or full, pop returns the oldest item iff it removes it and nothing only from an empty queue that is shut or after its own timeout |
| `QueueCalls.FirstInFirstOut` | include/thread_safe_queue.h:35-87 | in every schedule the items leave in the order they entered, none lost or made up |
| `PipelineInvariants.PhasesStep` | src/main.cpp:268-278 | each step keeps the relation between main's place in the stop order and every running flag, shutdown flag and thread exit |
| `PipelineInvariants.PhasesRefuseNoPush` | src/main.cpp:262-278 | given that relation, no blocking push of reader, balancer or worker meets a shut queue |
| `PipelineInvariants.DeliveredStep` | src/load_balancer.cpp:30-42 | each step keeps: what a worker has received, then what is on its way to it, is exactly the reader's packets hashed to it, in order |
| `PipelineInvariants.EmittedStep` | src/fast_path.cpp:107-130 | each step keeps: what has gone to the output queue from a worker, then what it is about to push, is exactly its FORWARD decisions, in order |
| `PipelineCounters.TalliesStep` | src/fast_path.cpp:107-127 | each step keeps every shared counter equal to the sum of what the workers have contributed |
| `PipelineCounters.FaithfulStep` | src/fast_path.cpp:48-73 | each step keeps: a worker that has evicted nothing has the table and decisions of the sequential fold over what it has handled |
| `PipelineTheorems.InvAlways` | src/main.cpp:205-278 | all pipeline invariants hold after every schedule |
| `PipelineTheorems.ScheduleIndependence` | src/fast_path.cpp:48-131 | after any schedule a worker has decided a prefix of the reader's packets hashed to it; without eviction its table and decisions are those of the sequential fold; the file's share of it is a prefix of its forwards |
| `PipelineTheorems.DrainedRunsAgree` | src/main.cpp:205-278 | any two fully drained runs write the same packets, each worker's in the same order |
| `PipelineTheorems.LosslessShutdown` | src/main.cpp:205-278 | no push is refused; when main is done the file holds exactly the packets counted as forwarded, and every packet is decided or still in the raw queue or its worker's input queue |
| `PipelineTheorems.Conservation` | src/fast_path.cpp:98-130 | in every state: packets emitted = queued + in hand + forwarded + dropped; at most 50002 + 10001 N unfinished; total = forwarded + dropped + workers between the two; total = sum of the per-app counts when no worker is mid-packet |
| `PipelineTheorems.PushesWaitForRoom` | src/load_balancer.cpp:14-41 | in every state the three kinds of queue hold at most 50000, 10000 and 20000 packets, and a push can go ahead iff its queue is below that |
| `PipelineDrain.DrainsExactlyWhen` | src/main.cpp:268-274 | once the reader has finished and before any worker is told to stop: every completion of the run decides every packet iff the raw queue and the balancer's hand are empty and each input queue is empty, or holds one packet its worker already waits for |
| `PipelineDrain.AnyInputMayLose` | src/main.cpp:268-278 | for any rules, hash, N and non-empty input some complete run leaves a packet undecided |
| `PipelineDrain.ShutdownMayAbandon` | src/main.cpp:268-278 | for any input of at most 50000 packets some complete run leaves all of it in the raw queue and writes nothing |
| `PipelineDrain.DrainedRunExists` | src/main.cpp:205-278 | every input has a complete run that decides every packet, evicts nothing and leaves the queues empty |
| `PipelineTheorems.PerFlowOrder` | src/load_balancer.cpp:37-41 | even with evictions, every written packet was emitted, and those of one directed tuple are written in reader order, each at most once |
| `PipelineTheorems.DoomedNeverWritten` | src/fast_path.cpp:111-130 | a packet that is dropped whatever the table holds never reaches the file |
| `PipelineProgress.NeverStuck` | src/main.cpp:205-278 | in every reachable state short of the end some step other than a pop timeout is enabled, also while stop sequences join and pushes block |
| `PipelineProgress.StepLowers` | src/main.cpp:205-278 | every such step lowers a measure over packet stages and thread positions, and a timeout raises it by at most one |
| `PipelineProgress.DeadlockFreedom` | src/main.cpp:205-278 | no schedule is stuck, and none has more than 17 jobs + 6 N + 16 steps besides timeouts, plus one per timeout |
| `PipelineProgress.CanAlwaysFinish` | src/main.cpp:205-278 | every schedule extends, without timeouts, to one where main has returned |
| `Metrics.LatencyHistogram.RecordLatencyMs` | src/metrics.cpp:137-146 | run alone it makes the seven increments of the interleaved model |
| `Metrics.CountsAreOrdered` | src/metrics.cpp:137-146 | with any number of recordings in progress, the live buckets are cumulative |
| `Metrics.ConsistentScrape` | src/metrics.cpp:213-230 | the values one concurrent scrape reads satisfy b0.1 <= b1 <= b5 <= b10 <= bInf, and bInf equals count exactly when as many calls bumped +Inf during the scrape as stood between the counters at its start |
| `Metrics.ScrapeBounds` | src/metrics.cpp:213-230 | every value a scrape reads is that of its own counter: at least what the recordings returned before its first load make it, at most what those started by its last one do; for the buckets, +Inf, count and sum |
| `Metrics.QuietScrape` | src/metrics.cpp:213-230 | with all recordings returned before the scrape and none started during it, every value is exact |
| `Metrics.CountMayDisagree` | src/metrics.cpp:213-230 | from every reachable state before the scrape's first load, however quiet, some continuation makes it read count above +Inf |
| `Flow.EntryLife` | src/fast_path.cpp:78-131 | the k-th packet of an entry is dropped iff some packet up to it would be blocked with the app and name known at that packet; DROP iff BLOCKED at packet boundaries; classification ignores blocking; at most two log lines |
| `Flow.ClassifiedOnce` | src/fast_path.cpp:136-181 | once classified, application and name never change |
| `Flow.TableIsItsHistory` | src/connection_tracker.cpp:14-30 | with evictions anywhere, an entry exists iff packets resolved to its key since it was last removed, it is the life of exactly those packets, and its key is its tuple |
| `Flow.ResolutionStable` | src/connection_tracker.cpp:14-58 | until its entry is evicted a resolved tuple keeps it, whatever other entries are evicted |
| `Flow.DirectionsShare` | src/connection_tracker.cpp:18-21 | in one table, between any two evictions of the flow, once both directions of a flow without an entry have been seen, they share an entry iff the canonical one came first |
| `Flow.CanonicalIsLeast` | include/types.h:90-95 | the canonical form is the direction whose source address and port are not above those of its destination |
| `FlowHistory.IdentityExactly` | src/fast_path.cpp:136-181 | a flow's application and name are those of its first named packet; without one the application is HTTPS, HTTP or unknown as its first packet to 443 or 80 went to 443, to 80, or there is none |
| `FlowHistory.EntryExactly` | src/fast_path.cpp:78-131 | with evictions anywhere, every field of every entry from the packets since its creation: application, name, DROP iff a rule named the address, port, application or name known at one of them, state, counts, and the times of the first and last of them |
| `FlowHistory.VerdictExactly` | src/fast_path.cpp:91-131 | the verdict on a packet and the application it is counted under, from the same packets and it |
| `FlowHistory.LinesExactly` | src/fast_path.cpp:118-124 | a flow logs one block line when first dropped, and exactly one more if it gets its name after a rule was met without it |
| `FlowAging.EvictedExactlyWhen` | src/fast_path.cpp:60-73 | in the worker loop an entry goes after a turn iff that turn is a 10000th one and the entry's last packet was handled at least 120 s before the cleanup |
| `FlowAging.EvictedWhenIdle` | src/connection_tracker.cpp:43-58 | on a clock that does not go back: iff every packet since its creation was |
| `FlowAging.BusyFlowStays` | src/fast_path.cpp:78-84 | a tuple with a packet less than 120 s old at every cleanup keeps the entry of its first packet |
| `Flow.UnnamedUnclassified` | src/fast_path.cpp:86-181 | until a packet of a flow, in either direction, carries a name, none of its entries is classified |
| `Flow.RunUntimed` | src/connection_tracker.cpp:27-28 | a whole run, evictions included, and the run with every time erased have the same table but for timestamps |
| `FlowCounting.CountsAreComplete` | src/fast_path.cpp:82-84 | packets and bytes counted by live entries plus those of evicted entries equal the packets and bytes handled |
| `FastPath.ConnectionTracker.GetOrCreate` | src/connection_tracker.cpp:14-30 | returns the resolved entry, creating it under the tuple itself only if neither form is there |
| `FastPath.ConnectionTracker.Find` | src/connection_tracker.cpp:32-41 | finds the entry the tuple resolves to, and nothing if there is none |
| `FastPath.ConnectionTracker.CleanupStale` | src/connection_tracker.cpp:43-58 | removes exactly the entries at least the timeout old, and counts them |
| `FastPath.FastPathWorker.FindTlsName` | src/fast_path.cpp:141-150 | the TLS name of a packet to port 443, as `Tls.Sni` has it, and its application |
| `FastPath.FastPathWorker.FindHttpName` | src/fast_path.cpp:153-162 | the Host of a packet to port 80, as `Http.Host` has it, and its application |
| `FastPath.FastPathWorker.FindDnsName` | src/fast_path.cpp:165-174 | the name queried in a packet from or to port 53, as `Dns.Query` has it |
| `FastPath.FastPathWorker.ClassifyFlow` | src/fast_path.cpp:136-181 | one classification step of the flow state machine, with names from the bytes in the payload window |
| `FastPath.FastPathWorker.ProcessPacket` | src/fast_path.cpp:78-131 | the table takes one step of the flow state machine; exactly one of forwarded and dropped and one per-app counter goes up; a block line is logged exactly when the entry becomes BLOCKED |
| `FastPath.FastPathWorker.Round` | src/fast_path.cpp:48-73 | one worker round: the packet, and every 10000th round the removal of entries idle for 120 s |
| `FastPath.FastPathWorker.RunLoop` | src/fast_path.cpp:48-73 | the worker loop over any timed packets: table, counter and pushed packets are the fold of those rounds |
| `FastPath.LoopIsRun` | src/fast_path.cpp:48-73 | that fold is a run of the flow table: the packets, and after each the cleanup of exactly the entries stale by age |
| `Rules.RuleManager.ShouldBlock` | src/rule_manager.cpp:130-153 | DROP iff the address, port or application is listed, or a non-empty name matches a pattern |
| `Rules.RuleManager.IsDomainBlocked` | src/rule_manager.cpp:158-174 | true iff some pattern matches |
| `Rules.WildcardMatches` | src/rule_manager.cpp:161-168 | "*.d" matches exactly the names h.d, and not d itself |
| `Rules.SubstringMatches` | src/rule_manager.cpp:169-171 | any other pattern matches exactly the names it occurs in |
| `Rules.RuleManager.BlockAppByName` | src/rule_manager.cpp:96-107 | blocks the first application with that name or alias, and nothing for an unknown name |
| `Rules.ParseIPString` | src/rule_manager.cpp:199-213 | wherever the source is defined, the loop computes the bitwise or of the numbers between the dots, each shifted to its place and cut to 32 bits |
| `RulesAddress.OctetsExactly` | src/rule_manager.cpp:203-211 | between the dots only the digits matter, read in decimal |
| `RulesAddress.AddressBits` | src/rule_manager.cpp:199-213 | for up to four pieces between dots, whatever they hold: bit by bit, the address is the numbers of the pieces, the first shifted by 24 and each next one by 8 less, within 32 bits |
| `Rules.IpRoundTrip` | src/rule_manager.cpp:199-213 | parseIPString inverts ipToString on all 2^32 addresses |
| `Rules.RuleManager.LoadRules` | src/rule_manager.cpp:26-73 | the file's lines are added, in order, to the rules already there; the count is of the accepted directives |
| `Rules.LoadedExactly` | src/rule_manager.cpp:26-73 | after loading, a rule is in force iff it was before or some line puts it there |
| `Rules.ReplacesExactlyWhen` | include/rule_manager.h:33-36 | loading replaces the rules iff every earlier rule is in the file again |
| `Rules.MayNotReplace` | include/rule_manager.h:33-36 | an empty file leaves an earlier port rule in force |
| `Rules.LoadingNeverUnblocks` | src/rule_manager.cpp:26-73 | whatever was blocked before loading is blocked after |
| `Rules.AppFromFinds` | src/rule_manager.cpp:96-107 | no name or alias stands for two applications: the search finds an application iff the name is its own |
| `Rules.NamesAre` | src/types.cpp:38-68 | the names of the applications, and Twitter's second one |
| `Rules.SpacesAre` | src/rule_manager.cpp:40-42 | what isspace of the C locale skips |
| `RulesText.LinesJoin` | src/rule_manager.cpp:36 | no line read holds a newline, and joined with newlines the lines are the text, up to one final newline |
| `RulesText.LinesRoundTrip` | src/rule_manager.cpp:36 | any lines are read back from the text they make |
| `RulesText.LinesExactly` | src/rule_manager.cpp:36 | the non-empty lines read are exactly the stretches between newlines or the ends of the file |
| `RulesText.SaysItsWords` | src/rule_manager.cpp:37-47 | the parser sees a directive and a value iff the line is indentation, the two, space between, and then nothing, space or a comment |
| `RulesText.StoulExactly` | src/rule_manager.cpp:60-66 | sign, digits and junk: the number of the digits, negated modulo 2^64 after a minus, an error without digits or from 2^64 on |
| `RulesText.PutsExactly` | src/rule_manager.cpp:49-70 | a line puts an address, port, application or pattern in force iff it is laid out as a valid directive for it |
| `RulesText.LoadedCount` | src/rule_manager.cpp:49-73 | the count returned is the number of valid directives |
| `RulesText.TextLoadedExactly` | src/rule_manager.cpp:26-73 | after loading a text, a rule is in force iff it was before or some line of the text orders it |
| `RulesText.BlockedExactly` | src/rule_manager.cpp:26-174 | from the text to the decision: after loading, a packet is blocked iff it was before or a line orders its address, its port, its application, or a pattern that covers its name |
| `RulesText.BlockIpLine` | src/rule_manager.cpp:51-53 | a block_ip line with the address as ipToString spells it puts that address in the rules |
| `RulesText.BlockPortLine` | src/rule_manager.cpp:60-66 | a block_port line with the port in decimal puts that port in the rules |
| `RulesText.BlockAppLine` | src/rule_manager.cpp:54-56 | a block_app line blocks the application of that name for every address, port and name |
| `RulesText.BlockDomainLine` | src/rule_manager.cpp:57-59 | a block_domain line blocks every name its pattern covers |
| `Tls.Extract` | src/sni_extractor.cpp:48-113 | for every byte string the walk ends with all reads in bounds and computes `Tls.Sni` |
| `Tls.ReadServerName` | src/sni_extractor.cpp:92-107 | reads the host name leading a server_name body, and nothing if a test fails |
| `Tls.WalkExtensions` | src/sni_extractor.cpp:78-112 | the extension loop computes the recursive walk: the first extension of type 0 decides |
| `TlsGrammar.SniCharacterised` | src/sni_extractor.cpp:30-113 | a name is returned iff the payload reads as a ClientHello prefix, extensions of other types, and a server_name extension leading with that name |
| `TlsGrammar.AppendStable` | src/sni_extractor.cpp:30-113 | a name once found is unchanged by appending any bytes |
| `TlsRoundTrip.ClientHelloRoundTrip` | src/sni_extractor.cpp:48-113 | for every session id, cipher list, compression list, extension list and trailing bytes, extraction returns the host name leading the first server_name extension |
| `TlsRoundTrip.GeneratedBytes` | tests/generate_test_pcap.py:71-95 | the generator's record, put together piece by piece as it does, is the encoding of a ClientHello |
| `TlsRoundTrip.GeneratedRoundTrip` | tests/generate_test_pcap.py:71-95 | extraction gives back the name from the generator's record and anything after it |
| `Http.Extract` | src/sni_extractor.cpp:127-162 | the scan computes `Http.Host`, reads in bounds |
| `Http.HostCharacterised` | src/sni_extractor.cpp:127-162 | for a request: the port-stripped value after the first "host:" with a non-empty value, and nothing iff there is none |
| `Http.MethodsExactly` | src/sni_extractor.cpp:118-125 | a payload is a request iff it begins with the first four characters of GET, HEAD, POST, PUT, DELETE, OPTIONS or PATCH and a space |
| `Http.HostExactly` | src/sni_extractor.cpp:127-162 | for a request, byte by byte: the first "host:" in any case, then spaces and tabs, then a non-empty value to the end of its line; the host is that value up to a colon; none iff there is no such field short of the last six bytes |
| `Http.HttpRoundTrip` | src/sni_extractor.cpp:127-162 | for every path free of "host:", plain host and optional port, whatever follows, the scan returns the host |
| `Http.GeneratedRoundTrip` | tests/generate_test_pcap.py:97-99 | the generator's request is an instance |
| `Dns.ExtractQuery` | src/sni_extractor.cpp:174-193 | the label loop computes `Dns.Query`, reads in bounds |
| `Dns.QueryCharacterised` | src/sni_extractor.cpp:167-193 | for a query: exactly one maximal run of whole labels of 1 to 63 bytes, and the result is its dot-join, or nothing if it is empty |
| `Dns.QueriesExactly` | src/sni_extractor.cpp:167-193 | for all header fields: no name for a response, without a question or for an empty first name, and else that name, whatever follows |
| `Dns.SplitExactly` | tests/generate_test_pcap.py:105-107 | the labels it splits a name into hold no dot and joined with dots are the name |
| `Dns.DnsRoundTrip` | tests/generate_test_pcap.py:101-110 | extraction inverts dns_query for every domain with labels of 1 to 63 bytes |
| `PacketParser.Parse` | src/packet_parser.cpp:20-51 | accepts and fills the fields as `PacketParser.Parsed` does, reads in bounds |
| `PacketParser.ParseIPv4` | src/packet_parser.cpp:73-98 | accepts exactly version 4 with a header of at least 20 bytes that fits |
| `PacketParser.ParseTcp` | src/packet_parser.cpp:103-120 | accepts exactly a header of at least 20 bytes that fits, and moves to its end |
| `FrameGrammar.FrameRoundTrip` | src/packet_parser.cpp:20-135 | a TCP or UDP frame with header lengths of 5 to 15 words and any payload parses to its own tuple, ttl, flags and numbers, with the payload as the rest of the frame |
| `FrameGrammar.KeptFramesAreFrames` | src/packet_parser.cpp:20-135 | every frame the reader keeps is such a frame, byte for byte, and its payload window ends at the end of the frame |
| `FrameGrammar.GeneratedTcpBytes` | tests/generate_test_pcap.py:48-66 | the concatenation eth, ip_hdr, tcp_hdr and payload is the encoding of a frame of the grammar |
| `FrameGrammar.GeneratedUdpBytes` | tests/generate_test_pcap.py:48-69 | the concatenation eth, ip_hdr, udp_hdr and payload is the encoding of a frame of the grammar |
| `Pcap.PcapReader.Open` | src/pcap_reader.cpp:17-44 | accepts exactly a whole header with one of the two magic numbers |
| `Pcap.MagicsAre` | src/pcap_reader.cpp:26-41 | the two magic numbers as bytes of the file |
| `Pcap.PcapReader.ReadNextPacket` | src/pcap_reader.cpp:51-88 | delivers the records of the file one by one, and stops at the first bad length or short read |
| `Pcap.PcapWriter.WritePacket` | src/pcap_reader.cpp:120-132 | appends one native record |
| `Pcap.WriteAll` | src/main.cpp:211-219 | the writer's output is the header and the records in order |
| `Pcap.SwapReadsBigEndian` | include/platform.h:18-23 | swapping a little-endian read gives the big-endian value |
| `Pcap.RecordsExactly` | src/pcap_reader.cpp:51-88 | in either byte order: reading ends if fewer than 16 bytes are left, the length is 0 or above 65536 or runs past the end, and else gives that record and goes on after it |
| `Pcap.CopyExactly` | src/pcap_reader.cpp:110-132 | writing back everything read gives the native capture byte for byte, up to what follows its last whole record, iff no record has an original length other than its captured one |
| `Pcap.PcapRoundTrip` | src/pcap_reader.cpp:51-132 | with a native header, reading back what was written gives the same packets and timestamps in order |
| `Pcap.TruncationPrefix` | src/pcap_reader.cpp:51-88 | truncating any file yields a prefix of its packets |
| `Pcap.TruncatedRoundTrip` | src/pcap_reader.cpp:51-132 | a written file cut inside record m reads back as exactly the first m packets |
| `Pcap.SwappedRoundTrip` | src/pcap_reader.cpp:102-132 | with a byte-swapped header the round trip holds iff nothing was written |
| `Engine.Emit` | src/main.cpp:246-257 | a packet becomes a job iff it parses as TCP or UDP over IPv4 |
| `Engine.ReadJobs` | src/main.cpp:245-263 | the reader loop emits the kept packets in order, numbered from zero |
| `Engine.JobsAreSound` | src/main.cpp:245-263 | every job has its payload window inside its data, the tuple of its bytes, and comes from the capture |
| `Engine.SequentialIsRun` | src/fast_path.cpp:48-131 | the worker's sequential fold is a run of the flow table |
| `Engine.SequentialDecides` | src/fast_path.cpp:48-131 | and its decisions are that run's verdicts |
| `Engine.RoundIsPipelineSteps` | src/fast_path.cpp:48-73 | one round of the worker class over a timed packet is the pipeline worker's steps from one loop check to the next, with that round's stale set, which the pipeline allows |
| `Engine.LoopIsPipelineSteps` | src/fast_path.cpp:48-131 | a whole loop of the class ends with the pipeline worker's table (timestamps aside), decisions and pushed packets |
| `EngineHistory.WorkerReplays` | src/fast_path.cpp:48-131 | after every schedule, evictions included, each worker's table is the run of the flow table over its packets and cleanups, and its decisions are that run's verdicts one by one |
| `EngineHistory.DroppedUntilEvicted` | src/fast_path.cpp:91-116 | in any run of the table, a dropped tuple is dropped until its own entry is evicted, whatever else is |
| `EngineHistory.DroppedForGood` | src/fast_path.cpp:87-131 | in every schedule a worker that has dropped a directed tuple drops it ever after, unless its own entry was evicted between the two decisions |
| `EngineHistory.DroppedNeverWritten` | src/fast_path.cpp:87-131 | if the verdict on a packet is DROP, it is not in the file in any schedule, and a later packet of its directed tuple only if their entry was evicted in between |
| `EngineHistory.FewPacketsNeverEvict` | src/fast_path.cpp:60-73 | in every schedule, a worker to which fewer than 10000 packets hash evicts nothing |
| `EngineHistory.SmallInputsAgree` | src/fast_path.cpp:48-73 | if every worker's share is that small, any two runs that decide every packet write the same packets, each worker's in the same order |
| `EngineHistory.FoldDropsNeverWritten` | src/fast_path.cpp:48-131 | if the sequential fold over its worker's earlier packets drops a packet, and the share is that small, no schedule writes it or a later packet of its directed tuple |
| `EngineCounts.AppsExactly` | src/fast_path.cpp:108-109 | in every schedule each per-application counter is the number of packets decided under that application, as the packets of their flows define it, less those a worker is still counting |
| `EngineCounts.AppsWhenDone` | src/fast_path.cpp:108-109 | at the end it is exactly that number |
| `FlowAffinity.AffinityExactlyWhen` | src/load_balancer.cpp:37-40 | all packets of a flow go to one worker iff its two directed tuples hash to one, or one of them does not occur |
| `FlowAffinity.DirectionsShareAPlace` | src/load_balancer.cpp:37-40 | in every schedule, with other flows evicted anywhere, the two directions of a flow have one worker and entry iff they hash to one worker and, since neither had an entry, that worker has seen the canonical one first |
| `FlowAffinity.SettledDirectionsShare` | src/connection_tracker.cpp:18-30 | the same from the logs: both directions decided and nothing evicted at their workers |
| `FlowAffinity.CaptureMeets` | src/load_balancer.cpp:37-40 | a capture of one packet each way, for any rules, hash and N, has a complete run that decides both; they end in one place iff they hash to one worker and the first is canonical |
| `FlowAffinity.AnswerHash` | include/types.h:101-114 | the value of the source's hash on one directed tuple |
| `FlowAffinity.ReplyHash` | include/types.h:101-114 | and on its reverse |
| `FlowAffinity.DirectionsMaySplit` | src/connection_tracker.cpp:18-30 | two generated TCP frames of one flow, the non-canonical direction first, end in two places, for any rules, addresses, payloads, hash and N |
| `FlowAffinity.AnswerMaySplit` | src/load_balancer.cpp:37-40 | with the canonical direction first, two workers and the source's hash values, a flow's two generated frames go to two workers and two entries |
| `FlowAffinity.AffinityFails` | src/load_balancer.cpp:37-40 | for any rules there is an engine with two workers in which a flow's packets do not all go to one |
| `EndToEnd.HelloCarries` | src/sni_extractor.cpp:48-113 | a frame to port 443 with any well-formed ClientHello whose first server_name leads with a host, and anything after it, carries that host |
| `EndToEnd.GeneratedCarries` | tests/generate_test_pcap.py:48-95 | the generator's Ethernet, IP and TCP headers and ClientHello to port 443, put together as it does, are such a frame and carry its name |
| `EndToEnd.GeneratedRequestCarries` | tests/generate_test_pcap.py:48-99 | and so do its TCP frames with an HTTP request to port 80 |
| `EndToEnd.GeneratedQueryCarries` | tests/generate_test_pcap.py:48-110 | and its UDP frames with a DNS query to port 53, as DNS |
| `EndToEnd.NameExactly` | src/fast_path.cpp:136-175 | every valid frame is kept, and the worker finds a name in it iff the frame carries it: of a ClientHello to port 443, else of a request to port 80, else of a query from or to port 53; the length guards decide nothing |
| `EndToEnd.BlockedNameEndToEnd` | src/rule_manager.cpp:26-174 | if a line of the rules file stops the name or application a frame carries, the frame is dropped on an unclassified entry, and so is every later packet of that entry until it is evicted |
| `EndToEnd.BlockedNameNeverWritten` | src/rule_manager.cpp:26-174 | then the packet with the first name of its flow is not in the file in any schedule, and a later packet of its tuple only if their entry was evicted in between; if fewer than 10000 packets hash to their worker, none is |
| `EndToEnd.BlockedDomainNeverWritten` | src/rule_manager.cpp:57-59 | the same from a block_domain line whose pattern covers the host |
| `EndToEnd.BlockedAppNeverWritten` | src/rule_manager.cpp:54-56 | the same from a block_app line for the application the host stands for |
| `EndToEnd.CaptureMayBeAbandoned` | src/main.cpp:268-278 | for every capture with a TCP or UDP packet, any rules and N, some complete run leaves a packet undecided; if the capture fits the raw queue, some run leaves all of it undecided |
| `EndToEnd.BlockedAddressNeverWritten` | src/rule_manager.cpp:51-53 | with a block_ip line, no frame with those source bytes reaches the output file, for any N, schedule and evictions |
| `EndToEnd.BlockedPortNeverWritten` | src/rule_manager.cpp:60-66 | with a block_port line, no frame with that destination port after its IP header reaches the output file, for any N, schedule and evictions |
| `EndToEnd.OutputReadsBack` | src/main.cpp:205-278 | for a native capture, under every schedule, the output file reads back as exactly the packets written, all from the capture |

## Left out

- Sockets, HTTP serving and the Prometheus text of `renderMetrics`; only the counters and the order of their accesses are modelled.
- The logger, the command line, the report, directory creation, containers and dashboards. The block log line is a counter without its text.
- Weak memory: relaxed atomics are modelled as sequentially consistent steps.
- Clocks and sleeps: times are inputs, and the 500 ms wait is a scheduling point of any length. In the pipeline, cleanup removes an arbitrary set of entries after each 10000th packet, which includes what a clock would choose.
- `FiveTupleHash` is an arbitrary function of the directed tuple; nothing is claimed about balance. `FlowAffinity.AnswerHash` and `FlowAffinity.ReplyHash` evaluate it on two tuples with a 64-bit `size_t` and `std::hash` of an integer being the integer.
- `sniToAppType` is an arbitrary function from names to applications; nothing is claimed about brands.
- File streams are byte sequences on a little-endian host. A file that cannot be opened, `orig_len` on reading and write failures are not modelled.
- Zero workers and zero-capacity queues, and the wrap-around of 32- and 64-bit counters and packet ids: counters are unbounded.
- The reader's TCP and UDP counts, the balancer's dispatch count and the queue and flow gauges, which only repeat the argument for the counters that are modelled. Inside the interleaved pipeline `total_bytes` is left out too; `FastPath.FastPathWorker.ProcessPacket` has it.
- The shared locks of the rule manager: rules do not change while the engine runs.
- MAC addresses, TCP flag strings, `FiveTuple::toString`, `readUint24BE` (not used by the extractor) and the fields of `Connection` nothing reads.
- PipelineTheorems.ScheduleIndependence: relates a worker's table and decisions to the sequential fold only while cleanup has removed nothing from that table, as the fold has no cleanups; `EngineHistory.WorkerReplays` relates them to a run with cleanups in every schedule, and order and the prefix properties are stated for every run.
- Rules.ParseIPString: is stated for at most four numbers that each fit an int; beyond that the source overflows a signed int or shifts by a negative amount, which C++ leaves undefined. `Rules.RuleManager.LoadRules` asks the same of its block_ip lines.
- Metrics.LatencyHistogram.RecordLatencyMs: takes the latency as a non-negative real rather than a double.
- FastPath.ConnectionTracker.GetOrCreate: returns the key of the entry in place of a C++ reference; the worker writes the entry back under that key.
- FrameGrammar.GeneratedTcpBytes: takes the generator's random identification field as an argument; `TlsRoundTrip.GeneratedBytes` and `Dns.DnsQuery` do the same with theirs.
- `std::stoul` is that of a platform with 64-bit `unsigned long`.
