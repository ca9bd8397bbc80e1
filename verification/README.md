# A verified model of AutoLoop's hard core

AutoLoop is an agent runtime. Its trusted part, NoumenonCore, executes plans under gates, quotas
and budgets, writes a hash-chained evidence log, and can later rebuild an execution's fingerprint
from that log alone. Around it lie an agent message bus, graph algorithms over relations and
dependencies, an advantage estimator for adaptation tasks, a retry controller, and the arithmetic
that keeps requests within a token budget. This project models these parts in Dafny and proves what
they promise for all inputs, all runs and all interleavings. `dafny verify dfyconfig.toml` checks it.

## Main results

* **Concurrent execution.** `Kernel` splits `execute` into steps that each do at most one operation
  on shared state; a schedule of steps is any interleaving of any number of executions, with
  arbitrary answers from authorities, capabilities, validators and the clock. In every interleaving
  every execution is safe (`KernelSafety.ExecutionsAreSafe`), the resource pool and the budget
  accounts are exact balances if and only if no sum added to them overflows (`KernelAccounting`), and
  every returned record replays from the ledger (`KernelReplay.ReturnedRecordsReplay`). Ledger,
  accounts and pool may have been used before. `NoumenonCore.Core.Execute` is the sequential code;
  it is proved to do what its process does alone, and `Sessions` carries the results over to any
  sequence of calls. `FileKernel` puts the file ledgers underneath: in every interleaving the
  executions go the same way, and their records still replay after the logs have been reopened.
* **Verdicts.** In every interleaving each refusal names the first gate that was not passed, and a
  returned execution is completed exactly when its plan ran and the validator, where it was asked
  for, and the learning gate let its outputs through (`KernelVerdicts.CompletedIffVerified`). The
  hardening gate lets a step through exactly when it runs on the trusted island or carries every
  safeguard, each said about the fields and constraints of the step (`Hardening.AcceptedIff`).
* **Records and fingerprints.** What an execution writes down is said about its request and the
  outputs of its plan (`KernelRecords.ReturnedRecordTells`). End to end, without a collision and with
  no bar in the request, two returned records share a fingerprint exactly when supply chains,
  closures up to path order, and output digests agree (`Fingerprints.ExecutionsShareFingerprintIff`).
* **Replay** rests on a fact about the chain: the previous hash is the text behind the last colon of
  what is hashed, so equal record hashes would make the hashes before them equal, down to "genesis".
  Neither distinct step ids nor an injective digest is needed, only that the record texts of the one
  execution do not collide. An id may be used again by a request that was rejected or whose plan
  failed; what counts is that no other execution has left evidence under it. That condition is exact
  for the walk along the chain (`ReplayReuse.WalkCompletesIffOnlyOne`), and where it fails
  `ReplayReuse.ReplaysIff` says exactly when the record is still confirmed: never once another
  execution under its id has recorded some output (`ReplayReuse.ReusedIdBreaksReplay`).
* **Plans** run by falling priority and in plan order within a priority; the outputs are the answers,
  one for each step (`Scheduler.PlanRunsByPriority`, `Scheduler.OutputsAreAnswers`).
* **The message bus** delivers a message at most 2^m times under any interleaving, where m is its
  retry limit; the bound is reached for every m; and it is m + 1 when a message is retried only while
  no copy of it is under way. The potential function is exact from every state. Messages leave the
  channel in the order in which they entered it, and none is forged (`BusOrder`).
* **Cycle detection** reports real, simple cycles only, and the arcs that close them cut *every*
  cycle of the graph, so that an empty report means an acyclic graph and conversely. The search is
  also given as a function of the graph and of the order of its keys (`CycleTrace`). It records some
  cycle twice, for some order of the keys, exactly when an edge on a cycle is listed twice. Edges are
  followed in the order in which they are listed (`CycleOrder`), which decides what is reported where
  several cycles share the edge that closes them.
* **The file ledgers** cannot be told from the in-memory ones by any sequence of operations, through
  UTF-8, Base16 and the line format, for arbitrary field contents, if and only if the log ends in a
  line break, as every log written by a ledger does. Over any sequence of operations whose
  reservations fit 64 bits, what was reserved is still reserved, consumed, or given back
  (`BudgetBalance.AccountBalances`).
* **Advantages** are the expected power sums. The clamp on the weights is redundant for every gap
  and every generator of a given horizon exactly when that horizon is at most eight; the code's own
  generator has a horizon of four. The path the code makes up pays the shortfall for each place, and
  half of one on top (`StrategyBuffer.PathPays`).
* **Compaction** brings every request that names no delivery path within its budget exactly when the
  effective budget is at least 1262 tokens. It keeps the two ends of the request and nothing else of
  it (`Compaction.CompactKeepsEnds`).

## Where the code does not do what one would expect

* The resource governor adds without an overflow check. All along a run the pool is the exact sum of
  what is held, within its limits, if and only if no granted reservation overflows 32 bits
  (`KernelAccounting.PoolIsExact`); `Resource.OverflowIsGranted` is a grant that does.
* A plan reserves one unit per step but consumes two for each `llm.route` step, so an execution
  alone on a fresh account passes consumption exactly when it routes no step
  (`KernelAccounting.LoneExecutionConsumesIffUnrouted`), and on any account exactly when the routed
  steps were already reserved for (`KernelAccounting.LoneExecutionConsumesIffCovered`). With every
  gate open such an execution does get there, and fails there exactly when it routes a step
  (`KernelProgress.RoutedExecutionsFail`); `KernelProgress.RoutedRequestFails` is one that does.
* Ceilings are measured against what the request asked for, but the reservation has floors of 64 MB
  and one second. A step within the reservation can be refused, for a given request, exactly when it
  asked for less than one of them (`Resource.ReservationIsGrantedIff`).
* `is_terminal` counts Failed as terminal although Failed moves on to RolledBack
  (`StateMachine.OnlyFailedMovesOn`).
* The fingerprint joins its parts by '|' without escaping. The joined text stands for one material
  and one output digest exactly when no part contains a '|' and there is at most one store path
  (`Payloads.UnmistakableIffPlain`); an empty path list is never told from one empty path.
* A cycle can be reported twice. The records are sorted by length only, so that equal ones need not be
  adjacent, and only adjacent repeats are dropped: `CycleTrace.RepeatSurvives` gives the inputs. Where
  no edge on a cycle is listed twice there is no repeat (`RelationCycles.DetectRelationCycles`).
* Lengths are cut to 32 bits before tokens are estimated. At every length from 2^32 characters on,
  and at no smaller one, the word estimate can exceed the character estimate
  (`Compaction.WordEstimateNeverDecidesIff`).

## Layout

| files | subject |
|---|---|
| `RelationGraph`, `CycleTrace`, `RelationCycles`, `CycleOrder`, `Dependents` | graph algorithms of `src/main.rs` |
| `MessageBus`, `BusWorstCase`, `BusDiscipline`, `BusConservation`, `BusOrder` | `src/bus/mod.rs` |
| `Codec`, `EvidenceLedger`, `BudgetLedger`, `BudgetBalance` | `NoumenonCore/src/ledger.rs` |
| `HashChain`, `Replay`, `Payloads`, `ReplayReuse` | `NoumenonCore/src/replay.rs` |
| `Ir`, `StateMachine`, `Resource`, `Hardening`, `Scheduler` | state machine, governor and hardening, queue and executor |
| `Kernel`, `KernelSafety`, `KernelVerdicts`, `KernelAccounting`, `KernelReplay`, `KernelRecords`, `Fingerprints`, `KernelProgress`, `FileKernel`, `NoumenonCore`, `Sessions` | `NoumenonCore/src/kernel.rs` |
| `Advantage`, `StrategyBuffer` | `src/adaptive_framework.rs` |
| `Compaction`, `IterationController` | `src/lib.rs` |
| `Sequences`, `Sorting`, `Text`, `Spelling`, `Numbers` | shared vocabulary and the library operations the code uses |

## Model

| member | source | states |
|---|---|---|
| RelationGraph.BuildGraph | src/main.rs:2628-2637 | for each node, its targets are read off, one by one and in order, from the kept edges that leave it, all of them at strictly increasing places of the list; a node is a key exactly when a kept edge (both endpoints not blank) leaves it |
| RelationGraph.TargetsInEdgeOrder | src/main.rs:2628-2637 | the adjacency list of a node is the list of the targets of its kept edges, in the order in which the edges are listed |
| RelationCycles.CycleSearch.Report | src/main.rs:2656-2661 | the stack suffix from the node on is recorded, is a simple cycle, and is closed by the arc just followed |
| RelationCycles.CycleSearch.Dfs | src/main.rs:2644-2682 | terminates although the recursion follows arcs freely; keeps the grey/black invariants; afterwards the node is finished, or stands on the stack and the arc to it closes a recorded cycle; the new state is that of the functional search |
| RelationCycles.CycleSearch.Explore | src/main.rs:2664-2681 | a node met for the first time is entered, its arcs followed, and finished; the stack is back where it was |
| RelationCycles.CycleSearch.VisitTargets | src/main.rs:2665-2678 | after the loop every target is finished or its arc closes a recorded cycle |
| RelationCycles.CycleSearch.Finish | src/main.rs:2679-2681 | popping a node keeps the finishing order in which every arc leads backwards or closes a recorded cycle |
| RelationCycles.SearchAll | src/main.rs:2684-2694 | for any order of the keys: all records are simple cycles, every node with an arc is in the finishing order, and the records are those of the functional search in that order |
| RelationCycles.EveryCycleIsCut | src/main.rs:2625-2704 | each cycle of the graph, simple or not, uses an arc that closes a reported cycle |
| RelationCycles.DetectRelationCycles | src/main.rs:2625-2704 | on the edge list: every report is a simple cycle; removing the closing arcs leaves no cycle; the result is empty exactly when the graph is acyclic; sorted by length, no two adjacent reports equal; no report repeated where no edge on a cycle is listed twice; the cycle that is met by always following the edge listed first, from the first key visited, is reported; equal to the functional report for the order in which the keys were visited |
| CycleOrder.FirstEdgesFirst | src/main.rs:2644-2694 | from the first key visited, always along the edge listed first: the cycle that closes is the first one recorded, and it is reported |
| CycleOrder.FirstWayIsReported | src/main.rs:2628-2703 | for any four nodes and the edges a-b, b-d, d-a, a-c, c-d, with a visited first, the whole report is the cycle a, b, d |
| CycleOrder.EqualLengthsStayInOrder | src/main.rs:2696-2703 | cycles of one length are sorted into the order in which they were recorded |
| CycleTrace.RecordedAtMostAsListed | src/main.rs:2644-2694 | for every order of the keys, the cycles closed by an arc are recorded at most as often as the arc is listed |
| CycleTrace.RecordsAreCycles | src/main.rs:2644-2694 | for every order of the keys all records are cycles |
| CycleTrace.RecordsRepeatIff | src/main.rs:2644-2694 | the search records no cycle twice, whatever the order of the keys, if and only if no edge on a cycle is listed twice |
| CycleTrace.RepeatSurvives | src/main.rs:2696-2703 | for any two nodes u and x: with the edges u-u, u-x, u-u, x-x and u visited first, the cycle of u is reported twice |
| Dependents.ReverseDependents | src/main.rs:3201-3215 | sorted, without repeats, exactly the nodes that list the target as a dependency |
| Dependents.TransitiveDependents | src/main.rs:3217-3236 | sorted, without repeats, exactly the nodes with a dependency path of length at least one to the target; the target itself exactly when it lies anywhere on a dependency cycle; terminates although nodes are queued repeatedly |
| Dependents.ReachesItselfIffOnCycle | src/main.rs:3217-3236 | a node has a path to itself exactly when some dependency cycle passes through it, wherever that cycle is taken to start |
| MessageBus.PrintedIdsDiffer | src/bus/mod.rs:187-190 | printed message ids are equal exactly when the 64-bit counter values are |
| MessageBus.PrintedIdIsRead | src/bus/mod.rs:187-190 | an id is "msg-" and sixteen small hexadecimal digits, which are read as the counter value |
| MessageBus.RunValid | src/bus/mod.rs:129-190 | in every run each message anywhere carries an issued id, its own retry limit, and a retry count within it; no id is issued twice before the counter wraps |
| MessageBus.RunSpendsPotential | src/bus/mod.rs:149-185 | from any valid state and in every interleaving, deliveries of an id plus its remaining potential (2^(m-c) per copy, 2^(m-r)-1 in flight) never grow |
| MessageBus.DeliveryBound | src/bus/mod.rs:149-185 | in every interleaving a message with retry limit m is delivered at most 2^m times |
| BusWorstCase.WorstInterleaving | src/bus/mod.rs:149-185 | from every valid state some interleaving delivers an id exactly as often as its potential says |
| BusWorstCase.DeliveryBoundIsReached | src/bus/mod.rs:149-185 | for every m there is a run from the empty bus with exactly 2^m deliveries |
| BusDiscipline.DisciplinedDeliveryBound | src/bus/mod.rs:166-185 | a message retried only while no copy of it is under way is delivered at most m + 1 times, whatever else happens |
| BusConservation.NothingIsLost | src/bus/mod.rs:129-185 | every published id is under way, in flight, acknowledged, or dropped at its limit |
| BusConservation.DeliveredAgainIffPotential | src/bus/mod.rs:149-164 | an id can be delivered again exactly when its potential is positive; an ack that leaves no copy is final |
| BusConservation.AnswerIsFinal | src/bus/mod.rs:158-185 | an ack, or a retry at the limit, while no copy is under way is final |
| BusOrder.FirstInFirstOut | src/bus/mod.rs:144-150 | from any state and in every interleaving: what was in the channel and what entered it, in order, is what was taken out, in order, followed by what is still there |
| BusOrder.TakenInOrder | src/bus/mod.rs:144-150 | from the empty bus on, the n-th message taken out of the channel is the n-th that entered it |
| BusOrder.ReturnedInOrder | src/bus/mod.rs:149-156 | where no two consumers hold a message at once, the n-th message that consume returns is the n-th that entered the channel |
| BusOrder.ChannelIsBounded | src/bus/mod.rs:60-77 | the channel never holds more than 256 messages |
| BusOrder.RunForgesNothing | src/bus/mod.rs:129-190 | in every run, each message anywhere has the topic, session, content and retry limit with which its id was published, however often it was retried |
| MessageBus.Bus.PublishAgentMessage | src/bus/mod.rs:129-147 | issues the counter value as id, wrapping the counter, and hands over a message with retry count 0 |
| MessageBus.Bus.CompleteSend | src/bus/mod.rs:144-147 | a waiting message enters the channel exactly when there is room |
| MessageBus.Bus.TakeFromChannel | src/bus/mod.rs:149-150 | takes out the first message of the channel, the one that entered it before all others there, and leaves the rest in order; nothing where the channel is empty |
| MessageBus.Bus.ConsumeAgentMessage | src/bus/mod.rs:151-156 | enters the message as in flight, replacing an earlier entry, and returns it |
| MessageBus.Bus.AckAgentMessage | src/bus/mod.rs:158-164 | removes the entry; true exactly when there was one |
| MessageBus.Bus.RetryAgentMessage | src/bus/mod.rs:166-185 | below the limit the entry stays with its count raised and a copy is sent; at the limit the entry is dropped; true exactly in the first case |
| Codec.Utf8RoundTrip | NoumenonCore/src/ledger.rs:106-113 | every text is decoded from its UTF-8 bytes |
| Codec.Utf8IsCanonical | NoumenonCore/src/ledger.rs:110-113 | bytes that decode are the encoding of what they decode to: overlong forms and surrogates are refused |
| Codec.HexRoundTrip | NoumenonCore/src/ledger.rs:106-113 | bytes survive Base16 (section 8 of RFC 4648, lower case) |
| Codec.CapitalsAreRead | NoumenonCore/src/ledger.rs:110-113 | capital hexadecimal digits are read like small ones |
| Codec.AsciiIsItself | NoumenonCore/src/ledger.rs:106-108 | a text of code points below 128 is its own encoding |
| Codec.FieldRoundTrip | NoumenonCore/src/ledger.rs:106-113 | any text survives being written as a field and read back |
| Codec.EncodedIsFree | NoumenonCore/src/ledger.rs:106-108 | a written field contains no character but hexadecimal digits, hence no separator |
| EvidenceLedger.EvidenceRoundTrip | NoumenonCore/src/ledger.rs:115-146 | any record is read back from the line it was written as, and that line holds no line break |
| EvidenceLedger.EvidenceLine | NoumenonCore/src/ledger.rs:115-128 | a line holds the eight texts of the record in Base16 and its time in decimal, in this order |
| EvidenceLedger.MalformedLineIsSkipped | NoumenonCore/src/ledger.rs:89-103 | a line that is not a record changes nothing, wherever in the log it stands |
| EvidenceLedger.SelectInOrder | NoumenonCore/src/ledger.rs:42-52 | what is selected is every record of the execution, at strictly increasing places of the ledger |
| EvidenceLedger.AppendExtendsLog | NoumenonCore/src/ledger.rs:78-103 | appending adds exactly the record to what the log decodes to if and only if the log ends in a line break |
| EvidenceLedger.LedgersAgree | NoumenonCore/src/ledger.rs:32-104 | from matching states no sequence of appends and queries tells the file ledger from the in-memory one |
| EvidenceLedger.LedgersAgreeIffTerminated | NoumenonCore/src/ledger.rs:32-104 | the two ledgers agree on every sequence of operations exactly when the log ends in a line break |
| EvidenceLedger.UnterminatedRecordIsLost | NoumenonCore/src/ledger.rs:78-103 | behind an unterminated log a record under an id not yet used is not found |
| EvidenceLedger.FreshLedgersAgree | NoumenonCore/src/ledger.rs:62-104 | in particular from a new file |
| EvidenceLedger.SelectRecords | NoumenonCore/src/ledger.rs:42-52 | the loop returns every record of the execution and no other, in ledger order |
| EvidenceLedger.InMemoryLedger.Append | NoumenonCore/src/ledger.rs:33-40 | the record is added at the end and nothing else changes |
| EvidenceLedger.InMemoryLedger.ByExecution | NoumenonCore/src/ledger.rs:42-52 | every record of the execution and no other, in ledger order |
| EvidenceLedger.FileLedger.Append | NoumenonCore/src/ledger.rs:78-87 | the decoded contents grow by exactly the record if and only if the log was terminated; it is terminated afterwards |
| EvidenceLedger.FileLedger.ByExecution | NoumenonCore/src/ledger.rs:89-103 | the decodable records of the execution, in order |
| BudgetLedger.EventRoundTrip | NoumenonCore/src/ledger.rs:243-285 | an event line is read back as the event, for any account and tenant text |
| BudgetBalance.EventLine | NoumenonCore/src/ledger.rs:243-260 | a line holds the kind, the account and the tenant in Base16, and the units in decimal |
| BudgetBalance.MalformedLineIsSkipped | NoumenonCore/src/ledger.rs:262-303 | a line that is not an event changes nothing, wherever in the log it stands |
| BudgetBalance.UnknownKindOpensAccount | NoumenonCore/src/ledger.rs:286-303 | a line of an unknown kind opens its account and moves no units |
| BudgetBalance.LogFoldsToAccounts | NoumenonCore/src/ledger.rs:226-346 | after any sequence of operations the log folds to the accounts that the same operations leave in memory |
| BudgetBalance.AccountBalances | NoumenonCore/src/ledger.rs:168-212 | over any sequence of operations whose reservations fit 64 bits: what was there and what was reserved is what is reserved now, what was consumed, and what was given back |
| BudgetBalance.RepliesTell | NoumenonCore/src/ledger.rs:186-219 | after any sequence of operations consumption and refund fail on an account that was never opened, and consumption exactly when less is left than it asks for |
| BudgetBalance.TenantIsFirst | NoumenonCore/src/ledger.rs:169-184 | an account keeps the tenant of the reservation that opened it |
| BudgetLedger.StepsAgree | NoumenonCore/src/ledger.rs:168-346 | on a terminated log every operation gives the reply of the in-memory ledger, and the new log folds to its new accounts |
| BudgetLedger.LedgersAgree | NoumenonCore/src/ledger.rs:168-346 | no sequence of reserve, consume, refund and snapshot tells the two ledgers apart, errors included |
| BudgetLedger.LedgersAgreeIffTerminated | NoumenonCore/src/ledger.rs:168-346 | the two ledgers agree on every sequence of operations exactly when the log ends in a line break |
| BudgetLedger.UnterminatedReservationIsLost | NoumenonCore/src/ledger.rs:243-303 | behind any unterminated log a reservation on an account not yet open reserves nothing |
| BudgetLedger.InMemoryLedger.Reserve | NoumenonCore/src/ledger.rs:169-184 | opens the account if needed and adds the units, saturating at 64 bits |
| BudgetLedger.InMemoryLedger.Consume | NoumenonCore/src/ledger.rs:186-200 | moves the units from reserved to consumed, or reports a missing account or too small a reservation and changes nothing |
| BudgetLedger.InMemoryLedger.Refund | NoumenonCore/src/ledger.rs:202-212 | takes the units off the reservation, not below zero, or reports a missing account |
| BudgetLedger.InMemoryLedger.Snapshot | NoumenonCore/src/ledger.rs:214-219 | the account, if it exists |
| BudgetLedger.FileLedger.LoadAccounts | NoumenonCore/src/ledger.rs:262-303 | the loop folds the lines, skipping malformed ones, into the accounts |
| BudgetLedger.FileLedger.Reserve | NoumenonCore/src/ledger.rs:307-313 | on a terminated log, the effect of the in-memory ledger on the folded accounts |
| BudgetLedger.FileLedger.Consume | NoumenonCore/src/ledger.rs:315-328 | likewise, with the same reply |
| BudgetLedger.FileLedger.Refund | NoumenonCore/src/ledger.rs:330-340 | likewise, with the same reply |
| BudgetLedger.FileLedger.Snapshot | NoumenonCore/src/ledger.rs:342-345 | the account the log folds to, if there is one |
| HashChain.ChainIsWalkedInOrder | NoumenonCore/src/replay.rs:141-178 | for any arrangement of a chain whose hashes identify its entries, the walk goes through the chain in order |
| HashChain.WalkCompletesIffChain | NoumenonCore/src/replay.rs:141-178 | the walk meets as many entries as there are exactly when the entries can be arranged into one chain |
| HashChain.CompletedWalkMeetsAll | NoumenonCore/src/replay.rs:141-178 | a completed walk meets every entry exactly once |
| HashChain.ChainHashesDiffer | NoumenonCore/src/kernel.rs:177-243 | if equal hashes always come from equal predecessors, all hashes of a chain from a fixed start differ |
| HashChain.IndexHoldsLatest | NoumenonCore/src/replay.rs:145-148 | of several entries that name the same predecessor the index holds the last |
| Replay.OutputChainDigestFromEvidence | NoumenonCore/src/replay.rs:141-178 | the loop takes at most as many steps as there are events and yields the digest of the outputs in chain order, or by time when the walk does not complete |
| Replay.ChainIsReplayedInOrder | NoumenonCore/src/replay.rs:141-178 | whatever order the ledger returns a chain in, it is replayed in chain order |
| Replay.WalkCompletesIffEvidenceChain | NoumenonCore/src/replay.rs:141-178 | with hashes that identify the events, the fallback is taken exactly when they do not form one chain from "genesis"; a completed walk visits each event once |
| Replay.FallbackIsByTime | NoumenonCore/src/replay.rs:164-178 | where the walk does not complete all events are taken, in order of time, then of record id, then of the ledger |
| Replay.PrevHashIsSuffix | NoumenonCore/src/kernel.rs:213-216 | the previous hash can be read back as the text behind the last colon of the hashed text |
| Replay.ChainIsKnownByHash | NoumenonCore/src/kernel.rs:177-243 | a chain hashed without collision has distinct record hashes, none of them "genesis", whatever the records contain |
| Replay.MaterialIgnoresPathOrder | NoumenonCore/src/replay.rs:84-105 | permuting the store paths never changes the fingerprint material (what the material carries otherwise: `KernelRecords.ReturnedRecordTells`) |
| Replay.FingerprintDiscriminates | NoumenonCore/src/replay.rs:107-128 | with no bar in any part and no collision of the two payloads, fingerprints are equal exactly when material (not telling an empty path list from one empty path) and output digest are |
| Fingerprints.FingerprintPieces | NoumenonCore/src/replay.rs:107-128 | taken apart at the bars, the hashed text is the list of the closure, supply-chain and output digests of the request in their order, each store path a piece of its own: eleven pieces where there is at most one path |
| Fingerprints.RecordsShareFingerprintIff | NoumenonCore/src/replay.rs:84-128 | without collision and without bars, two records share a fingerprint exactly when supply chains, closures up to path order (not telling no path from one empty path), and output digests are the same |
| Fingerprints.ExecutionsShareFingerprintIff | NoumenonCore/src/kernel.rs:248-280 | without collision and without bars, any two records returned by any two executions, of one kernel or of two, in any interleavings, share a fingerprint exactly when the requests agree in supply chain and closure, up to path order, and the outputs have the same digests |
| Payloads.MoveSeparator | NoumenonCore/src/replay.rs:107-128 | a separator inside any part of a joined text can be moved to a neighbouring part without changing the text |
| Payloads.ElevenPieces | NoumenonCore/src/replay.rs:107-128 | taken apart at the bars, a payload has at least ten pieces and one more for each store path, and eleven exactly when no part contains a bar and there is at most one path |
| Payloads.UnmistakableIffPlain | NoumenonCore/src/replay.rs:107-128 | a payload comes from one material (not telling an empty path list from one empty path) and one output digest only, if and only if no part contains a bar and there is at most one store path |
| ReplayReuse.SharedPredecessorBreaksWalk | NoumenonCore/src/replay.rs:145-162 | where two events name the same predecessor the walk never completes, because the later one overwrites the other in the index |
| ReplayReuse.RunHoldsAll | NoumenonCore/src/kernel.rs:177-243 | in every interleaving the ledger holds, under an id shared by any number of executions, what they appended: every record comes from one of them, one chain start for each that has begun, and the outputs of all |
| ReplayReuse.SharedIdBreaksWalk | NoumenonCore/src/replay.rs:145-162 | two executions under one id that have both begun their chains break the walk, however their records are mixed |
| ReplayReuse.WalkCompletesIffOnlyOne | NoumenonCore/src/replay.rs:145-162 | in every interleaving: the walk along the evidence under the id of an execution that has begun its chain completes exactly when no other execution has left evidence under that id |
| ReplayReuse.ReplaysIff | NoumenonCore/src/kernel.rs:308-325 | in every interleaving: a record returned for a plan that ran is confirmed exactly when no other execution has left evidence under its id, or the outputs under that id, put in order of time, are its own |
| ReplayReuse.ReusedIdBreaksReplay | NoumenonCore/src/kernel.rs:308-325 | in particular it is not confirmed once another execution under its id has recorded some output |
| Scheduler.SyscallQueue.Dequeue | NoumenonCore/src/syscall.rs:51-66 | takes out the first of the best requests (highest priority, then oldest), leaving the others in order |
| Scheduler.BestIsScheduledFirst | NoumenonCore/src/syscall.rs:51-66 | taking the best request and scheduling the rest is scheduling the whole queue |
| Scheduler.Drain | NoumenonCore/src/syscall.rs:110-125 | the result is that of running the requests in sorted order up to the first error; the sorted queue splits into executed, the one failed, and those still queued |
| Scheduler.RunPlan | NoumenonCore/src/execution.rs:87-131 | a step without a capability fails the plan before any call; otherwise the steps run in plan order sorted by priority |
| Scheduler.PlanOrderIsStableSort | NoumenonCore/src/execution.rs:87-131 | that order contains each step's request exactly once, by falling priority and then by place in the plan |
| Scheduler.PriorityIsGiven | NoumenonCore/src/execution.rs:100-104 | a step has the priority it gives in decimal where that fits a byte, and 1 otherwise |
| Scheduler.PlanRunsByPriority | NoumenonCore/src/execution.rs:87-131 | every step is asked for once, with its own capability and input, by falling priority and in plan order within a priority |
| Scheduler.OutputsAreAnswers | NoumenonCore/src/execution.rs:113-130 | the outputs are the answers to the requests in the order in which they run, each asked of the first step with its id |
| Scheduler.OutputsFollowOrder | NoumenonCore/src/execution.rs:87-131 | a run without errors has one output per request, in order, each the answer to its own call at the price of its capability |
| Scheduler.RunsIffEveryCallSucceeds | NoumenonCore/src/syscall.rs:110-125 | the run succeeds exactly when every call does |
| Scheduler.AnsweredPlansRun | NoumenonCore/src/execution.rs:87-131 | a plan with a capability in every step runs if every call answers |
| Scheduler.PlanRunsIff | NoumenonCore/src/execution.rs:87-131 | a plan runs exactly when every step has a capability and every request is answered |
| Scheduler.PlanCost | NoumenonCore/src/execution.rs:51-56 | a plan that ran costs one unit per step and one more per `llm.route` step |
| Scheduler.PlanOutputsAreSteps | NoumenonCore/src/kernel.rs:203-209 | every output belongs to a step of the plan, so the lookup while recording never fails |
| Ir.FindStepIsFirst | NoumenonCore/src/kernel.rs:203-209 | the step looked up for an output is the first with its id |
| StateMachine.Machine.Transit | NoumenonCore/src/state.rs:32-45 | succeeds exactly for a legal transition, and otherwise leaves the state |
| StateMachine.RunIsBounded | NoumenonCore/src/state.rs:47-69 | every legal run visits at most eight states |
| StateMachine.RunsAreTheseSix | NoumenonCore/src/state.rs:47-69 | the legal runs are exactly the beginnings of six: the mandatory path, two that end in rejection, three that fail and are rolled back |
| StateMachine.CompletedMeansMandatoryPath | NoumenonCore/src/state.rs:47-69 | a run that completes has visited exactly the seven mandatory states, in order |
| StateMachine.OnlyFailedMovesOn | NoumenonCore/src/state.rs:47-79 | of the terminal states exactly Failed has a successor; every other state that is not terminal has one |
| Resource.Governor.Reserve | NoumenonCore/src/resource.rs:57-71 | grants when the wrapped 32-bit sums are within the limits, and then takes both amounts, else nothing |
| Resource.Governor.Release | NoumenonCore/src/resource.rs:73-78 | gives both amounts back, not below zero |
| Resource.ReserveKeepsBalance | NoumenonCore/src/resource.rs:57-71 | a granted reservation keeps used equal to the outstanding sum, within the limits, exactly when neither sum overflows 32 bits |
| Resource.OverflowIsGranted | NoumenonCore/src/resource.rs:62-69 | a pool of ten units with one in use grants a request for 2^32 - 1 more |
| Resource.PoolStaysBalanced | NoumenonCore/src/resource.rs:56-97 | over any sequence of reservations and drops in any order, used is at all times the sum outstanding, within the limits, if and only if no granted reservation overflows 32 bits |
| Hardening.IslandIff | NoumenonCore/src/resource.rs:99-136 | the island of a step is that of its label, else the declared one, else, where that is the trusted one, what the name of its capability mentions |
| Hardening.AcceptedIff | NoumenonCore/src/resource.rs:358-483 | a step is let through exactly when it runs on the trusted island or carries every safeguard: a profile other than "none", a syscall constraint, a seccomp profile, each of the four isolations, a named backend that is available and allowed for the island, and positive ceilings within what was asked for |
| Hardening.AcceptedStepFitsReservation | NoumenonCore/src/resource.rs:358-483 | a risky step that is let through carries all of these, and its ceilings lie within the reservation taken for its request |
| Resource.ReservationIsGrantedIff | NoumenonCore/src/resource.rs:454-473 | for given constraints, all positive ceilings within the reservation are accepted if and only if the constraints reach both floors of the reservation, 64 MB and 1000 ms |
| Kernel.OutputChainDigestFromStepRecords | NoumenonCore/src/replay.rs:130-139 | the loop digests the output digests of the step records, in order; `KernelReplay` shows the evidence yields the same |
| KernelSafety.StepSound | NoumenonCore/src/kernel.rs:79-306 | every step of `execute` keeps the state that belongs to its place in the code, the gates passed so far, and a legal trace |
| KernelSafety.RunSound | NoumenonCore/src/kernel.rs:79-306 | hence every execution in every interleaving |
| KernelSafety.RejectedLeavesNoTrace | NoumenonCore/src/kernel.rs:82-158 | a rejected execution ran no capability, appended no evidence and consumed no budget |
| KernelSafety.ExecutionsAreSafe | NoumenonCore/src/kernel.rs:79-306 | in every interleaving and for all answers: every transition is legal; capabilities run only in Executing, evidence and consumption happen only in RecordingEvidence; Completed is reached by the mandatory path only; a returned record means all gates were passed for every step and the state is Completed or RolledBack; the errors for an illegal transition and for a step not found never occur |
| KernelVerdicts.OutcomesAreExplained | NoumenonCore/src/kernel.rs:79-306 | in every interleaving: an error names the first gate that was not passed, or what failed behind them; a record says whether the plan ran and whether its outputs were let through |
| KernelVerdicts.CompletedIffVerified | NoumenonCore/src/kernel.rs:282-305 | a returned execution is completed exactly when its plan ran, the validator, where asked for, found its output valid, and learning was allowed; its record says so, and carries an explanation exactly when its plan ran and it was rolled back |
| KernelVerdicts.GatesGuardSteps | NoumenonCore/src/kernel.rs:124-136 | behind the gates every step has the consent of its tenant, and is trusted or carries every safeguard |
| KernelVerdicts.HardTrustIff | NoumenonCore/src/kernel.rs:107-117 | the trust level is hard however it is capitalised |
| KernelRecords.ReturnedRecordTells | NoumenonCore/src/kernel.rs:177-280 | in every interleaving, a record returned for a plan that ran has one step record for each output; the evidence is the context and one event per output, each naming the hash before it and the time it was read; the material is that of the request, store paths sorted; the fingerprint is the digest of the eleven parts in their order |
| KernelAccounting.PoolIsExact | NoumenonCore/src/kernel.rs:138-146 | in every interleaving, used is at all times what was used at the start and the sum of what running executions hold, within the limits, if and only if no reservation granted along the way overflows 32 bits |
| KernelAccounting.SmallRequestsFit | NoumenonCore/src/resource.rs:57-71 | requests that fit 32 bits on top of a full pool never overflow, whatever the interleaving |
| KernelAccounting.PoolIsFreedAtTheEnd | NoumenonCore/src/resource.rs:93-97 | if no grant overflowed, then however they ended, when all executions have returned the pool is what it was at the start |
| KernelAccounting.AdmittedStepsFitReservation | NoumenonCore/src/kernel.rs:124-146 | an execution behind the gates holds its reservation, and each of its risky steps carries every safeguard and has ceilings within that reservation |
| KernelAccounting.BudgetIsExact | NoumenonCore/src/kernel.rs:148-158 | in every interleaving and from any starting balance: consumed has at all times grown by the sum of n + k over the executions that consumed, and reserved by the sum of n over those that reserved less that (n steps, k routed), if and only if no sum added to the account along the way exceeds 64 bits |
| KernelAccounting.SmallPlansFit | NoumenonCore/src/ledger.rs:169-200 | where the starting balance and all plans charged to the account together fit 64 bits, no such sum is ever cut off |
| KernelAccounting.ConsumeSucceedsIffCovered | NoumenonCore/src/kernel.rs:245-246 | as long as no sum was cut off: consumption succeeds exactly when the starting reservation and what was reserved since, less what was consumed, cover the plan's n + k units |
| KernelAccounting.UnroutedConsumptionNeverFails | NoumenonCore/src/kernel.rs:245-246 | as long as no sum was cut off: on an account whose executions route no step, no consumption ever fails, in any interleaving |
| KernelAccounting.LoneExecutionConsumesIffCovered | NoumenonCore/src/kernel.rs:245-246 | alone on its account an execution passes consumption exactly when the starting reservation covers its routed steps |
| KernelAccounting.LoneExecutionConsumesIffUnrouted | NoumenonCore/src/kernel.rs:245-246 | alone on a fresh account exactly when it routes no step |
| KernelReplay.StepKeepsChain | NoumenonCore/src/kernel.rs:177-243 | every step keeps the evidence of its execution a hash chain from "genesis" whose outputs are those of the step records |
| KernelReplay.StepOnLedger | NoumenonCore/src/kernel.rs:177-243 | a step leaves the ledger alone or adds one record of its own execution |
| KernelReplay.RunKeepsOwn | NoumenonCore/src/kernel.rs:177-243 | in every interleaving the ledger holds under the id of an execution exactly what it appended, in order, as long as no other execution has left evidence under that id |
| KernelReplay.EndedWithoutEvidence | NoumenonCore/src/kernel.rs:79-306 | in every interleaving an execution that has returned left no evidence exactly when it was rejected or its plan failed |
| KernelReplay.IdsUsedOnceRecordOnce | NoumenonCore/src/kernel.rs:177-243 | where all ids differ, no other execution ever leaves evidence under the id of any |
| KernelReplay.ReturnedRecordsReplay | NoumenonCore/src/kernel.rs:308-325 | in every interleaving, at any time after a record was returned under an id that no other execution has left evidence under, replay confirms its fingerprint, or finds no evidence exactly when the plan had failed |
| KernelProgress.ReachesConsumption | NoumenonCore/src/kernel.rs:79-246 | scheduled on its own, an execution with every gate open, its resources granted and a plan that runs reaches the consumption of its budget |
| KernelProgress.RoutedExecutionsFail | NoumenonCore/src/kernel.rs:245-246 | such an execution on a fresh account ends in the error of a failed consumption exactly when its plan routes a step |
| KernelProgress.RoutedRequestFails | NoumenonCore/src/kernel.rs:245-246 | a plan of one `llm.route` step that passes every gate and ends so |
| FileKernel.StepRefines | NoumenonCore/src/kernel.rs:79-306 | every step over file ledgers whose logs end in a line break is, on what the logs are read as, the step over in-memory ledgers, and leaves logs that end in a line break |
| FileKernel.RunRefines | NoumenonCore/src/kernel.rs:79-306 | hence in every interleaving all executions come to the same phases and outcomes over either kind of ledger |
| FileKernel.CheckReplayFromFile | NoumenonCore/src/kernel.rs:308-325 | the reply is that of replay on the records the evidence log is read as |
| FileKernel.ReplaysAfterReopening | NoumenonCore/src/ledger.rs:62-104 | a record returned over file ledgers replays from the logs after they were reopened and used by any other executions in any interleaving, or its plan had failed, as long as no other execution left evidence under its id |
| NoumenonCore.StepAdvances | NoumenonCore/src/kernel.rs:79-306 | every step brings an execution closer to its end, so each terminates |
| NoumenonCore.AloneIsASchedule | NoumenonCore/src/kernel.rs:79-306 | running one execution to its end is one of the interleavings |
| NoumenonCore.Core.AdmitRequest | NoumenonCore/src/kernel.rs:82-104 | operation mode, identity, supply chain and rollout are asked in this order; the first refusal is returned |
| NoumenonCore.Core.GateSteps | NoumenonCore/src/kernel.rs:124-136 | tenant authority and hardening, step by step, up to the first refusal |
| NoumenonCore.Core.PassGates | NoumenonCore/src/kernel.rs:82-136 | all gates in order; touches neither ledger nor pool |
| NoumenonCore.Core.RecordEvidence | NoumenonCore/src/kernel.rs:177-243 | appends the context record and one record per output, as the steps of the process do |
| NoumenonCore.Core.Conclude | NoumenonCore/src/kernel.rs:245-306 | consumes the cost, builds the record with its fingerprint, then verifies |
| NoumenonCore.Core.Verify | NoumenonCore/src/kernel.rs:282-305 | completes and returns the record exactly when the validator, where asked for, and the learning gate let the outputs through; otherwise the record is returned as rolled back, with the explanation, if recovery succeeds, and an error if not |
| NoumenonCore.Core.RollBack | NoumenonCore/src/kernel.rs:164-171 | recovers first; only then is the execution rolled back and its record returned; otherwise an error, and it stays failed |
| NoumenonCore.Core.ExecuteAdmitted | NoumenonCore/src/kernel.rs:138-306 | takes the resources and gives them back on every way out |
| NoumenonCore.Core.Execute | NoumenonCore/src/kernel.rs:79-306 | ledgers, accounts, pool and outcome afterwards are those of its process running alone; the outcome is explained by the answers it got, and a record of a plan that ran tells of the request and of the outputs |
| NoumenonCore.Core.CheckReplay | NoumenonCore/src/kernel.rs:308-325 | rebuilds the fingerprint from the ledger's records for the id and compares it with the record |
| Sessions.RunJobs | NoumenonCore/src/kernel.rs:79-306 | calling `execute` for one job after another leaves the state, and returns the outcomes, of the processes run one by one to their ends |
| Sessions.SessionIsASchedule | NoumenonCore/src/kernel.rs:79-306 | such a sequence of calls is one of the interleavings |
| Sessions.SessionReplays | NoumenonCore/src/kernel.rs:308-325 | at the end of any sequence of calls, a record returned under an id that no other call left evidence under replays, or its plan had failed |
| Sessions.RetriesRecordOnce | NoumenonCore/src/kernel.rs:79-306 | no other call left evidence under the id of a call exactly when all others under it were rejected or had plans that failed, so a request may be retried under its id |
| Sessions.SessionReplaysIff | NoumenonCore/src/kernel.rs:308-325 | what a call returned for a plan that ran replays exactly when all others under its id were rejected or had plans that failed, or the outputs under the id, put in order of time, are its own |
| Sessions.SessionReuseBreaksReplay | NoumenonCore/src/kernel.rs:308-325 | after two calls under one id, what either of them returned for a plan that ran no longer replays, if the other recorded some output |
| Sessions.SessionIsSafe | NoumenonCore/src/kernel.rs:79-306 | every execution of a sequence of calls is safe, whatever state the kernel was in |
| Sessions.SessionIsExplained | NoumenonCore/src/kernel.rs:79-306 | each call of a session is completed exactly when its plan ran and its outputs were verified, and refused by the first gate it did not pass |
| Sessions.SessionFreesPool | NoumenonCore/src/resource.rs:93-97 | a sequence of calls whose reservations do not overflow the pool as it was leaves it as it was |
| Advantage.DiscountCumsum | src/adaptive_framework.rs:508-516 | each entry is the discounted sum of the values from its place on |
| Advantage.DiscountedSumIsPowerSum | src/adaptive_framework.rs:508-516 | the backward recursion is the power series in the discount |
| Advantage.DeltaAt | src/adaptive_framework.rs:205-207 | each one-step error uses the next value, and the final value behind the last |
| Advantage.AdvantageIsPowerSum | src/adaptive_framework.rs:193-212 | each entry of a finished path is the sum of (gamma lam)^(k - t) times the error at k, from its place t on |
| Advantage.AdvantageTelescopes | src/adaptive_framework.rs:193-212 | with lam = 1 the advantage is the discounted reward from t on, final value included, less the value at t |
| Advantage.DeviationBound | src/adaptive_framework.rs:518-527 | no value's squared distance from the mean exceeds (n - 1) times the variance |
| Advantage.NormalizedBound | src/adaptive_framework.rs:214-228 | every squared normalised advantage is at most n - 1 |
| Advantage.NormalizedCancel | src/adaptive_framework.rs:214-228 | normalised advantages sum to zero, also when the deviation is replaced by its floor |
| Advantage.UnitVarianceIff | src/adaptive_framework.rs:214-228 | normalised advantages have unit variance exactly where the variance is at least the square of the floor |
| Advantage.WeightIsNearest | src/adaptive_framework.rs:148-148 | the weight is the one within the bounds whose sixfold, less three, is nearest to the advantage |
| Advantage.ClampIsIdle | src/adaptive_framework.rs:148-148 | up to a horizon of eight the weight lies strictly inside [0.05, 1.0] before it is clamped |
| Advantage.OutlierIsClamped | src/adaptive_framework.rs:148-148 | among at least nine values, one 13 times as far below zero as the others lie from it gets a weight that the clamp changes |
| StrategyBuffer.ClampBindsFromNine | src/adaptive_framework.rs:128-166 | at every horizon from nine on, with the discounts 1 and 20, the clamp changes the first weight of a batch |
| StrategyBuffer.ClampIdlesIffShort | src/adaptive_framework.rs:128-166 | the clamp changes no weight of any batch, for any gap and any generator of the horizon, if and only if the horizon is at most eight |
| Advantage.WeightsShareOutHalf | src/adaptive_framework.rs:143-160 | up to a horizon of eight the weights add up to half a unit per task |
| StrategyBuffer.Buffer.Store | src/adaptive_framework.rs:183-191 | appends to both arrays below the capacity, and refuses without a change at it |
| StrategyBuffer.Buffer.FinishPath | src/adaptive_framework.rs:193-212 | the open path becomes a finished segment whose entries are the discounted sums of its errors; all other entries stay |
| StrategyBuffer.Buffer.Normalize | src/adaptive_framework.rs:218-222 | the loop over the copy leaves every place as its distance from the mean, over the deviation or its floor |
| StrategyBuffer.Buffer.Get | src/adaptive_framework.rs:214-228 | refuses unless full; otherwise returns the normalised advantages and restarts the buffer |
| StrategyBuffer.PathPays | src/adaptive_framework.rs:128-142 | the path pays the shortfall, times the urgency (the priority, at least a quarter), for each place, and half of that on top |
| StrategyBuffer.GenerateDuelBatch | src/adaptive_framework.rs:128-166 | one task per place of the path; the fallback is never taken; the gains add up to the shortfall times the weights; up to a horizon of eight all weights are strictly between 0.05 and 1.0, give back the normalised advantages, and sum to half the horizon |
| Compaction.EstimateIsByLength | src/lib.rs:6588-6594 | where the length fits 32 bits the word estimate does not exceed the character estimate |
| Compaction.WordsStart | src/lib.rs:6588-6594 | as many words are counted as there are places at which one starts |
| Compaction.WordEstimateNeverDecidesIff | src/lib.rs:6588-6594 | it never does so for any content of a given length exactly when that length is below 2^32 |
| Compaction.OverBudgetIsTruncated | src/lib.rs:6629-6636 | a request over budget is always longer than the target, so the truncating branch is taken |
| Compaction.TargetIsFourfold | src/lib.rs:6629-6632 | four characters for each token, at least 280 and at most 4800 |
| Compaction.BudgetIsWithin | src/lib.rs:6577-6586 | the budget of the policy where it lies between 512 and 8000 tokens, and the nearer bound otherwise; 8000 where it names none |
| Compaction.CompactKeepsEnds | src/lib.rs:6629-6662 | a content within the target stays as it is; of a longer one the first three quarters and the last quarter of the target are kept, trimmed, between the fixed texts |
| Compaction.MentionsArtifactIff | src/lib.rs:6664-6671 | a content is searched for a delivery path exactly when it mentions one of three words, in capitals or small letters |
| Compaction.WithinBudgetIsUnchanged | src/lib.rs:6773-6819 | a request is compacted exactly when it is over budget, and stays as it is otherwise |
| Compaction.StandardFrameLength | src/lib.rs:6644-6651 | the fixed text is 247 characters long |
| Compaction.CompactedLength | src/lib.rs:6629-6662 | without a delivery path the result is at most the target plus the fixed text |
| Compaction.PreflightFits | src/lib.rs:6773-6819 | from 1262 tokens on every request without a delivery path fits after the preflight |
| Compaction.SmallBudgetOverflows | src/lib.rs:6773-6819 | below 1262 tokens some request that names no delivery path still exceeds the budget after compaction, however paths are searched for |
| Compaction.SafeBudgets | src/lib.rs:6773-6819 | however paths are searched for, compaction brings every request that names none within the budget exactly when the budget is at least 1262 tokens |
| Compaction.SafePolicies | src/lib.rs:6577-6586 | compaction brings every request that names no delivery path within the budget of a policy exactly the policy names no budget or one of at least 1262 tokens |
| IterationController.RunController | src/lib.rs:954-1119 | over the token limit no attempt is made; otherwise between 1 and max(max_attempts, 1) attempts, all but the last failed runs with a retry allowed, success exactly when the last attempt succeeded, each reason exactly under its condition, and each attempt run on the hinted and compacted content that its predecessors led to |
| IterationController.ContentStays | src/lib.rs:1072-1089 | where nothing is hinted and no failure asks for a shorter content, every attempt works on the request as it is |
| IterationController.ContentIsCompacted | src/lib.rs:1074-1085 | after a failure that asks for it, the next attempt works on the content compacted to the budget, which is at least 512 tokens, and 8000 where none is given |
| IterationController.CompactedContentFits | src/lib.rs:1074-1085 | with a budget of at least 1262 tokens, or none given, what the next attempt works on fits the budget, unless the content names a delivery path |

## Left out

- SHA-256, HMAC, signatures and attestation: the digest is an arbitrary function from text to text; where needed it is required to be free of ':' and '|', never "genesis", and free of collisions on the named texts only.
- Authorities, capabilities, validators, recovery, the clock and the isolation probes: arbitrary answers, given as parameters.
- File handles, lock poisoning, partial writes and I/O errors: a log is a text and an operation is atomic; `execute` does not fail while appending evidence, and a log that is not valid UTF-8 is not represented.
- FileKernel.RunRefines: a kernel over files is modelled on values, step by step; the imperative code of `NoumenonCore.Core` holds in-memory ledgers, and the file ledgers as objects are `EvidenceLedger.FileLedger` and `BudgetLedger.FileLedger`.
- Error messages, record text built for humans, and the payload of the context record (kernel.rs:346-419): the payload is an arbitrary text.
- KernelAccounting.ConsumeSucceedsIffCovered: stated for runs in which no sum on the account was cut off at 64 bits, as are `KernelAccounting.UnroutedConsumptionNeverFails` and `KernelAccounting.LoneExecutionConsumesIffCovered`; once one was, the account no longer is the balance they speak of (`KernelAccounting.BudgetIsExact`).
- BudgetBalance.AccountBalances: stated for reservations that fit 64 bits on top of the account, as is `BudgetBalance.RepliesTell`; what a cut-off sum does to the balance is `KernelAccounting.BudgetIsExact`.
- BusOrder.ReturnedInOrder: messages leave the channel in order whatever the interleaving (`BusOrder.FirstInFirstOut`), but a consumer that has taken one may be overtaken before it returns it, so the order of returns is stated for one consumer at a time.
- Builds that trap on overflow instead of wrapping are not modelled.
- RelationCycles.DetectRelationCycles: that no edge on a cycle is listed twice is enough for a report without repeats, and exact for the records it is made from; which repeats are adjacent after sorting, and so dropped, depends on the order of the keys and is shown on an example only.
- MessageBus.DeliveryBound: stated for runs that issue at most 2^64 ids, since afterwards the counter reuses them; cancelled futures and a closed channel are not modelled, and retry limits are unbounded naturals instead of bytes.
- Floating-point rounding: advantages are reals, and the square root is any function that is one.
- Step dependencies and failure policies: the executor never reads them, so no order or retry is claimed from them.
- Model routing inside `llm.route` (execution.rs:58-85): one capability call like any other, at its own price.
- How a request with an artifact mark is searched for its delivery path (lib.rs:6674-6743), lane selection, failure classification and failure hints: parameters of `Compaction` and `IterationController`.
- `evaluate_batch_effect` and the prompt bundles of the adaptive framework, batches of plans, rollout percentages, path safety, dashboards, command line and storage: not part of this model.
