# Verified model of the logger

This project models the concurrent and stateful core of the logging library: the three
asynchronous transports, the hash-chained audit log, the JSON line encoder, the
fingers-crossed and HTTP-batch sinks, the slog handler, path redaction over pooled records,
message templates and the span tree.

- **The lock-free ring.** Every atomic load, compare-and-swap, value write and sequence store
  of `enqueue` and `dequeue` is a step of its own (`Mpmc`). An inductive invariant is kept by
  every step of any number of threads, and lifted to whole runs (`MpmcRuns`). The same step
  functions are parameterised by the arithmetic: unbounded tickets, or 64-bit words with a
  masked index and a wrapping signed difference. `MpmcQueue` executes the instructions in
  place on an array of cells. `MpmcProgress` says how an operation that is left alone ends,
  `MpmcHolds` what the cells hold.
- **One abstract queue.** `BoundedFifo` is a bounded FIFO with the three overflow policies. It
  takes a record only into a free slot and gives one up only to overflow: a rejection needs a
  full queue, and an eviction needs a full queue or a caller that found it full before and has
  evicted nothing for it since. A record that has left may still occupy its slot. Whole runs
  of the three transports are runs of this queue (`DisruptorRefines`, `DisruptorRuns`,
  `DisruptorEvicts`, `DisruptorProgress`, `RingSteps`, `RingRuns`, `ChannelTransport`, `ChannelRuns`,
  `ChannelProgress`).
- **One notion of order.** `Order` says when what a producer contributes is a subsequence of what
  it was asked to deliver, and carries that from the queue to the sink.
- **From record to reader.** `AuditedJson` joins the encoder, the audit sink, the verifier and the
  parser: an accepted audit log carries the encoded records, which parse back.
- **Values of records** are a type parameter wherever only their identity matters.

Findings, where the code and what one would expect of it differ:

- The 64-bit ring agrees with unbounded tickets as long as at most 2^63 - n tickets are
  claimed, n being the ring size. With one ticket more a stalled producer answers "full" on
  an empty ring, in a state the 64-bit code reaches (`MpmcBound.BoundIsTight`).
- "Full" can be answered while fewer than n records are queued: a consumer that has claimed a
  record but not yet stored its sequence still blocks that cell. `MpmcBound.FullWithRoom` is
  such a state, `MpmcRuns.FullIsHonest` is the exact condition for the answer and
  `DisruptorRefines.FullWithRoom` for its coming with room in the queue.
- Under DropOldest a record can be evicted although there is room by then. The lock-free
  transport can do so for every ring size (`DisruptorEvicts.EvictsWithRoom`), and evicts from
  a full ring exactly when the next ticket's cell is still behind
  (`DisruptorEvicts.EvictionIsOverflow`). So can the channel transport
  (`ChannelRuns.EvictsWithRoom`), which evicts from a full channel exactly when as many
  records have arrived as have left since the channel was found full
  (`ChannelRuns.EvictionIsOverflow`).
- Once Close has closed the channel, DropOldest can count a drop that corresponds to no record
  (`ChannelRuns.CountsPhantom`). Whenever no call is under way, whoever has panicked, the
  counter is the number of records lost if and only if no Dispatch has received from the
  channel when it was closed and empty; otherwise it is too high by the number of those
  receives (`ChannelRuns.CounterIsExact`).
- The audit log's verifier does not notice lines cut off the end, leading zeros in a number, or a
  missing newline at the end of the file (`AuditReasons.CutOff`, `AuditReasons.ZeroPadded`,
  `AuditReasons.Unended`).
- An audit log is accepted exactly when all failed writes come last: the chain advances on a
  failed write, and the next successful line is then rejected
  (`AuditLog.WriterAndVerifierAgree`).
- An encoded line parses back exactly when the caller's file name needs no escaping and every
  float is finite: that name and the texts NaN, +Inf and -Inf are written raw
  (`JsonLines.LineBack`).
- A hole's name can be written in a template exactly when it has no `}` and does not start
  with `{` (`Template.PrintScan`).
- Span paths are unique under one root only. Every root gets the path `1`, and spans of
  different roots share a path exactly when their child-index lists are equal
  (`Span.AcrossRoots`).
- The documentation's reading of `*.password` as matching at any depth is not what the code
  does. A pattern without `**` matches keys with as many segments as it has, segment by
  segment (`Redact.WithoutStars`), so `*.password` matches a key ending in that segment exactly
  when the key has two (`Redact.OneStarOneSegment`, `Redact.DeeperStays`).

## Model

| member | source | states |
|---|---|---|
| Mpmc.InitialInv | transport_disruptor.go:40-51 | a fresh ring satisfies the ring invariant |
| Mpmc.EnqCheckStep | transport_disruptor.go:53-72 | `enqueue` goes on to its compare-and-swap if and only if the cell is free for that very ticket; this is where at least two cells are needed |
| Mpmc.DeqCheckStep | transport_disruptor.go:74-94 | `dequeue` goes on to its compare-and-swap if and only if the cell is filled under that very ticket |
| Mpmc.ClaimPut | transport_disruptor.go:61-61 | winning the enqueue compare-and-swap gives the winner sole ownership of the ticket and its cell |
| Mpmc.ClaimTake | transport_disruptor.go:82-82 | winning the dequeue compare-and-swap does the same for the taker |
| Mpmc.WriteValue | transport_disruptor.go:62-62 | storing the value disturbs no other thread's claim |
| Mpmc.Publish | transport_disruptor.go:63-63 | storing the sequence hands the cell to the dequeuers with the claimed ticket's value in it |
| Mpmc.ReadOrClear | transport_disruptor.go:83-84 | reading and clearing the value disturbs no other thread's claim |
| Mpmc.Release | transport_disruptor.go:85-85 | the final sequence store frees the cell for the ticket one ring later |
| Mpmc.StepKeepsInv | transport_disruptor.go:53-94 | every step of every thread keeps the cursors within one ring of each other, each cell's sequence naming its ticket's phase, and each claim exclusive |
| MpmcRuns.RunKeepsInvariant | transport_disruptor.go:53-94 | the invariant holds in every state of every interleaving |
| MpmcRuns.ReturnedValues | transport_disruptor.go:53-94 | over every interleaving the value returned for a ticket is the one enqueued under it, no ticket is returned twice, and each consumer's tickets increase |
| MpmcOrder.ProducersInOrder | transport_disruptor.go:53-94 | over every interleaving, what one producer has put into the ring, and what of it any one consumer gets back, is in order some of what the producer called `enqueue` with |
| MpmcRuns.FoundValue | transport_disruptor.go:74-94 | a dequeue that answers "found" hands its caller the value of the ticket it claimed; one that answers "empty" changes nothing |
| MpmcRuns.CellIsExclusive | transport_disruptor.go:61-63 | between a successful compare-and-swap and the sequence store no other thread changes the cell or owns it |
| MpmcRuns.FullIsHonest | transport_disruptor.go:66-67 | `enqueue` answers "full" if and only if its position is current and the ticket n earlier is unreleased |
| MpmcRuns.EmptyIsHonest | transport_disruptor.go:88-89 | `dequeue` answers "empty" if and only if its position is current and that ticket is unpublished |
| MpmcRuns.StaleRetry | transport_disruptor.go:60-65 | a thread with a stale position repeats its compare-and-swap if and only if that ticket's claimer has not stored its sequence |
| MpmcProgress.StaleGivesUp | transport_disruptor.go:60-69 | at a sequence load a stale position is given up, and the cursor loaded again, if and only if that ticket's claimer has stored its sequence; the same for `dequeue` |
| MpmcProgress.LosesTheSwap | transport_disruptor.go:60-65 | a thread that loses its compare-and-swap looks at the cell again with its old position: two steps later it loads the cursor if and only if the winner has stored its sequence |
| MpmcProgress.AloneFinishes | transport_disruptor.go:53-94 | from every state, a call left alone is over after at most seven of its own steps for `enqueue` and eight for `dequeue`, whatever position it had loaded |
| MpmcProgress.AloneAnswers | transport_disruptor.go:53-94 | `enqueue` left alone answers "full" if and only if n records are unclaimed and otherwise puts its value last; `dequeue` answers "empty" if and only if none is and otherwise takes the oldest |
| MpmcHolds.NothingRetained | transport_disruptor.go:83-85 | over every interleaving, when no operation holds a ticket the cells hold the unclaimed records, each in its own, and nothing else |
| MpmcRuns.WordStepAgrees | transport_disruptor.go:56-58 | up to 2^63 - n tickets, masked index and wrapping signed difference take the same step as unbounded arithmetic |
| MpmcRuns.WordRunAgrees | transport_disruptor.go:53-94 | so does every run |
| MpmcBound.BoundIsTight | transport_disruptor.go:56-67 | with one ticket more there is a state, reached by one schedule under both arithmetics, where the 64-bit `enqueue` answers "full" on an empty ring and the unbounded one does not |
| MpmcBound.FullWithRoom | transport_disruptor.go:66-67 | for every ring size there is a state, reached under both arithmetics, where `enqueue` answers "full" with fewer than n records queued |
| Words.MaskIsRemainder | transport_disruptor.go:56-56 | masking with a power of two less one is the remainder |
| Words.DifAgrees | transport_disruptor.go:58-58 | the wrapping signed difference of two words less than 2^63 apart is their true difference |
| MpmcQueue.Queue.constructor | transport_disruptor.go:40-51 | for sizes up to 2^62 construction ends with the least power of two at or above max(2, size), each cell numbered by its index |
| MpmcQueue.Queue.EnqueueInstruction | transport_disruptor.go:53-72 | each instruction of `enqueue`, executed in place on 64-bit words, is the step function's next step |
| MpmcQueue.Queue.DequeueInstruction | transport_disruptor.go:74-94 | likewise for `dequeue` |
| BoundedFifo.ApplyKeepsValid | transport.go:10-19 | arrivals go to the tail, departures and evictions take the head, rejections change nothing queued, and the capacity and the policy are never exceeded |
| BoundedFifo.FullMeansCap | transport.go:10-19 | without records lingering in their slots, full means holding as many records as the capacity |
| BoundedFifo.LossesAreOwed | transport.go:93-106 | over every run, an eviction is by a caller that found the queue full earlier and has evicted nothing for it since |
| BoundedFifo.LosslessPrefix | transport.go:10-19 | when nothing is evicted the delivered records are a prefix of those entered |
| Order.DeliveredInOrder | transport.go:10-19 | if what a producer has put into the queue is a subsequence of what it was asked to deliver, so is what reaches the sink, whatever is evicted |
| Disruptor.StepKeepsInv | transport_disruptor.go:112-178 | every step of producers, consumer and closer keeps each record in exactly one place, the counter equal to the losses, and the order of delivery |
| DisruptorRefines.Refines | transport_disruptor.go:112-165 | each step is at most one event of the abstract queue: an arrival into a free slot, a departure, a slot being freed, a rejection with no slot free, a Dispatch call finding no slot free, or that call evicting the head |
| DisruptorRefines.FullRing | transport_disruptor.go:53-67 | the queue's "no free slot" is the cell of the next ticket being behind |
| DisruptorRefines.FullWithRoom | transport_disruptor.go:53-85 | there is no free slot while the queue has room if and only if the thread that claimed the record n arrivals ago is still emptying its cell |
| DisruptorRuns.RunRefines | transport_disruptor.go:112-165 | every run is a run of the abstract queue |
| DisruptorRuns.EveryRun | transport_disruptor.go:112-178 | in every state of every run: conservation of records, the run is one of the abstract queue, `Dropped()` plus the losses about to be counted is the queue's losses, Block loses none, the sink has received a prefix of the delivered records in queue order |
| DisruptorRuns.EvictionsAreOwed | transport_disruptor.go:158-163 | in every run an eviction is by a Dispatch call whose own `enqueue` answered "full" before, and that has evicted nothing since |
| DisruptorEvicts.EvictsWithRoom | transport_disruptor.go:158-163 | for every ring size there is a run, on 64-bit words as on unbounded tickets, in which a Dispatch call evicts a record while a slot is free |
| DisruptorEvicts.EvictionIsOverflow | transport_disruptor.go:158-163 | an eviction is from a full ring if and only if the cell of the next ticket to enqueue is behind at that moment |
| DisruptorRuns.SettledRun | transport_disruptor.go:112-178 | once every Dispatch has returned, `Dropped()` is the number of records lost |
| DisruptorRuns.ProducersInOrder | transport_disruptor.go:112-165 | under every policy and schedule, one goroutine's records enter the ring and reach the sink in the order it dispatched them |
| DisruptorRuns.WordRunAgrees | transport_disruptor.go:53-178 | every run of the transport on 64-bit words that claims at most 2^63 - n tickets is a run with unbounded tickets |
| DisruptorRuns.RunAgreesWord | transport_disruptor.go:53-178 | and every run with unbounded tickets that claims at most 2^63 - n of them is a run on 64-bit words |
| DisruptorRuns.NobodyIsStuck | transport_disruptor.go:112-165 | a thread inside Dispatch or the consumer loop always has a next step |
| DisruptorProgress.CloseFinishes | transport_disruptor.go:112-178 | from every state with Close called and no Dispatch under way, every run is bounded by a measure and stops only with the consumer gone and Close returned |
| DisruptorProgress.CloseCanReturn | transport_disruptor.go:112-178 | from every such state there is a run in which Close returns |
| DisruptorProgress.Delivers | transport_disruptor.go:112-140 | without Close, when no Dispatch is under way, a bounded number of the consumer's steps empties the ring and emits every record that was not evicted |
| DisruptorProgress.DispatchFinishes | transport_disruptor.go:146-165 | a Dispatch call left alone returns within 78 of its own steps, under every policy, unless it is under Block and the ring is full |
| DisruptorProgress.BlockWaits | transport_disruptor.go:149-153 | under Block with the ring full it goes round and changes nothing, however long |
| DisruptorRuns.DrainSeesAll | transport_disruptor.go:122-133 | once every Dispatch has returned, an "empty" answer to the draining consumer means the ring is empty |
| DisruptorRuns.CloseLosesNothing | transport_disruptor.go:112-178 | in every run whose Dispatch calls all finish before Close, the ring is empty when Close returns and emitted plus dropped is dispatched, with nothing dropped under Block |
| DisruptorRuns.NothingAfterExit | transport_disruptor.go:112-165 | once the consumer has exited nothing is emitted any more, whatever is dispatched |
| RingTransport.Transport.constructor | transport_ring.go:32-46 | a capacity below 2 becomes 1024; the queue is empty and open |
| RingTransport.Transport.DropHead | transport_ring.go:59-62 | head and count arithmetic removes exactly the oldest record of the represented sequence |
| RingTransport.Transport.Append | transport_ring.go:100-102 | tail and count arithmetic appends one record to the represented sequence |
| RingTransport.Transport.EnterLocked | transport_ring.go:72-103 | Dispatch's critical section refuses, waits, drops, stores, or evicts the head and stores, as closed, full and policy say |
| RingTransport.Transport.ResumeLocked | transport_ring.go:81-103 | a woken producer looks again at full and closed before storing |
| RingTransport.Transport.TakeLocked | transport_ring.go:50-64 | the worker sleeps, exits or takes the head |
| RingTransport.Transport.CloseLocked | transport_ring.go:111-120 | only the first Close closes |
| RingSteps.StepKeepsInv | transport_ring.go:48-124 | every step keeps conservation, order, policy and the absence of lost wake-ups on both condition variables |
| RingSteps.TakeWakeups | transport_ring.go:48-69 | taking a record makes room for one more producer and signals one more |
| RingSteps.CallerWakeups | transport_ring.go:72-105 | a producer that starts waiting, stores or leaves keeps count plus signalled producers at capacity while somebody waits unsignalled |
| RingRuns.Refines | transport_ring.go:48-105 | each step is at most one arrival, one removal of the head or one rejection, or an eviction and an arrival; a record is evicted or rejected only while the ring holds its full capacity |
| RingRuns.RunRefines | transport_ring.go:48-105 | every run is a run of the abstract queue |
| RingRuns.EveryRun | transport_ring.go:48-124 | in every run: conservation including refused records, the run is one of the abstract queue, counter plus the losses about to be counted is the queue's losses, Block loses none, capacity never exceeded, delivery in order, nothing refused while open, nobody waits after Close, the ring is empty and the worker gone when Close returns |
| RingRuns.SettledRun | transport_ring.go:48-124 | once every call has returned the counter is the number lost, and if Close has returned too, dispatched is emitted plus dropped plus refused |
| RingRuns.CloseLosesNothing | transport_ring.go:48-124 | in every run whose Dispatch calls all finish before Close, nothing is refused, the ring is empty when Close returns, and dispatched is emitted plus dropped, with nothing dropped under Block |
| RingRuns.NothingEntersClosed | transport_ring.go:72-124 | in every run from a closed ring nothing enters it, nothing is turned away or evicted, and what is in it leaves from the head |
| RingRuns.LateIsRefused | transport_ring.go:72-105 | a Dispatch that finds the ring closed is refused and returns |
| RingRuns.ProducersInOrder | transport_ring.go:48-105 | under every policy and schedule, one caller's records enter the ring and reach the sink in the order it dispatched them |
| RingRuns.NoDeadlock | transport_ring.go:48-124 | in every state with work pending some internal step is enabled |
| RingRuns.InternalStepsDown | transport_ring.go:48-124 | every internal step decreases a measure |
| RingRuns.EverythingFinishes | transport_ring.go:48-124 | so every run of internal steps is bounded by that measure |
| ChannelTransport.StepKeepsInv | transport.go:73-107 | every step keeps conservation, order, policy and at most one phantom drop for each caller that has panicked or is about to; a send on a closed channel panics and keeps its record |
| ChannelRuns.Refines | transport.go:73-107 | each step is at most one event of the abstract queue: an arrival while there is room, a departure, a rejection by a full channel, a caller finding the channel full, or that caller evicting the head |
| ChannelRuns.RunRefines | transport.go:73-107 | every run is a run of the abstract queue |
| ChannelRuns.EveryRun | transport.go:59-120 | in every run: conservation, capacity, the run is one of the abstract queue, counter equals losses plus phantoms, none while open and at most one for each caller that has panicked or is about to, nothing dropped under Block, delivery in order, the channel empty and the worker gone when Close returns |
| ChannelRuns.EvictionsAreOwed | transport.go:93-106 | in every run an eviction is by a caller that found the channel full before and has evicted nothing for it since |
| ChannelRuns.EvictsWithRoom | transport.go:93-106 | a run in which the eviction comes when the channel has room |
| ChannelRuns.EvictionIsOverflow | transport.go:93-106 | an eviction is from a full channel if and only if as many records have arrived as have left since it was found full |
| ChannelRuns.CountsPhantom | transport.go:93-106 | a run in which Close makes DropOldest count a drop without a lost record, after which the caller panics |
| ChannelRuns.CounterIsExact | transport.go:93-106 | in every run that ends with no call under way, the counter equals the records lost if and only if no receive of DropOldest came from a closed and empty channel, and exceeds them by the number of such receives |
| ChannelRuns.SettledRun | transport.go:59-120 | once no call is under way and none has panicked the counter is the number lost, and if Close has returned too, dispatched is emitted plus dropped |
| ChannelRuns.CloseLosesNothing | transport.go:59-120 | in every run whose Dispatch calls all finish before Close, nobody panics, the channel is empty when Close returns, and dispatched is emitted plus dropped, with nothing dropped under Block |
| ChannelRuns.NothingEntersClosed | transport.go:73-107 | in every run from a closed channel nothing enters it and nothing is turned away |
| ChannelRuns.LatePanics | transport.go:82-101 | a call that comes to send on a closed channel panics and keeps its record |
| ChannelRuns.ProducersInOrder | transport.go:73-107 | under every policy and schedule, one caller's records enter the channel and reach the sink in the order it dispatched them |
| ChannelProgress.NoDeadlock | transport.go:73-107 | with a Dispatch under way, a record queued or Close waiting, some step is enabled |
| ChannelProgress.InternalStepsDown | transport.go:73-120 | every step of the worker, of a call under way and of Close decreases a measure, the retry loop of DropOldest included |
| ChannelProgress.EverythingFinishes | transport.go:73-120 | so every run without new calls is bounded by that measure, and stops only once every Dispatch has returned or panicked, every record has reached the sink and a called Close has returned |
| Audit.VerifyAudit | audit.go:97-135 | the loop answers OK exactly when every scanned line continues the chain and no line is too long; otherwise `Records` and `BrokenAtSeq` are the length of the longest intact prefix and the reason is the first thing wrong with the line after it, which `AuditReasons` spells out |
| AuditLog.AuditSink.constructor | audit.go:39-41 | the chain starts at the genesis hash with sequence 0 |
| AuditLog.AuditSink.Emit | audit.go:44-66 | one more record joins the chain, trimmed of trailing newlines, also when its write fails |
| AuditLog.TrimIs | audit.go:47-51 | what is left of a record has no newline at its end, and what is taken off is only newlines |
| AuditLog.SoundIsAccepted | audit.go:44-66 | a log of sound Emits is accepted with the right record count |
| AuditLog.AcceptedIsSound | audit.go:97-135 | an accepted log comes from sound Emits, or the hash confuses a record with its own first line |
| AuditLog.WriterAndVerifierAgree | audit.go:44-135 | both together, for every sequence of Emits, failed writes included |
| AuditLog.GapIsRejected | audit.go:59-61 | after a failed write any later written line is rejected |
| AuditLog.UnbrokenIff | audit.go:97-110 | a record reaches the verifier unchanged if and only if it has no newline and does not end in a carriage return |
| AuditLog.ChainedIsLinked | audit.go:112-133 | the running check over a suffix is the pointwise link condition on every line |
| AuditLog.TamperEvident | audit.go:97-135 | two accepted logs of the same length and final digest hold the same canonical record at every position, or exhibit a collision of the hash |
| AuditReasons.Untouched | audit.go:97-135 | the file of a sound run is accepted with as many records as it has lines |
| AuditReasons.Removed | audit.go:110-114 | removing any line but the last gives that line's place and "not contiguous" |
| AuditReasons.Exchanged | audit.go:110-114 | exchanging two lines gives the earlier place and "not contiguous" |
| AuditReasons.NumberChanged | audit.go:110-114 | a line with another number, or none, gives its place and "not contiguous", whatever else is changed in it |
| AuditReasons.PrevChanged | audit.go:115-118 | a line with its own number and another previous digest gives its place and "prev mismatch", whatever record and digest it has |
| AuditReasons.RecordChanged | audit.go:119-126 | a line with another record gives its place and "hash mismatch", unless the hash collides |
| AuditReasons.DigestChanged | audit.go:119-126 | so does a line with another digest |
| AuditReasons.Garbled | audit.go:105-108 | a line with fewer than three blanks, in place of a line or after the last, gives its place and "malformed" |
| AuditReasons.TooLong | audit.go:130-133 | a line too long for the scanner after the last gives the number of lines and "read error" |
| AuditReasons.CutOff | audit.go:97-135 | cutting lines off the end goes unnoticed: what is left is accepted |
| AuditReasons.ZeroPadded | audit.go:110-114 | so do leading zeros in front of a number |
| AuditReasons.Unended | audit.go:98-103 | so does taking away the newline at the end of the file |
| AuditedJson.CanonicalLine | audit.go:44-51 | the audit sink's trimming takes exactly the final newline off an encoded line, and the rest reaches the verifier unchanged if and only if the caller's file name has no newline |
| AuditedJson.EncodedLogAccepted | audit.go:36-135 | a log of encoded records, written without failures, is accepted if and only if every line fits the scanner |
| AuditedJson.EncodedLogBack | audit.go:36-135 | the i-th line of an accepted log carries the i-th record, which parses back to its keys and values if and only if its caller needs no escaping and its floats are finite |
| JsonText.StringBack | buffer.go:35-63 | an escaped string is self-delimiting and unescapes to the original whatever follows it |
| JsonText.EscapeForm | buffer.go:44-58 | printable characters are written as they are, quote, backslash, newline, return and tab in two characters, other control characters as \u00 and two lower-case digits |
| JsonText.RawBack | encoder_json.go:66-73 | text written raw between quotes reads back if and only if it needs no escaping |
| JsonText.NumberBack | buffer.go:26-28 | a number by section 6 of RFC 8259 ends where a comma or a brace begins, and reads back as itself |
| JsonText.DecIsNumber | buffer.go:26-27 | decimal integers are numbers by section 6 of RFC 8259 |
| JsonText.ReadBack | buffer.go:26-27 | the numeral written for an integer reads back as that integer, sign included |
| JsonEncoder.Buffer.WriteJSONString | buffer.go:35-63 | the loop that copies runs of plain bytes late equals escaping byte by byte |
| JsonEncoder.Buffer.WriteEscape | buffer.go:44-58 | the escape of one byte, with its two hexadecimal digits |
| JsonEncoder.AppendAny | anyval.go:16-71 | each dynamic type is written as its JSON text |
| JsonEncoder.AppendFieldValue | encoder.go:15-61 | each kind is written as its JSON text |
| JsonEncoder.ValueRenders | encoder.go:15-61 | whatever is written for a field without an infinite float parses back to the value meant, whatever follows |
| JsonEncoder.Encode | encoder_json.go:22-86 | one object per line, with the members time, level, message, event, caller, fields in this order |
| JsonLines.MembersBack | encoder_json.go:22-86 | a joined list of members parses back to its keys and values, in order |
| JsonLines.LineBack | encoder_json.go:22-86 | parsing an encoded line by RFC 8259 returns the record's keys and values in order if and only if the caller's file name needs no escaping and every float is finite |
| JsonLines.BrokenAfter | encoder_json.go:22-86 | after any members that read back, a member that does not read back as meant spoils its place in the result, whatever follows |
| JsonLines.UncleanLine | encoder_json.go:66-73 | a line whose raw caller needed escaping never reads back as meant |
| JsonLines.InfiniteLine | buffer.go:28-28 | a line with a NaN or an infinite float, written bare, never reads back as meant |
| JsonLines.OneNewline | encoder_json.go:22-86 | a line ends in a newline, which is its only one if and only if the caller's file name has none |
| JsonReads.LevelIsBand | level.go:51-68 | the level's name is that of its band of four from 1 on |
| JsonReads.LineReads | encoder_json.go:22-86 | a reader of an encoded line gets the record back in order: time, level, message, event, caller file and line, and fields, integers as the integers they are, the optional ones exactly if the record has them |
| FingersCrossed.FcBuffer.constructor | fingerscrossed.go:38-43 | a capacity below 1 becomes 256; nothing is held |
| FingersCrossed.FcBuffer.Push | fingerscrossed.go:45-54 | the ring keeps the newest records in order, dropping the oldest when full |
| FingersCrossed.FcBuffer.Drain | fingerscrossed.go:56-63 | returns what is held, oldest first, and empties the ring |
| FingersCrossed.Emit | fingerscrossed.go:94-124 | the critical section's new state and output, as latch, activation and pass-through say |
| FingersCrossedRuns.ActivationLevel | fingerscrossed.go:94-114 | a record at the activation level, 17 if unset, opens its scope and brings out what was held; one a level lower does not |
| FingersCrossedRuns.PassThroughLevel | fingerscrossed.go:116-123 | below activation, a record at the pass-through level is passed on and one a level lower is held; without a pass-through level all are held |
| FingersCrossedRuns.OpensByLevel | fingerscrossed.go:94-114 | the specification's first activating position is the first record of at least the activation level |
| FingersCrossedRuns.ScopesAreIndependent | fingerscrossed.go:84-124 | for every interleaving of scopes the output of one scope is the simple specification on its own input: pass-through records, then at the first activating one the last held records, it, and everything after |
| FingersCrossedRuns.ExpectedSnoc | fingerscrossed.go:94-124 | one more record extends the specification by exactly what Emit passes on |
| FingersCrossedRuns.OverlappingCalls | fingerscrossed.go:108-114 | when calls overlap, each record is emitted at most once and a held one only after its scope's activation |
| HttpBatch.HttpBatchSink.constructor | sink_http.go:34-40 | starts empty, open, without a timer |
| HttpBatch.HttpBatchSink.TakeLocked | sink_http.go:74-82 | takes the whole buffer and stops the timer |
| HttpBatch.HttpBatchSink.Emit | sink_http.go:51-72 | filters by level, refuses when closed, and flushes at the batch size or arms a timer |
| HttpBatch.HttpBatchSink.Close | sink_http.go:143-152 | closes and takes what is left |
| HttpBatch.SentAccounted | sink_http.go:93-122 | whether sending a batch succeeds or fails, accepted stays buffered plus in flight plus delivered plus failed, and the counter stays the number of failed records |
| HttpBatch.StepKeepsInv | sink_http.go:51-152 | every step keeps the order of batches, the timer discipline and the accounting |
| HttpBatch.EveryRun | sink_http.go:51-152 | in every run: batches in take order and then the buffer are the accepted records, each batch has 1 to max(1, MaxBatch) records, a non-empty buffer has a live timer or a due callback, no other timer is live, accepted is buffered plus in flight plus delivered plus dropped |
| HttpBatch.EmitsChunk | sink_http.go:51-72 | as long as only Emits come, records leave in batches of exactly max(1, MaxBatch), in order, and the rest stays buffered |
| HttpBatch.Flushes | sink_http.go:84-152 | Sync, Close and a timer's callback send off the whole buffer in one batch and stop its timer |
| HttpBatch.DroppedIsFailures | sink_http.go:93-130 | over every run `Dropped()` grows by exactly the records in batches whose sending failed |
| HttpBatch.NothingAfterClose | sink_http.go:51-59 | in every run after Close nothing is accepted |
| Handler.AppendAttr | handler.go:95-130 | appends one attribute tree flattened under a prefix: groups dotted, unnamed groups inlined, the zero attribute skipped |
| Handler.AppendAttrs | handler.go:104-112 | the same for a list of attributes |
| Handler.AllKeysAreDotted | handler.go:93-130 | every leaf of the attribute trees becomes one field, in order, whose key is the names of the named groups around it and its own joined by dots |
| Handler.SlogHandler.WithAttrs | handler.go:64-70 | a new handler with its own array; the receiver is unchanged |
| Handler.SlogHandler.WithGroup | handler.go:74-82 | a new handler under the group, or the receiver for the empty name |
| Handler.SlogHandler.Handle | handler.go:49-60 | the record's fields are the bound ones and then the call's, flattened under the prefix |
| Handler.EarlyIsLate | handler.go:49-91 | for every chain of WithAttrs and WithGroup, flattening early equals flattening one nested tree at the end |
| Handler.Derive | handler.go:64-91 | a chain of derivations leads to the prefix and the fields the chain describes |
| Handler.Siblings | handler.go:64-91 | two handlers derived from one parent, and the parent, each produce their own chain's tree, whatever was derived in between |
| Slices.Append | redact_path.go:84-92 | writes in place when there is spare capacity and reallocates otherwise |
| Slices.CopyOf | record.go:60-71 | a copy shares no array with its source |
| Dots.SplitJoin | redact_path.go:67-69 | splitting at dots loses nothing and leaves no dot in a segment |
| Redact.SegMatch | redact_path.go:51-65 | the loop decides the recursive meaning of the pattern up to its first `**` |
| Redact.StarsLast | redact_path.go:51-65 | which is the whole pattern when `**` comes only last |
| Redact.WithoutStars | redact_path.go:51-65 | a pattern without `**` matches if and only if the key has the same number of segments and each is the pattern's, or the pattern has `*` there |
| Redact.OneStarOneSegment | redact_path.go:28-31 | a key ending in a segment matches `*` and that segment if and only if it has two segments |
| Redact.DeeperStays | redact_path.go:28-31 | the key one level further down is not matched |
| Redact.MatchesKey | redact_path.go:67-75 | a key matches if and only if some pattern does |
| Redact.PatternsJoin | redact_path.go:67-75 | every pattern counts wherever it stands in the list, and no pattern matches nothing |
| Redact.AppendRedacted | redact_path.go:80-92 | one field is kept, masked, hashed or dropped, and nothing beyond its slot is written |
| Redact.Process | redact_path.go:78-96 | in place on a shared array, the result is the filter-and-map of the old fields, without reallocation |
| Redact.Idempotent | redact_path.go:78-96 | masking or dropping twice is the same as once |
| Redact.OthersStay | redact_path.go:78-96 | the fields under keys that match no pattern are unchanged and in the same order |
| Redact.NothingLeaks | redact_path.go:78-96 | every field left under a matching key holds the censor text or the digest |
| Redact.MaskedInPlace | redact_path.go:78-96 | masking and hashing keep every field in its place under its key and replace exactly the values under matching keys |
| Redact.DroppedAway | redact_path.go:78-96 | dropping leaves exactly the fields that do not match, in order |
| Records.Pipeline.NewRecord | record.go:34-38 | a pooled or new record comes empty and marked as pooled, its array used by nobody else |
| Records.Pipeline.Release | record.go:40-56 | a pooled record goes back truncated with its array; any other record and the pool are left alone |
| Records.Pipeline.Clone | record.go:60-71 | a clone holds the same fields in an array of its own and does not belong to the pool |
| Records.Pipeline.WorkerReleases | transport_disruptor.go:112-133 | a worker releasing a clone it has emitted changes neither the pool nor the clone, and no pooled record uses the clone's array |
| Records.Pipeline.With | logger.go:97-101 | a child's bound fields are a copy |
| Records.Pipeline.Fill | logger.go:111-126 | bound and own fields are copied into the record's own array and redacted there |
| Records.Pipeline.Log | logger.go:104-138 | the clone a transport keeps holds the redacted fields; no bound fields, caller's slice or earlier clone changes, whatever was released or reused before |
| Template.ParseTemplate | template.go:21-59 | one pass yields the rendered message, one field per hole, and then the unchanged template, for every template |
| Template.FieldPerHole | template.go:41-47 | the k-th field has the k-th hole's name and the k-th argument, or nil when there are too few |
| Template.RenderFills | template.go:39-48 | the message is the template's literals with the k-th argument's text in the k-th hole |
| Template.PrintScan | template.go:21-59 | printing a list of literals and holes and scanning it again gives the list back if and only if every hole's name is writable |
| Template.TokenBack | template.go:29-55 | a printed token is read as itself whatever follows it |
| Template.UnclosedIsLiteral | template.go:34-38 | after any tokens, an opening brace that nothing closes and all that follows it stand for themselves |
| Template.LoneClosing | template.go:50-55 | a closing brace that is not doubled stands for itself |
| Template.ScanWritable | template.go:37-41 | no template yields a hole whose name contains a closing brace or starts with an opening one |
| Span.Itoa | span.go:117-129 | filling the 20-byte buffer from its end gives the decimal numeral, and the empty string for a negative number |
| Span.StartSpan | span.go:48-81 | counts the child, extends the parent's path by its number, and binds name, identifier, path, fields and parent |
| Span.BoundNames | span.go:70-81 | the fields records under a span inherit name it, then come the caller's, then the parent if there is one |
| Span.OpenAll | span.go:48-81 | in every sequential run under one root the spans are different objects, each path spells its child-index list, and each span has counted its children |
| Span.IndexInjective | span.go:62-66 | different spans have different child-index lists |
| Span.PrefixIsAncestor | span.go:62-66 | the prefix order of child-index lists is exactly the ancestor relation |
| Span.DecodePath | span.go:62-66 | a path decodes to its child-index list |
| Span.PathPrefix | span.go:62-66 | a path and a dot start another path if and only if the one list is a proper prefix of the other |
| Span.PathsNameTheTree | span.go:48-81 | paths decode to places, are pairwise distinct, and a dotted prefix is exactly a proper ancestor |
| Span.AcrossRoots | span.go:62-69 | spans of different roots share a path if and only if their child-index lists are equal; the roots always share `1`, and no other span has it |
| Span.Span.End | span.go:90-114 | the first End emits the completion record: identity, duration, success, parent and error if any, and the span's own fields; later ones emit nothing |
| Span.LastFailDecides | span.go:83-84 | the last Fail decides the error, whatever is called around it |
| Span.LastCallDecides | span.go:83-88 | the last Fail or SetLevel decides the level, a Fail setting that of errors |
| Span.FirstEndIs | span.go:84-114 | the first End emits the outcome of the calls before it, and what follows changes nothing |
| Span.CompletionNames | span.go:92-114 | a reader of the completion record finds name, identifier, path, duration and parent under their keys, and the span's own fields last |
| Span.OkSpan | span.go:92-114 | a span that never failed says ok |
| Span.FailedSpan | span.go:92-114 | one that did says not ok, with its last error |
| Span.OneOutcome | span.go:84-114 | whatever is called on a span in whatever order, it emits the record of the first End, with the outcome as of then, and nothing else |
| Decimal.DecInjective | span.go:117-129 | different numbers have different numerals |

## Left out

- Rotating files, network and syslog sinks, gzip, configuration polling, signals and HTTP handlers: dominated by calls into the operating system.
- HTTP request building and the Loki, Datadog and Elasticsearch bodies: sending is a whole-batch success or failure.
- The adapters under `contrib` and `logtest`: thin layers over other libraries.
- Console and logfmt encoders: they are not meant to be inverted.
- Metrics, sampling, deduplication, level tables and presets: short counters and tables.
- SHA-256, float, time and duration formatting, `json.Marshal` and `LogValuer` resolution: parameters or given texts, with the assumptions stated where they are used (a digest is 64 characters without blanks, a marshalled text is the value meant and has no newline, a float is written as a number of section 6 of RFC 8259 or as NaN, +Inf or -Inf).
- Go's scheduling fairness and the consumer's adaptive backoff: every interleaving is allowed, and progress is stated as "some step is enabled" and as a decreasing measure.
- Weak memory: the atomics of Go are sequentially consistent, so one step is one access.
- Flushing held records when FingersCrossed closes, and its buffer-size method: the code does neither.
- Short writes: a write of the audit log succeeds or fails as a whole.
- A \u escape naming half of a surrogate pair is rejected by the parser; the encoder writes none.
- The pipeline holds one path redactor between filling a record and cloning it; other processors, and the early exit when a processor fails, are not modelled.
- MpmcQueue.Queue.constructor: requires a size of at most 2^62, beyond which the doubling overflows and the loop of the source does not end.
- Audit.VerifyAudit: requires a text shorter than 2^63 bytes, so that the record counter cannot wrap.
- AuditLog.WriterAndVerifierAgree: covers up to 2^64 records, after which the sequence number wraps.
- AuditLog.TamperEvident: names the colliding inputs instead of assuming an injective hash, since no hash of fixed length is injective.
- DisruptorRuns.CloseLosesNothing: is about runs where no Dispatch overlaps or follows Close, because Dispatch does not look at the closed flag.
- RingRuns.CloseLosesNothing: is about the same runs; `RingRuns.SettledRun` covers the others, where late records are refused.
- ChannelRuns.CloseLosesNothing: is about the same runs, since a late Dispatch panics.
- AuditedJson.EncodedLogAccepted: is for records whose caller is on one line and writes that work; `AuditLog.WriterAndVerifierAgree` covers the rest.
- MpmcProgress.AloneFinishes: is about a thread that runs alone while no other holds a ticket; with others running, `enqueue` and `dequeue` may retry without end, which is all a lock-free queue promises.
- MpmcBound.FullWithRoom: is for ring sizes up to 2^62, the sizes construction can give.
- Span.OpenAll: covers fewer than 2^63 - 1 spans, after which the child counter would overflow; concurrent StartSpan calls on one parent are not modelled, since the counter is not synchronised.
- Redact.Idempotent: excludes hashing, where the digest of a digest differs.
- Template.ParseTemplate: the two conditions for doubled braces are one predicate, and a value carries the text the formatter prints for it.
- MpmcQueue.Queue.EnqueueInstruction: one instruction per call, so that any schedule can be put between them; the loop around them is the step relation of Mpmc.
