# Nursery stabilizer of the hummingbird object server

The object server keeps new writes in a *nursery* directory. For each local
device, a background pass walks that nursery and checks each object in turn.
For each object it asks every other primary node of the object's partition
whether they hold the same version (`HEAD` with matching data and meta
timestamps). If all of them do, it promotes the local copy to stable storage
(`Stabilize`). This project models that core in Dafny and proves what it
promises:

- `validateObj`, the stabilization decision. It splits the object name with
  Go's `strings.SplitN(name, "/", 4)`. It rejects handoff devices. It counts
  the good answers from the nodes that are not at this device's address. The
  verdict is `goodNodes + 1 == ReplicaCount()`.
- `stabilizeDevice`, one pass in its sequential view:
  - `startRun` is logged, then the mount check runs.
  - Then comes the walk over the streamed objects: a `checkin`, then the
    check under a semaphore slot, then the select on the cancel signal.
  - `PassComplete` is logged when the stream is exhausted.
- `stabilizeLoop` and `cancel`: once the cancel signal is closed, no further
  pass runs.

Modules:

- `Wrappers`: `Option`.
- `GoStrings`: `SplitN` with a one-character separator, with `IndexOf`
  (Go's `IndexByte`) and `Join` as its partners.
- `Consistency`: the ring and the peers' answers as inputs, and the verdict
  as the function `Verdict`, with its lemmas.
- `NurseryStabilizer`: the pass as functions of its inputs (`PassStats`,
  `Visited`, `Accepted`, `LoopStats`, …), plus the class `NurseryDevice`.
  The class holds:
  - the cancel flag;
  - the statistics log;
  - the log of objects `Stabilize` was called on;
  - the semaphore counter.

  Each method of the class is proved against those functions.

How the model stands in for the source's I/O and concurrency:

- **Ring.** The ring is a value holding its lookups as total functions:
  `GetPartition`, the handoff flag of `GetJobNodes`, `GetNodes` and
  `ReplicaCount`.
- **Peer answers.** A peer's `HEAD` answer comes from `Probe`, a function of
  (node, partition, name). It returns `None` for a transport error or
  timeout. A missing header reads as `""`, as Go's `Header.Get` does.
- **Metadata.** A metadata lookup also yields `""` for a missing key, as Go's
  map index does.
- **Objects and cancellation.** The object stream is a finite sequence.
  Another goroutine may close the cancel signal; this is the input
  `closeAt`, the object during whose processing the signal is closed. The
  select after each object then sees it.

The drive-name conjunct of the skip test (`device.Device == device.Device`)
compares a node's drive with itself. The model keeps it as written.
`Consistency.IsSelf` states that only the IP and port decide the skip.
`Consistency.SharedAddressBlocks` proves the consequence.

## Model

| member | source | states |
|---|---|---|
| GoStrings.IndexOf | objectserver/nurserystabilizer.go:80 | None exactly when the separator is absent; otherwise the position of its first occurrence |
| GoStrings.SplitN | objectserver/nurserystabilizer.go:80 | Go's `strings.SplitN`: no pieces for limit 0, at least one otherwise, at most n for a positive limit |
| GoStrings.SplitNJoin | objectserver/nurserystabilizer.go:80 | the pieces joined with the separator give back the name |
| GoStrings.SplitNPiecesFree | objectserver/nurserystabilizer.go:80 | no piece but the last contains the separator |
| GoStrings.SplitNLength | objectserver/nurserystabilizer.go:80-81 | for a positive limit n, the piece count is min(separators + 1, n) |
| GoStrings.SplitNFourPieces | objectserver/nurserystabilizer.go:80-81 | limit 4 gives exactly 4 pieces iff the name holds at least three '/' |
| GoStrings.SplitNPathPieces | objectserver/nurserystabilizer.go:80-85 | `/account/container/rest`, split with limit n ≥ 4, gives "", account, container, then the rest split with limit n − 3 |
| GoStrings.SplitNObjectPath | objectserver/nurserystabilizer.go:80-85 | `/account/container/object` splits with limit 4 into "", account, container, object, even when the object name holds '/' |
| GoStrings.SplitNKeepsTail | objectserver/nurserystabilizer.go:80-85 | "/a/c/o/x" splits into "", "a", "c", "o/x" |
| Consistency.Meta | objectserver/nurserystabilizer.go:79-106 | a metadata lookup, giving "" for a missing key as Go's map index does |
| Consistency.GoDiv | objectserver/nurserystabilizer.go:101 | Go's `/` on integers, which truncates toward zero |
| Consistency.StatusClass | objectserver/nurserystabilizer.go:101 | Go's truncating `status/100 == 2` holds exactly for statuses 200 to 299 |
| Consistency.IsGood | objectserver/nurserystabilizer.go:101-106 | an answer is good iff there is no transport error, the status is 2xx or 404, and the data timestamp is non-empty and equals the local one. The meta timestamp must also equal the local one |
| Consistency.IsSelf | objectserver/nurserystabilizer.go:92-94 | a node is skipped iff its IP and port are this device's; the drive name plays no part |
| Consistency.Peers | objectserver/nurserystabilizer.go:91-94 | the non-skipped nodes are exactly the listed nodes that are not at this device's address |
| Consistency.PeersCount | objectserver/nurserystabilizer.go:91-94 | skipping drops only the entries at this device's address, duplicates kept: the non-skipped nodes number the listed nodes less the self positions |
| Consistency.GoodCount | objectserver/nurserystabilizer.go:90-112 | the loop's `goodNodes` over the listed nodes: one per non-skipped node whose answer is good |
| Consistency.Locate | objectserver/nurserystabilizer.go:80-85 | the partition of the name's account, container and object when `SplitN` gives four pieces, and none otherwise |
| Consistency.Verdict | objectserver/nurserystabilizer.go:78-114 | `validateObj`: false for a malformed name or a handoff device, otherwise `goodNodes + 1 == ReplicaCount()` |
| Consistency.LocateNeedsThreeSeparators | objectserver/nurserystabilizer.go:80-85 | an object name has a partition iff it holds at least three '/' |
| Consistency.MalformedNameRejected | objectserver/nurserystabilizer.go:80-84 | a name with fewer than three '/' gives verdict false |
| Consistency.HandoffRejected | objectserver/nurserystabilizer.go:86-88 | a handoff device gives verdict false whatever the peers answer |
| Consistency.GoodCountAtMostPeers | objectserver/nurserystabilizer.go:90-112 | goodNodes is at most the number of non-skipped nodes, which is at most the number of listed nodes |
| Consistency.GoodCountAllPeers | objectserver/nurserystabilizer.go:90-112 | goodNodes reaches the number of non-skipped nodes iff every one of them answers good |
| Consistency.GoodCountIgnoresSelf | objectserver/nurserystabilizer.go:91-94 | answers of skipped nodes do not change goodNodes |
| Consistency.VerdictIgnoresSelfAnswers | objectserver/nurserystabilizer.go:91-94 | the verdict does not depend on what nodes at this device's address answer |
| Consistency.EveryPeerMustAgree | objectserver/nurserystabilizer.go:89-113 | with R − 1 non-skipped nodes and no handoff, the object is promoted iff every one of them answers good |
| Consistency.OneBadPeerBlocks | objectserver/nurserystabilizer.go:89-113 | with this device among at most R listed nodes, one non-skipped node with an answer that is not good makes the verdict false |
| Consistency.SharedAddressBlocks | objectserver/nurserystabilizer.go:91-113 | with at most R listed nodes, two of them at this device's address make the verdict false |
| Consistency.ScenarioLocate | objectserver/nurserystabilizer.go:80-85 | "/A/C/O" is located at the partition of (A, C, O) |
| Consistency.ScenarioBothAgree | objectserver/nurserystabilizer.go:89-113 | R = 3 and local D = M = 100. A 200 and a 404, both carrying D = 100 and M = 100: promoted |
| Consistency.ScenarioMetaMismatch | objectserver/nurserystabilizer.go:101-106 | the same, but one peer reports M = 99: not promoted |
| Consistency.ScenarioTimeout | objectserver/nurserystabilizer.go:99-101 | the same, but one peer times out: not promoted |
| NurseryStabilizer.MountAborts | objectserver/nurserystabilizer.go:118 | the pass stops when mounts are checked and the check fails or reports the path not mounted |
| NurseryStabilizer.Visited | objectserver/nurserystabilizer.go:126-143 | the objects checked in: none after a mount failure, otherwise all of them or up to the one after which the cancel signal is seen |
| NurseryStabilizer.PassStats | objectserver/nurserystabilizer.go:116-143 | the statistics one pass logs: `startRun`, one `checkin` per visited object, and `PassComplete` when the walk ends with the stream |
| NurseryStabilizer.Accepted | objectserver/nurserystabilizer.go:133-135 | the objects with a true verdict, in stream order |
| NurseryStabilizer.LoopStats | objectserver/nurserystabilizer.go:146-156 | the statistics of the passes run until the cancel signal is closed |
| NurseryStabilizer.LoopStabilized | objectserver/nurserystabilizer.go:146-156 | the objects stabilized by the passes run until the cancel signal is closed |
| NurseryStabilizer.PassStatsShape | objectserver/nurserystabilizer.go:116-143 | `startRun` comes first and exactly once. There is one `checkin` per object checked in. `PassComplete` comes once, last, exactly when the walk completes |
| NurseryStabilizer.MountFailureTouchesNothing | objectserver/nurserystabilizer.go:117-121 | after a failed mount check the pass logs only `startRun` and checks in no object |
| NurseryStabilizer.CancelStopsWalk | objectserver/nurserystabilizer.go:137-143 | cancellation seen after object k checks in k + 1 objects and logs no `PassComplete` |
| NurseryStabilizer.CancelSeenAt | objectserver/nurserystabilizer.go:137-141 | the walk is cut short iff there is an object after which the cancel signal is seen |
| NurseryStabilizer.UncanceledPassCompletes | objectserver/nurserystabilizer.go:126-143 | without mount failure or cancellation every object is checked in and `PassComplete` is logged |
| NurseryStabilizer.AcceptedExactly | objectserver/nurserystabilizer.go:133-135 | `Stabilize` is called on an object exactly as many times as it is delivered when its verdict is true, and never otherwise |
| NurseryStabilizer.StoppedIsTerminal | objectserver/nurserystabilizer.go:146-155 | once a round closes the cancel signal, the later rounds add no statistics and stabilize nothing |
| NurseryStabilizer.SinglePass | objectserver/nurserystabilizer.go:116-144 | a pass over one object without mount failure or cancellation logs `startRun`, `checkin`, `PassComplete` and stabilizes the object iff its verdict holds |
| NurseryStabilizer.NurseryDevice.constructor | objectserver/nurserystabilizer.go:162-173 | a new device scanner has an open cancel signal, empty logs and no semaphore slot held |
| NurseryStabilizer.NurseryDevice.Cancel | objectserver/nurserystabilizer.go:158-160 | closes the cancel signal and changes nothing else |
| NurseryStabilizer.NurseryDevice.UpdateStat | objectserver/nurserystabilizer.go:73-76 | appends one event to the statistics log |
| NurseryStabilizer.NurseryDevice.Stabilize | objectserver/nurserystabilizer.go:134 | records one call of `Stabilize` on the object |
| NurseryStabilizer.NurseryDevice.ValidateObj | objectserver/nurserystabilizer.go:78-114 | the loop's result is `Verdict` of the object's metadata |
| NurseryStabilizer.NurseryDevice.CheckObject | objectserver/nurserystabilizer.go:128-136 | `Stabilize` is called iff the verdict holds, and the semaphore count afterwards equals the count before |
| NurseryStabilizer.NurseryDevice.WalkObjects | objectserver/nurserystabilizer.go:126-143 | the walk logs one `checkin` per visited object, and `PassComplete` iff no cancellation was seen. It stabilizes exactly the accepted visited objects and leaves the semaphore as it found it |
| NurseryStabilizer.NurseryDevice.StabilizeDevice | objectserver/nurserystabilizer.go:116-144 | the new statistics are `PassStats` of the mount result, the cancel state and the stream. The new stabilized objects are the accepted ones among those visited |
| NurseryStabilizer.NurseryDevice.StabilizeLoop | objectserver/nurserystabilizer.go:146-156 | the rounds run until one closes the cancel signal. Its statistics and stabilized objects are `LoopStats` and `LoopStabilized` |
| NurseryStabilizer.ScenarioPassPromotes | objectserver/nurserystabilizer.go:116-144 | a new scanner's pass over "/A/C/O", both peers agreeing: the object is stabilized once and the log is `startRun`, `checkin`, `PassComplete` |
| NurseryStabilizer.ScenarioPassMetaMismatch | objectserver/nurserystabilizer.go:116-144 | the same pass with one peer reporting M = 99: nothing is stabilized and the log is the same |

## Left out

- HTTP request construction, URL formatting with `common.Urlencode`, the
  request headers, `client.Do` with its 10-second timeout, and closing
  response bodies. This is network I/O; a peer's answer is the input `Probe`.
- Ring internals. `GetPartition`, `GetJobNodes`, `GetNodes` and
  `ReplicaCount` are an external collaborator, modelled as fields of `Ring`.
- The producer goroutine `GetNurseryObjects`, its bounded channel and the
  pass's own cancel channel. The stream is a finite sequence.
- Real concurrency. The semaphore's capacity and blocking are not modelled;
  `sem` only counts the slots this device holds.
- Timing: the 10 ms `time.After` pacing, the 10 s sleep between passes, and
  `passStart`. Only their order relative to the cancel signal is modelled.
  Go picks at random when several select cases are ready. The model assumes
  that the select after an object sees a signal closed while that object
  was processed.
- `fs.IsMount` is filesystem I/O. Its two results are the input `MountCheck`.
- The zap logger, `deviceKey` and delivery on the stat channel. Statistics
  are an event log of their names; every amount is 1.
- The effect of `Object.Stabilize` on disk, which belongs to the object
  engine. Only the call is recorded.
- `goodNodes` is a `uint64`. It cannot overflow, because it is bounded by
  the node count (`Consistency.GoodCountAtMostPeers`). The model uses
  unbounded integers.
- NurseryStabilizer.NurseryDevice.StabilizeLoop: runs over a finite
  sequence of rounds instead of forever. Each round delivers its own
  objects, mount result, peer answers and cancel point.
- NurseryStabilizer.NurseryDevice.Cancel: the panic of closing an already
  closed channel is a precondition, not a modelled failure.
- GoStrings.SplitNLength: the piece count is stated for positive limits
  only. `SplitN` is defined for every limit, but the source splits only
  with limit 4.
- GoStrings.SplitN: works on characters rather than bytes. The separator
  '/' is ASCII and never occurs inside a multi-byte UTF-8 sequence, so the
  pieces are the same.
