# Redis: model and proofs

A model in Dafny of the parts of Redis 6.2.6 that are hardest to get right, with proofs of what they
promise. Each module says at its top what it models.

- `Crc64`, `DumpPayload`: the CRC-64 that guards DUMP payloads. The bit-serial definition, the
  eight-bytes-at-a-time routines for both byte orders and their tables are shown to compute one function;
  from its algebra follows which damage a payload's check finds.
- `ClusterElection`, `ClusterEpochs`, `ClusterSlots`, `SlotRanges`: the cluster protocol. Nodes and messages
  in flight form a state machine, and the theorems are about every run of it: one winner per epoch, epochs
  that stay ordered, tables that agree. Slot ranges are printed and loaded.
- `AofLog`, `AofFlush`, `AofRewrite`: the append only file. Commands are printed and read back from a file
  cut anywhere; writes may fall short or fail; a child rewrites the file while commands go on.
- `Blocked`: clients blocked on keys, the queue of ready keys and the loop that serves them.
- `Popcount`, `Bitpos`, `Bitfield`, `Geohash`: bit counting, bit search, integers of any width inside a
  string, and cells of the geohash grid.
- `AclUser`, `AclText`, `AclDescribe`, `AclFile`, `AclCheck`: users and their rules. Rules are parsed and
  applied, a user is printed as rules, and files of users are saved and loaded; what each rule means is said
  by who logs in afterwards and which commands may be run.
- `Options`: the type of a value that may be missing.

Code that changes state in C is a class or a method with loops here. Its contract ties the new state to a
function of the old one, and the theorems are about that function. Protocols are state machines over
`seq<Event>`: `IsRun` says that a sequence of events can happen, `Final` where it leads.

Properties one would expect turned out not to hold of the code. Each is kept as it is, shown by an
example, and proved under the exact condition:

- An answer to a vote request that arrives after an election was reset and before the next request is
  counted for the next election. One such answer is enough for two replicas to win one epoch if the number
  of masters is odd, two are if it is even, and fewer never are (`ClusterElection`).
- When the first command behind an RDB preamble is cut, the whole append only file is truncated, preamble
  included (`AofLog`).
- When a command is cut inside a MULTI, the MULTI stays in the file; what is appended later is queued behind
  it on the next load and then cut off (`AofLog`).
- A child that rewrites the append only file takes an interrupted last read for the end of the data; what
  is left in the pipe then is missing in the new file (`AofRewrite`).
- A key that exists and is set to a list, as SORT with STORE does, is not signalled, so a client that has
  blocked on it is not woken (`Blocked`).
- Clients that wait for something else than a list can overtake each other when a list is served in front
  of them and runs out between two of them (`Blocked`).
- SET in a signed field with saturation takes the wrong end for values far below the minimum, if signed
  arithmetic wraps around (`Bitfield`).
- A subcommand may contain spaces, and then the saved file of users does not give the user back (`AclFile`).

`dafny verify dfyconfig.toml` verifies all modules. Every path in the table is relative to the root of
the repository.

## Model

| member | source | states |
|---|---|---|
| Crc64.CrcReflect | redis-stable/src/crc64.c:69-78 | For a full word the loop reverses the 64 bits; the reference is a reversal written without a loop. |
| Crc64.ReflectInvolution | redis-stable/src/crc64.c:69-78 | Reversing twice gives the word back. |
| Crc64.BitSerialByte | redis-stable/src/crc64.c:88-108 | One input byte through the mask loop is eight polynomial steps on the unreflected register. |
| Crc64.BitSerialCrc | redis-stable/src/crc64.c:88-111 | The bit-serial routine computes its specification over every buffer, the final reflection included. |
| Crc64.ShiftsLinear | redis-stable/src/crc64.c:88-111 | The reflected step, any number of times, is linear over exclusive or. |
| Crc64.ShiftsInjective | redis-stable/src/crc64.c:88-111 | The step, any number of times, is injective: the polynomial is odd. |
| Crc64.UpdateConcat | redis-stable/src/crc64.c:88-123 | The checksum of a concatenation is the checksum of the second part started from that of the first. |
| Crc64.UpdateInjective | redis-stable/src/crc64.c:88-111 | Two registers that agree after the same bytes were equal before them. |
| Crc64.UpdateIsBitSerial | redis-stable/src/crc64.c:88-123 | For every register and buffer the reflected update equals the bit-serial routine on the reflected register; so `crc64(0, s)` is `_crc64(0, s)`. |
| Crc64.EntryNext | redis-stable/src/crcspeed.c:39-49 | A table entry of one column is that of the column before, pushed through one more zero byte. |
| Crc64.SliceBy8IsShifts | redis-stable/src/crcspeed.c:126-138 | Eight table look-ups combined are 64 register steps of the whole word. |
| Crc64.UpdateEight | redis-stable/src/crcspeed.c:126-138 | Eight bytes fed one by one have the effect of their little-endian word fed at once. |
| Crc64.LittleInit | redis-stable/src/crcspeed.c:33-50 | The tables filled from the bit-serial routine hold, at column k and byte n, the effect of n followed by k zero bytes. |
| Crc64.Little | redis-stable/src/crcspeed.c:112-144 | For every register, buffer and alignment the word-at-a-time routine returns the byte-at-a-time update. |
| Crc64.Rev8Portable | redis-stable/src/crcspeed.c:71-83 | The three-step byte swap is the reversal of the eight bytes. |
| Crc64.BigInit | redis-stable/src/crcspeed.c:87-95 | The big-endian tables are the little-endian ones with every entry byte-reversed. |
| Crc64.Big | redis-stable/src/crcspeed.c:183-213 | On byte-reversed tables, with big-endian loads, the routine returns the same update for every register, buffer and alignment. |
| Crc64.Crc64 | redis-stable/src/crc64.c:121-123 | The public routine, on either byte order, equals the bit-serial one. |
| Crc64.CheckValue | redis-stable/src/crc64.c:128-138 | The check value of this CRC-64, that of the nine bytes `123456789`, by both routines; it fixes the polynomial. |
| DumpPayload.CreateDumpPayload | redis-stable/src/cluster.c:5039-5066 | What is written is the object, the version and the checksum of both, little-endian on either byte order. |
| DumpPayload.VerifyDumpPayload | redis-stable/src/cluster.c:5072-5092 | A payload is accepted exactly if it is at least ten bytes long, not of a newer version, and its last eight bytes are the checksum of the rest or the check is switched off. |
| DumpPayload.WrittenIsAccepted | redis-stable/src/cluster.c:5039-5092 | Every payload that was written is accepted. |
| DumpPayload.FooterDecides | redis-stable/src/cluster.c:5072-5092 | A payload whose footer holds any version and any checksum is accepted exactly if the version is not newer and the checksum is right or not looked at. |
| DumpPayload.TooShort | redis-stable/src/cluster.c:5077-5079 | A payload too short for a footer is refused, whatever the setting. |
| DumpPayload.ChecksumIsResidue | redis-stable/src/cluster.c:5089-5091 | The checksum matches exactly if the register is zero after the whole payload. |
| DumpPayload.BurstIsDetected | redis-stable/src/cluster.c:5072-5092 | An accepted payload is rejected after any change confined to eight consecutive bytes, wherever they lie, the footer included. |
| DumpPayload.NineBytesCanBeHidden | redis-stable/src/cluster.c:5072-5092 | Eight is the limit: inside every accepted payload that has room for it, a change spread over nine consecutive bytes of the object exists that is not noticed. |
| ClusterElection.FailoverState.ReceiveHeader | redis-stable/src/cluster.c:1829-1834 | A header raises the current epoch to the sender's. |
| ClusterElection.FailoverState.SendFailoverAuthIfNeeded | redis-stable/src/cluster.c:2894-2995 | The vote is granted exactly under the conditions of the code, in their order, and recorded in the last vote epoch. |
| ClusterElection.FailoverState.ReceiveAck | redis-stable/src/cluster.c:2175-2187 | A vote is counted exactly if its sender is a master that serves slots and its epoch is not below that of the election. |
| ClusterElection.FailoverState.SlaveFailover | redis-stable/src/cluster.c:3134-3303 | The reset of an expired election, the request for votes in a new epoch and the promotion at a quorum, as a function of the old state. |
| ClusterElection.GrantedExactly | redis-stable/src/cluster.c:2894-2995 | A vote is granted exactly if the epoch is not behind and no vote was given in it, the sender is a replica of a known master that has failed or forces its request, the voter serves slots and has not voted for that master's replicas for twice the node timeout, and no claimed slot has an owner under a newer epoch; then it is recorded, and nothing else changes but the current epoch. |
| ClusterElection.CountedExactly | redis-stable/src/cluster.c:2175-2187 | An answer raises the current epoch and counts exactly if a master with slots sent it in an epoch that is not before the election. |
| ClusterElection.AsksExactly | redis-stable/src/cluster.c:3134-3268 | Votes are asked for exactly by a replica of a known master with slots that has failed or is to be replaced by hand, with recent data, when its time has come and is not over, the delay by a worse rank included. |
| ClusterElection.RetriesLate | redis-stable/src/cluster.c:3150-3217 | A replica that may fail over sets up an election anew exactly after twice the timeout of the last one; then no vote is counted, no request sent, and the epoch stays. |
| ClusterElection.BetterRankFirst | redis-stable/src/cluster.c:3206-3217 | Of two replicas that schedule at one time, the one with the better rank asks first, whatever the random delays, and none within half a second. |
| ClusterElection.WorseRankDelays | redis-stable/src/cluster.c:3238-3254 | A rank that gets worse meanwhile delays the start as if it had been known from the first. |
| ClusterElection.ByHandAtOnce | redis-stable/src/cluster.c:3218-3224 | A failover by hand that was scheduled and may start asks for votes at once. |
| ClusterElection.PromotedExactly | redis-stable/src/cluster.c:3270-3303 | A replica is promoted exactly with more than half of the masters' votes, and then its config epoch is at least that of its election. |
| ClusterElection.StepInv | redis-stable/src/cluster.c:2894-2995 | Every event of the protocol keeps: one vote per master and epoch, answers in flight backed by votes, counts made of distinct voters plus stale answers, wins backed by a quorum of counts. |
| ClusterElection.RunInv | redis-stable/src/cluster.c:2894-2995 | These hold after every run. |
| ClusterElection.WinsAreSound | redis-stable/src/cluster.c:2894-3303 | Over every run: each winner is a master under the epoch of its election or a newer one, and no voter that supported it knew a claimed slot to be served under a newer epoch than that of the request, or its master to be up unless the request was forced. |
| ClusterElection.SameEpochWinsNeedStaleAcks | redis-stable/src/cluster.c:3270-3299 | Two winners of one epoch must together have counted at least as many stale answers as two quorums exceed the electorate, so at least one. |
| ClusterElection.RunStale | redis-stable/src/cluster.c:3206-3217 | Over every run, the stale answers a replica has counted are at most those that arrived for it between the reset of an election and its next request. |
| ClusterElection.ElectionSafety | redis-stable/src/cluster.c:3206-3299 | Over every interleaving in which fewer answers arrive in that window than two quorums exceed the electorate, two different replicas never win the same epoch. |
| ClusterElection.ElectionSafetyExactly | redis-stable/src/cluster.c:3134-3303 | For every non-empty electorate: all runs with at most k such answers have one winner per epoch if and only if k is less than one if the number of masters is odd, than two if it is even. |
| ClusterElection.StaleWindowBreaksSafety | redis-stable/src/cluster.c:3206-3217 | For every non-empty electorate there is a run from the start, with one such answer if it is odd and two if even, in which two replicas win epoch 2. |
| ClusterSlots.ConsistentDetermines | redis-stable/src/cluster.c:3845-3917 | A consistent table determines every node's bitmap and count. |
| ClusterSlots.SlotTable.NodeSetSlotBit | redis-stable/src/cluster.c:3845-3867 | Sets the bit and counts it only if it was clear; returns the old bit. |
| ClusterSlots.SlotTable.NodeClearSlotBit | redis-stable/src/cluster.c:3870-3875 | Clears the bit and uncounts it only if it was set; returns the old bit. |
| ClusterSlots.SlotTable.AddSlot | redis-stable/src/cluster.c:3886-3891 | Binds a free slot and refuses one that is taken; owner, bitmap and count stay consistent. |
| ClusterSlots.SlotTable.DelSlot | redis-stable/src/cluster.c:3896-3903 | Frees a slot and refuses one that is free; owner, bitmap and count stay consistent. |
| ClusterSlots.SlotTable.DelNodeSlots | redis-stable/src/cluster.c:3907-3917 | Frees exactly the node's slots and returns how many there were. |
| ClusterSlots.SlotTable.UpdateSlotsConfigWith | redis-stable/src/cluster.c:1635-1741 | Rebinds exactly the claimed slots that are free or served under an older epoch and not being imported; says exactly when this node becomes a replica of the claimant, which slots became dirty, and that without a known master a claim for a free slot dereferences NULL; the table stays consistent. |
| ClusterSlots.ReboundExactly | redis-stable/src/cluster.c:1660-1690 | After a claim a slot is the claimant's exactly if it was, or it is claimed, not being imported, and free or held under an older epoch; else it is whose it was. |
| ClusterSlots.CleanMeansNoChange | redis-stable/src/cluster.c:2058-2073 | If the sender's bitmap is as the table has it, processing the claim would change nothing: leaving it out is sound. |
| ClusterSlots.DeliverSettled | redis-stable/src/cluster.c:1829-1840 | Each delivery keeps every slot bound to the best of the claims heard so far. |
| ClusterSlots.Confluence | redis-stable/src/cluster.c:1635-1741 | Every claim delivered at least once, in any order, with any repetitions: each slot ends up with its claimant of the highest epoch. |
| ClusterSlots.NodesAgree | redis-stable/src/cluster.c:1635-1741 | Two nodes that heard all claims have the same table, whatever the orders. |
| SlotRanges.RunsAreMaximal | redis-stable/src/cluster.c:4204-4227 | The ranges of a bitmap cover exactly its set bits, in order, with a gap between neighbours. |
| SlotRanges.ScanBitmap | redis-stable/src/cluster.c:4204-4227 | The scan of one node's bitmap yields its maximal ranges. |
| SlotRanges.GenNodesSlotsInfo | redis-stable/src/cluster.c:4250-4279 | The single pass over the slot table gives every node the ranges that a scan of its own bitmap gives. |
| SlotRanges.DescribeSlots | redis-stable/src/cluster.c:4204-4227 | What the pass prints for a node is what a scan of its own bitmap would. |
| SlotRanges.LoadLine | redis-stable/src/cluster.c:247-292 | Loading a node's ranges binds exactly their slots that are free, and the table stays consistent. |
| SlotRanges.PrintThenLoad | redis-stable/src/cluster.c:247-292 | Loading the ranges printed for any set of nodes rebuilds the slot table restricted to those nodes. |
| ClusterEpochs.EpochState.ReceiveHeader | redis-stable/src/cluster.c:1829-1840 | A header from a known sender raises the current epoch and the sender's config epoch. |
| ClusterEpochs.EpochState.GetMaxEpoch | redis-stable/src/cluster.c:1058-1071 | Returns the greatest epoch in the node's table and the current one. |
| ClusterEpochs.EpochState.BumpConfigEpochWithoutConsensus | redis-stable/src/cluster.c:1102-1119 | Takes a new epoch exactly if this node's is zero or not the greatest. |
| ClusterEpochs.EpochState.HandleConfigEpochCollision | redis-stable/src/cluster.c:1167-1182 | Of two masters with one epoch the one with the smaller name takes a new one. |
| ClusterEpochs.EpochState.ProcessGossipSection | redis-stable/src/cluster.c:1431-1526 | In place, names that are new and not refused are entered as the sender flags them. |
| ClusterEpochs.EpochState.ReceivePing | redis-stable/src/cluster.c:1824-2125 | In place, header, end of a handshake, role, collision and gossip: an entry in handshake is dropped if the sender is known already and else takes its name. |
| ClusterEpochs.EpochState.ReceiveUpdate | redis-stable/src/cluster.c:2206-2222 | An UPDATE raises the config epoch of the node it reports on. |
| ClusterEpochs.HeaderTeaches | redis-stable/src/cluster.c:1829-1840 | After a header of a trusted sender its entry has the greater of the old and the announced config epoch, the current epoch is the greater of both, and all other entries are as they were. |
| ClusterEpochs.RoleTeaches | redis-stable/src/cluster.c:2013-2049 | A sender that names no master is a master, one that names a master is none; its link is the master named if that is known, else the old one. |
| ClusterEpochs.GossipExactly | redis-stable/src/cluster.c:1431-1526 | Gossip enters exactly the names that are new and not refused, flagged as told and without an epoch, and changes no entry. |
| ClusterEpochs.GossipOfExactly | redis-stable/src/cluster.c:2600-2656 | The gossip sent is about exactly the nodes picked that are known, not in handshake and not the sender itself. |
| ClusterEpochs.HandshakeEnds | redis-stable/src/cluster.c:1923-1950 | The end of a handshake drops the entry if the sender is known, and else gives it the sender's name and role; all links follow. |
| ClusterEpochs.MismatchIsIgnored | redis-stable/src/cluster.c:1951-1968 | A ping from another node than the one the link leads to teaches its header and nothing else. |
| ClusterEpochs.MovesExactly | redis-stable/src/cluster.c:2117-2126 | A known sender moves this node's epochs exactly if both are masters of the same config epoch and this node has the smaller name; then it takes the next one. |
| ClusterEpochs.PingSeparates | redis-stable/src/cluster.c:1824-2125 | Of two masters of one config epoch, the one with the smaller name that hears from the other takes a new epoch above all it knows; the other keeps its own. |
| ClusterEpochs.PingTeaches | redis-stable/src/cluster.c:1824-2125 | Whatever else a ping does, the sender's entry is at least at the epoch it announced. |
| ClusterEpochs.PingGrows | redis-stable/src/cluster.c:1824-2125 | No ping lowers the config epoch of a node out of handshake, or drops it. |
| ClusterEpochs.UpdateTeaches | redis-stable/src/cluster.c:2206-2222 | An update of a known sender raises the entry it is about to the epoch reported if it was below, and then that node is no replica; every other entry is as the header leaves it, and an unknown sender changes nothing. |
| ClusterEpochs.HeaderAnnounces | redis-stable/src/cluster.c:2434-2480 | A header announces the config epoch of the sender's master, or its own. |
| ClusterEpochs.MaxIsCurrent | redis-stable/src/cluster.c:1058-1071 | With the invariant, the greatest epoch known is the current one. |
| ClusterEpochs.NextEpochIsAbove | redis-stable/src/cluster.c:1102-1182 | A unilateral bump or a collision moves this node above every epoch it knows. |
| ClusterEpochs.RefusedBumpIsGreatest | redis-stable/src/cluster.c:1102-1119 | A refused bump means that this node holds the greatest epoch. |
| ClusterEpochs.CollisionSeparates | redis-stable/src/cluster.c:1167-1182 | After a collision the two masters have different epochs and only one of them moved. |
| ClusterEpochs.PingKeeps | redis-stable/src/cluster.c:1824-2125 | Processing any ping, on any link, keeps the epochs below the current one and the names of senders out of handshake. |
| ClusterEpochs.HandshakeKeeps | redis-stable/src/cluster.c:1923-1950 | So does the end of a handshake, dropped or renamed. |
| ClusterEpochs.GossipKeeps | redis-stable/src/cluster.c:1431-1526 | So does gossip of any length, since it carries no node in handshake. |
| ClusterEpochs.GossipIsOk | redis-stable/src/cluster.c:2600-2656 | Whatever nodes are picked, the gossip sent carries none in handshake. |
| ClusterEpochs.UpdateKeepsExactly | redis-stable/src/cluster.c:2206-2222 | Of the handler alone: an UPDATE keeps the epochs in order if and only if it is not a report of a newer epoch by a sender in handshake. |
| ClusterEpochs.UpdateKeeps | redis-stable/src/cluster.c:2206-2222 | No sender's name is in handshake, so every UPDATE of the protocol keeps them in order. |
| ClusterEpochs.LoadRepairs | redis-stable/src/cluster.c:296-312 | Whatever epochs a configuration file holds, loading leaves none above the current one. |
| ClusterEpochs.RestartKeeps | redis-stable/src/cluster.c:336-345 | A file that was saved, without the nodes in handshake, loads into a state that satisfies the invariants. |
| ClusterEpochs.SavedThenLoaded | redis-stable/src/cluster.c:228-345 | What was saved loads into the same entries and the same epoch, without those in handshake; every master named has an entry. |
| ClusterEpochs.SoftResetForgets | redis-stable/src/cluster.c:568-620 | A soft reset leaves a master that knows only itself, with its epochs. |
| ClusterEpochs.InitOk | redis-stable/src/cluster.c:485-560 | Nodes that know only themselves satisfy the invariants. |
| ClusterEpochs.HardResetExactly | redis-stable/src/cluster.c:568-620 | CLUSTER RESET HARD leaves no config epoch above the current one, but that of the last election the node had started is above it, exactly if there was one. |
| ClusterEpochs.StepKeeps | redis-stable/src/cluster.c:1058-2222 | Every event, restarts from an old file included, keeps the invariants at every node, in every file and on the wire. |
| ClusterEpochs.GlobalEpochInvariant | redis-stable/src/cluster.c:1058-2480 | In every state reached from nodes that know only themselves, every config epoch in a table or in a message is at most the accompanying current epoch, so the next epoch taken is above all that the node knows; and no entry in handshake bears the name of a node. |
| ClusterEpochs.StepGrows | redis-stable/src/cluster.c:1058-2480 | No event lowers an epoch that a node holds for a node of the cluster, but a forget of that node, a reset or a restart. |
| ClusterEpochs.LearnsAndKeeps | redis-stable/src/cluster.c:1058-2480 | Over every run: after a ping of a node, or an update about it, its entry at the receiver is at least at that epoch as long as the receiver does not forget it. |
| ClusterEpochs.WonEpochIsAbove | redis-stable/src/cluster.c:3096-3303 | The epoch of an election that was started and won is the current one and above all that was known before. |
| AofLog.CatAppendOnlyGenericCommand | redis-stable/src/aof.c:552-575 | The loop appends the printed form of the command, whatever bytes its arguments hold. |
| AofLog.ParseDec | redis-stable/src/aof.c:552-575 | A printed length reads back as the number, whatever follows it is not a digit. |
| AofLog.ParseSigned | redis-stable/src/aof.c:829-852 | Blanks before a number are skipped and a sign is understood, as the C library does. |
| AofLog.PrintsPing | redis-stable/src/aof.c:552-575 | The text of a command, byte for byte. |
| AofLog.FGets | redis-stable/src/aof.c:822-845 | Reads to the end of the line, the buffer or the file, whichever comes first. |
| AofLog.LoadAppendOnlyFile | redis-stable/src/aof.c:753-960 | From any offset behind a preamble, the loop computes the specification of loading: commands run, offsets kept, and how it ends. |
| AofLog.FormatErrorStops | redis-stable/src/aof.c:822-972 | Behind any whole commands a byte other than `*` ends the loading with a format error under both settings; exactly the commands before it were run and the file is left alone. |
| AofLog.BadArgumentStops | redis-stable/src/aof.c:838-852 | The same for an argument that does not start with `$`, behind any whole arguments. |
| AofLog.NoArgumentsStops | redis-stable/src/aof.c:829-832 | The same for a command announced without arguments. |
| AofLog.NoCountStops | redis-stable/src/aof.c:829-936 | A null character for the number of arguments is an unrecoverable error, unless the file ends in this line; then it counts as cut. |
| AofLog.NegativeLength | redis-stable/src/aof.c:849-862 | A negative length cannot be read. |
| AofLog.UnknownStops | redis-stable/src/aof.c:870-878 | A whole command that is not known ends the loading; all in front of it was run and nothing behind it. |
| AofLog.SettingDecides | redis-stable/src/aof.c:928-966 | For every file the setting decides one thing only: whether a file that ends too early is truncated or refused. |
| AofLog.GroupWords | redis-stable/src/aof.c:880-895 | MULTI and EXEC are recognized in any case of their letters. |
| AofLog.ParseCommandCut | redis-stable/src/aof.c:807-890 | A printed command, cut at any byte, parses as itself if it is whole and as a short read otherwise, even if a cut length reads as a smaller number. |
| AofLog.CutLogRecovers | redis-stable/src/aof.c:753-960 | A printed log behind a preamble of any length, cut at any byte: exactly the complete commands run, and the offset kept is recorded behind them, or, for a clean cut inside a group, in front of the last MULTI. |
| AofLog.KeptExactly | redis-stable/src/aof.c:753-960 | That offset is the end of the commands kept if and only if there is no preamble or at least one command is kept. |
| AofLog.KeptFile | redis-stable/src/aof.c:936-950 | What is left of the file: preamble and commands kept, or nothing at all. |
| AofLog.PreambleLost | redis-stable/src/aof.c:758-800 | An example: a preamble and a command cut after one byte; the offset kept is 0 and the preamble is gone. |
| AofLog.RoundTrip | redis-stable/src/aof.c:552-960 | An uncut log without an open group loads cleanly and completely. |
| AofLog.PlainAfter | redis-stable/src/aof.c:807-890 | Commands without MULTI and EXEC take effect one by one, unless a group is open in front of them: then all of them join it. |
| AofLog.PlainEffect | redis-stable/src/aof.c:807-890 | Without MULTI and EXEC all commands take effect, in order. |
| AofLog.CleanCutInsideGroup | redis-stable/src/aof.c:907-915 | On a clean cut inside a group the offset kept is that of the group's MULTI if and only if no further MULTI follows it and it is not the first command behind a preamble. |
| AofLog.TruncatedLogReloads | redis-stable/src/aof.c:926-950 | For every cut, loading the file cut where loading says leaves the same preamble and the same effect if and only if there was no preamble or a command is kept; the effect of the commands alone is always the same. It is clean if and only if no command was cut inside a group and, on a clean cut inside one, no second MULTI follows the one that opened it. |
| AofLog.LaterCommands | redis-stable/src/aof.c:907-950 | Commands appended to the truncated file take effect on the next load if and only if no group is open behind what was kept; otherwise that load cuts them off. |
| AofLog.DanglingMulti | redis-stable/src/aof.c:907-950 | An example: a MULTI and a command cut after one byte; a command appended later does not take effect and is cut off. |
| AofFlush.AppendOnlyFile.AofWrite | redis-stable/src/aof.c:322-339 | Any sequence of short writes and interruptions writes a prefix of the buffer and returns its length or an error. |
| AofFlush.AppendOnlyFile.FlushAppendOnlyFile | redis-stable/src/aof.c:360-517 | The flush, with postponing, partial writes and undoing them, as a function of the state and of what the system calls answer. |
| AofFlush.FlushConserves | redis-stable/src/aof.c:405-517 | File followed by buffer is unchanged, the recorded size is the real one and the file only grows; a flush that succeeds empties the buffer. |
| AofFlush.ExitOnlyWhenAlways | redis-stable/src/aof.c:440-492 | The server exits only under the policy `always`, after a failed write. |
| AofFlush.ExitConserves | redis-stable/src/aof.c:440-492 | When the server gives up after a failed write, the file holds a beginning of the bytes fed and the end of the buffer the rest. |
| AofFlush.RunConserves | redis-stable/src/aof.c:322-517 | Over every run of feeds and flushes under any policy, whatever fails: while the server runs, file and buffer together hold exactly the bytes fed; when it has given up, the file holds a beginning of them and the buffer the rest. |
| AofFlush.WrittenExactly | redis-stable/src/aof.c:322-339 | A write fails exactly if an error comes before all its bytes are taken; interruptions do not matter. |
| AofFlush.WritesExactly | redis-stable/src/aof.c:405-517 | A flush without an error puts everything into the file; after one the file is as before if it could be truncated, and else the written part has left the buffer. |
| AofFlush.WaitsForSync | redis-stable/src/aof.c:384-400 | Under `everysec` a flush that is not forced waits for a sync in progress and only remembers since when. |
| AofFlush.NeverPutOff | redis-stable/src/aof.c:384-400 | Under another policy, when forced, or without a sync in progress no flush is put off. |
| AofFlush.PutOffAtMostTwoSeconds | redis-stable/src/aof.c:384-433 | Over every run with a clock that does not go back: as long as all flushes are put off, less than two seconds pass. |
| AofRewrite.RewriteBuffer.Size | redis-stable/src/aof.c:79-90 | The loop returns the length of the contents. |
| AofRewrite.RewriteBuffer.Append | redis-stable/src/aof.c:125-171 | Appending fills the last block and then new ones; the contents grow by exactly the bytes given. |
| AofRewrite.RewriteBuffer.WriteDiffData | redis-stable/src/aof.c:95-122 | Whatever the pipe takes, it takes a prefix of the contents, and the rest stays in order. |
| AofRewrite.DrainsAll | redis-stable/src/aof.c:95-122 | A pipe that takes a block at each write takes the whole list. |
| AofRewrite.DrainsSome | redis-stable/src/aof.c:95-122 | A part of the first block that the pipe takes at the first write leaves the list, and no more. |
| AofRewrite.RewriteBuffer.BufferWrite | redis-stable/src/aof.c:176-196 | Succeeds if and only if every block is written in full, and then puts out the contents, in order. |
| AofRewrite.Parent.FeedAppendOnlyFile | redis-stable/src/aof.c:613-679 | A command goes, with a SELECT if the database changed, to the log buffer and, while a child runs, to the rewrite buffer. |
| AofRewrite.Parent.ChildPipeReadable | redis-stable/src/aof.c:1680-1701 | The stop byte from the child stops the sending of differences and is acknowledged. |
| AofRewrite.Parent.BackgroundRewriteDone | redis-stable/src/aof.c:1851-1972 | After a child that succeeded it switches exactly if the file opens, every block is written, and sync and rename succeed, and else says which failed; the new state as a function of the old one. |
| AofRewrite.FeedKeepsPlaces | redis-stable/src/aof.c:613-640 | Replayed from any database, what was fed puts every command in its own database. |
| AofRewrite.SwitchedFile | redis-stable/src/aof.c:1851-1972 | The new file is the snapshot followed by exactly what was fed since the fork if and only if the child left nothing in the pipe. |
| AofRewrite.FailedSwitch | redis-stable/src/aof.c:1851-1972 | After every run, any failure before the switch leaves the old file and the log buffer as they were, and they still hold everything fed since the file was last replaced if they did. |
| AofRewrite.StepInv | redis-stable/src/aof.c:1439-1645 | Every event, in any order, keeps: bytes read by the child, in the pipe and still buffered are together those fed since the fork. All finished children have read everything until, and only until, one finishes with data in the pipe. |
| AofRewrite.RewriteIsLossless | redis-stable/src/aof.c:1584-1972 | Over every interleaving, the switch leaves the snapshot followed by all that was fed since the fork if and only if nothing is left in the pipe; and what was fed replays exactly the commands run since the fork. |
| AofRewrite.LogIsComplete | redis-stable/src/aof.c:613-679 | In every reachable state with the log on, file and buffer hold everything fed since the file was last replaced if and only if nothing was left in the pipe then, so in particular if every finished child had read to the end; and that replays everything run since. |
| AofRewrite.InterruptedRead | redis-stable/src/aof.c:1439-1449 | A run of eight events, for any command, in which a child finishes with the command in the pipe and the new file is without it. |
| Blocked.BlockKeeps | redis-stable/src/blocked.c:631-674 | Blocking keeps the two indexes and the counters in agreement, also if a key is given twice. |
| Blocked.BlockWaiters | redis-stable/src/blocked.c:631-674 | The client goes last in line for each of its keys, and into no other line. |
| Blocked.UnblockIndex | redis-stable/src/blocked.c:678-712 | Unblocking keeps the indexes in agreement and leaves no empty line. |
| Blocked.UnblockCounts | redis-stable/src/blocked.c:179-213 | Unblocking keeps the counters and lowers the number of blocked clients by one. |
| Blocked.SignalReady | redis-stable/src/blocked.c:731-767 | A signal keeps the ready keys equal to the queued ones, each queued once. |
| Blocked.SignalWakes | redis-stable/src/blocked.c:731-767 | The quick returns never skip a key for which a list client waits. |
| Blocked.SignalExactly | redis-stable/src/blocked.c:731-767 | A signal queues the key exactly if somebody waits for it, it is not queued already, and some client waits for values of its type or of a module's. |
| Blocked.MoveWakes | redis-stable/src/t_list.c:880-931 | A key that gets its first element as the target of a move is queued if a list client waits for it. |
| Blocked.ServeLoopKeeps | redis-stable/src/blocked.c:267-324 | The loop keeps all invariants and stops only with the list empty or no list client in line. |
| Blocked.ServedInOrder | redis-stable/src/blocked.c:267-324 | The clients served are, in order, the list clients among those looked at. |
| Blocked.LineAfterwards | redis-stable/src/blocked.c:267-324 | What the line is afterwards: those not looked at, then those looked at that wait for something else, in their order. |
| Blocked.StopsWhenEmpty | redis-stable/src/blocked.c:267-324 | All in line are looked at unless the list runs empty. |
| Blocked.LinesInBlockingOrder | redis-stable/src/blocked.c:267-324 | After every run from the empty server, the list clients of each line stand in the order in which they blocked. |
| Blocked.HandleInTurns | redis-stable/src/blocked.c:549-602 | However many keys become ready meanwhile, a client is served only after all list clients ahead of it in that line, and those that still wait keep their places. |
| Blocked.FirstBlockedFirstServed | redis-stable/src/blocked.c:267-324 | After every run, when the ready keys are handled and a client is served from a key, every list client that waits for this key and had blocked earlier has been served before. |
| Blocked.VisitedIsStop | redis-stable/src/blocked.c:267-324 | Where a pass stops, told from the line, the targets of its clients and the length of the list alone. |
| Blocked.StopIs | redis-stable/src/blocked.c:267-324 | That is at the first list client for which those ahead of it, not counting moves within the list and to keys of another type, leave no element. |
| Blocked.OtherKindsInOrder | redis-stable/src/blocked.c:275-284 | A pass keeps the order among the clients of another kind if and only if no two of them stand before and behind that place. |
| Blocked.LastOvertakesFirst | redis-stable/src/blocked.c:275-284 | A run of ten events in which, of two clients that wait for a sorted set, the one that blocked last gets ahead of the one that blocked first. |
| Blocked.HandleServesAll | redis-stable/src/blocked.c:549-602 | The handling of ready keys ends with an empty queue, and no list with elements has a list client in line. |
| Blocked.HandleServes | redis-stable/src/blocked.c:549-602 | Every client is served at most once and told once, only list clients are served, and no element is lost or doubled. |
| Blocked.ReplyIsTrue | redis-stable/src/t_list.c:880-931 | A served client is told the first element if it pops at the head and the last if at the tail; then this element is gone from there, or it stands besides at the wanted end of the target, or nothing changed because the target is of another type. |
| Blocked.HandleAccounts | redis-stable/src/blocked.c:549-602 | The replies of a whole handling, in their order, explain it: each names the element that stood then at its client's end of the list, and doing to the lists what they say gives the lists as they are afterwards. |
| Blocked.StepKeeps | redis-stable/src/blocked.c:631-767 | Every event keeps the indexes, counters and queue; and it keeps every list client of a list with elements queued if and only if it is not the setting of an existing key to a list for which a client waits unqueued. |
| Blocked.RunKeeps | redis-stable/src/blocked.c:89-213 | So it is over every run from the empty server. |
| Blocked.NoWakeUpLost | redis-stable/src/blocked.c:549-602 | After every run that loses no wake-up in that way, handling the queue leaves no list client waiting for a list with elements. |
| Blocked.CanAlwaysHandle | redis-stable/src/blocked.c:549-602 | In every reachable state the queue is in order and can be handled. |
| Blocked.OverwriteLosesWakeUp | redis-stable/src/db.c:259-268 | A client that waits for a key, which is set to another type and then overwritten by a list, is not woken. |
| Blocked.WaitingIsReachable | redis-stable/src/blocked.c:631-674 | The state of that example is reached by connecting and blocking. |
| Blocked.Server.SignalKeyAsReady | redis-stable/src/blocked.c:731-767 | In place, the signal of the specification. |
| Blocked.Server.BlockOn | redis-stable/src/blocked.c:631-674 | In place, the blocking of the specification, key by key. |
| Blocked.Server.UnblockWaitingData | redis-stable/src/blocked.c:678-712 | Takes the client off exactly the lines it stands in and deletes lines that become empty. |
| Blocked.Server.Unblock | redis-stable/src/blocked.c:179-213 | In place, the unblocking of the specification. |
| Blocked.Server.ServeBlockedOnList | redis-stable/src/t_list.c:880-931 | Pops for a client and answers, moves, or undoes the pop if the target is no list. |
| Blocked.Server.ServeClientsBlockedOnListKey | redis-stable/src/blocked.c:267-324 | The loop computes the specification and never looks past the end of the line, although lines shrink and go away meanwhile. |
| Blocked.Server.HandleClientsBlockedOnKeys | redis-stable/src/blocked.c:549-602 | The nested loops compute the specification and end: each round unblocks a client or empties the queue. |
| Popcount.SwarIsLanes | redis-stable/src/bitops.c:66-79 | The three masked additions leave in each byte of a word the number of its set bits. |
| Popcount.SwarSumIsLanes | redis-stable/src/bitops.c:80-86 | Seven such words are added without a carry from one byte to the next. |
| Popcount.LaneTotalIs | redis-stable/src/bitops.c:80-86 | The product and the shift give the sum of the four bytes, for bytes up to 56. |
| Popcount.GroupBitsIs | redis-stable/src/bitops.c:54-87 | The count of a group of 28 bytes is its number of set bits. |
| Popcount.RedisPopcount | redis-stable/src/bitops.c:40-92 | For every string and alignment the result is the number of set bits. |
| Bitpos.WordBit | redis-stable/src/bitops.c:144-180 | The bit under the moving mask is the bit of the string at that position. |
| Bitpos.SkipAhead | redis-stable/src/bitops.c:118-143 | Nothing that is skipped holds the bit, and a whole word where it stops does. |
| Bitpos.ScanWord | redis-stable/src/bitops.c:172-185 | The scan finds the bit within the word: the end that would stop the server is not reached. |
| Bitpos.RedisBitpos | redis-stable/src/bitops.c:101-186 | The first position of the bit in the zero-padded string; -1 if and only if a one is sought and there is none. |
| Bitfield.ValueOfDigits | redis-stable/src/bitops.c:209-241 | The lower n bits written and read back give the number modulo 2^n. |
| Bitfield.DigitsOfValue | redis-stable/src/bitops.c:209-241 | A row of bits is determined by the number it reads as. |
| Bitfield.SetUnsignedBitfield | redis-stable/src/bitops.c:209-222 | The bits of the field are those of the value, all others stay. |
| Bitfield.SetSignedBitfield | redis-stable/src/bitops.c:224-227 | The same for the two's complement of a signed value. |
| Bitfield.GetUnsignedBitfield | redis-stable/src/bitops.c:229-241 | The number that the bits of the field stand for; no shift loses a bit. |
| Bitfield.GetSignedBitfield | redis-stable/src/bitops.c:243-263 | The same in two's complement, for every width up to 64. |
| Bitfield.ReducedIs | redis-stable/src/bitops.c:314-377 | The wrapped value can be represented and differs from the exact one by a multiple of 2^bits. |
| Bitfield.CheckUnsignedIs | redis-stable/src/bitops.c:288-323 | For every value in range and every increment the check gives exact, wrapped, clamped or no value, as the policy promises. |
| Bitfield.CheckSignedIs | redis-stable/src/bitops.c:325-377 | The same for signed fields of 1 to 64 bits; the sums that may overflow are not used when they do. |
| Bitfield.ReadBack | redis-stable/src/bitops.c:209-263 | A value that fits is read back after it was stored. |
| Bitfield.IncrBy | redis-stable/src/bitops.c:1054-1113 | INCRBY stores and returns the promised value and leaves all other bits; under FAIL nothing changes. |
| Bitfield.CheckUnsignedSet | redis-stable/src/bitops.c:288-323 | A value to be set in an unsigned field is treated as the policy promises for its 64-bit pattern. |
| Bitfield.SetSignedExactly | redis-stable/src/bitops.c:325-377 | For a value to be set in a signed field the check does what is promised if and only if it is not a saturation with the maximum minus the value beyond a signed word. |
| Bitfield.SaturatedUpwards | redis-stable/src/bitops.c:332-335 | The least 64-bit value, saturated to eight bits, becomes 127 instead of -128. |
| Bitfield.SetTo | redis-stable/src/bitops.c:1054-1113 | SET returns the old value and stores the promised one, or the wrong end in exactly that case; all other bits stay. |
| Bitfield.GetFrom | redis-stable/src/bitops.c:1115-1147 | GET reads, through a copy of at most nine bytes, the field of the zero-padded string. |
| Bitfield.MakeRoom | redis-stable/src/bitops.c:480-493 | The string is made long enough, and no bit of the padded string changes. |
| Geohash.EvenBits | redis-stable/src/geohash.c:52-77 | Bit i of the first number goes to position 2i. |
| Geohash.OddBits | redis-stable/src/geohash.c:52-77 | Bit i of the second number goes to position 2i + 1. |
| Geohash.DeinterleaveOfInterleave | redis-stable/src/geohash.c:52-110 | Taking apart what was put together gives both numbers back. |
| Geohash.InterleaveOfDeinterleave | redis-stable/src/geohash.c:52-110 | Putting together what was taken apart gives the word back. |
| Geohash.MoveXIs | redis-stable/src/geohash.c:228-246 | For steps 1 to 32 and any word, a move along x is the next or previous longitude index modulo 2^step. |
| Geohash.MoveYIs | redis-stable/src/geohash.c:248-264 | The same along y for the latitude index. |
| Geohash.MovedInGrid | redis-stable/src/geohash.c:228-264 | Inside the grid a move is to the next cell or the one before, around the edge, and stays inside. |
| Geohash.Cell.GoX | redis-stable/src/geohash.c:228-246 | In place, the move along x. |
| Geohash.Cell.GoY | redis-stable/src/geohash.c:248-264 | In place, the move along y. |
| Geohash.Neighbours | redis-stable/src/geohash.c:266-299 | For every word, each of the eight neighbours is the interleaving of the two indexes moved in its direction. |
| AclUser.RuleOk | redis-stable/src/acl.c:825-1014 | Every rule, accepted or not, keeps what a user must be: bits without a command follow the reserved bit, subcommands only of commands not allowed, no duplicates, no patterns beside a star, no passwords beside nopass, well-formed hashes. |
| AclUser.RunOk | redis-stable/src/acl.c:825-1014 | So it is after every sequence of rules. |
| AclUser.ParseFacts | redis-stable/src/acl.c:825-1014 | A star is never taken as a pattern and a subcommand holds no null character. |
| AclUser.UserRecord.SetCommandBit | redis-stable/src/acl.c:397-406 | Sets one bit; clearing one also clears the flag for all commands. |
| AclUser.UserRecord.SetCategory | redis-stable/src/acl.c:414-429 | All commands of the category get the value and lose their subcommands, and no other. |
| AclUser.UserRecord.AddAllowedSubcommand | redis-stable/src/acl.c:712-739 | Adds at the end unless the subcommand is there in some case. |
| AclUser.UserRecord.Clear | redis-stable/src/acl.c:1000-1008 | The steps of `reset` leave the state that does not depend on what was before. |
| AclUser.UserRecord.SetUser | redis-stable/src/acl.c:825-1014 | In place, the effect of a rule, or the error and no change. |
| AclUser.UserRecord.CopyFrom | redis-stable/src/acl.c:328-351 | All rules of the other user. |
| AclCheck.CheckUserCredentials | redis-stable/src/acl.c:1068-1102 | A user logs in exactly if not disabled, and without a password needed or with one whose hash is among the passwords; an unknown user is told apart. |
| AclCheck.CheckCommand | redis-stable/src/acl.c:1179-1212 | A command may be run exactly if all are, or its bit is set, or its second word is an allowed subcommand in any case, or it needs no authentication. |
| AclCheck.PasswordIsHash | redis-stable/src/acl.c:874-911 | `>p` and `<p` do what `#` and `!` followed by the hash of `p` do. |
| AclCheck.HashAdded | redis-stable/src/acl.c:874-893 | `#h` puts a well-formed hash behind the others unless it is there and asks for passwords again; else it fails. |
| AclCheck.HashRemoved | redis-stable/src/acl.c:894-911 | `!h` fails exactly if the text is no hash or not among the passwords; else exactly this hash is gone and the others stay in order. |
| AclCheck.GivenThenTaken | redis-stable/src/acl.c:874-911 | A password that is given and taken away again leaves the passwords as they were. |
| AclCheck.WhoLogsInWith | redis-stable/src/acl.c:874-893 | After `>p` exactly those log in whose text has the hash of `p` or of an earlier password, if the user is not disabled. |
| AclCheck.WhoLogsInWithout | redis-stable/src/acl.c:894-911 | `<p` fails exactly if the hash is not there; else exactly the texts with this hash are shut out. |
| AclCheck.WordsAboutLogin | redis-stable/src/acl.c:828-873 | Who logs in after `on`, `off`, `nopass`, `resetpass` and `reset`. |
| AclCheck.OthersKeepLogin | redis-stable/src/acl.c:834-1008 | No rule about keys, channels, commands or payloads has a say in who logs in. |
| AclCheck.KeyPatternMeans | redis-stable/src/acl.c:912-929 | A key pattern is refused exactly if all keys are allowed or it holds a blank; else it is added once, at the end. |
| AclCheck.ChannelPatternMeans | redis-stable/src/acl.c:930-945 | The same for channels. |
| AclCheck.AllowMeans | redis-stable/src/acl.c:946-954 | `+cmd` allows exactly that command besides, whatever its subcommand, and fails if there is none. |
| AclCheck.DenyMeans | redis-stable/src/acl.c:985-992 | `-cmd` denies exactly that command, whatever its subcommand, and fails if there is none. |
| AclCheck.AllowSubMeans | redis-stable/src/acl.c:955-984 | A rule that allows a subcommand allows exactly that command with that subcommand besides, in any case of its letters. |
| AclCheck.CategoryMeans | redis-stable/src/acl.c:414-429 | A category is allowed or denied as exactly its commands are; an unknown one fails. |
| AclCheck.WordsAboutCommands | redis-stable/src/acl.c:856-866 | After `allcommands` every command may be run, after `nocommands` and `reset` none. |
| AclCheck.OthersKeepCommands | redis-stable/src/acl.c:828-945 | No other rule has a say in which commands may be run. |
| AclCheck.WordInAnyCase | redis-stable/src/acl.c:828-873 | Words are understood in any case of their letters. |
| AclCheck.Synonyms | redis-stable/src/acl.c:840-866 | Words and signs that mean the same. |
| AclCheck.OtherWords | redis-stable/src/acl.c:845-1008 | `resetkeys`, `resetpass` and `reset` are read as what they are. |
| AclText.SplitJoin | redis-stable/src/sds.c:862-910 | A line of joined words splits into these words if and only if no word contains the separator. |
| AclText.TrimNothing | redis-stable/src/sds.c:747-760 | A text that starts and ends with other characters is not trimmed. |
| AclDescribe.BestIsBest | redis-stable/src/acl.c:511-536 | The loop's choice has more in common than not, the fewest differences, among these the most in common, and is the first such; none is chosen only if none qualifies. |
| AclDescribe.CommandsReplay | redis-stable/src/acl.c:464-603 | The command rules, applied to any user, restore the bits and the subcommands they describe. |
| AclDescribe.BitmapsMatch | redis-stable/src/acl.c:589-601 | The stand-in ends up with the user's bits: the server is never stopped. |
| AclDescribe.OnlyAll | redis-stable/src/acl.c:483-491 | A user that has all bits is described by `+@all` alone. |
| AclDescribe.DescribeRestores | redis-stable/src/acl.c:611-670 | The description of a user, applied to a new or reset one, is accepted and restores everything; the flag for all commands is set if and only if all bits are. |
| AclDescribe.RulesThenDescription | redis-stable/src/acl.c:825-1014 | So it is for every user that any sequence of rules makes of a new one. |
| AclDescribe.CountCategoryBits | redis-stable/src/acl.c:435-455 | The numbers of commands of a category that are allowed and that are not. |
| AclDescribe.BestCategory | redis-stable/src/acl.c:511-536 | The loop finds the choice of the specification, with the initial bound that stands for none. |
| AclDescribe.DescribeCategories | redis-stable/src/acl.c:500-555 | The rounds end and yield the categories of the specification; the stand-in has the bits they describe. |
| AclDescribe.DescribeUserCommandRules | redis-stable/src/acl.c:464-603 | The text is the rules joined by spaces, and the check at the end holds. |
| AclDescribe.DescribeUser | redis-stable/src/acl.c:611-670 | The text of the whole description. |
| AclFile.RuleAlike | redis-stable/src/acl.c:825-1014 | Users that differ only in whether payloads are sanitized accept the same rules and stay alike. |
| AclFile.ResetIsBlank | redis-stable/src/acl.c:1000-1008 | `reset` makes every user a new one, but for sanitizing. |
| AclFile.StandInTells | redis-stable/src/acl.c:1583-1620 | A line's rules are accepted by the reset stand-in if and only if the user it names, new or reset, accepts them. |
| AclFile.LoadsExactly | redis-stable/src/acl.c:1530-1623 | A file is taken exactly if each line, looked at alone, is blank or names a user and a new user accepts its rules. |
| AclFile.BadExactly | redis-stable/src/acl.c:1563-1581 | A line is in error exactly if its first word is not `user`, no name follows, or the name holds a blank or a null character. |
| AclFile.UsersExactly | redis-stable/src/acl.c:1530-1649 | Afterwards there are exactly the default user and the users that have a line. |
| AclFile.LoadedIsPlain | redis-stable/src/acl.c:1530-1623 | Whatever a file says, no subcommand of its users contains a space or a line end, or ends in a tab or a carriage return. |
| AclFile.SaveThenLoad | redis-stable/src/acl.c:1502-1682 | A saved file gives every user back if and only if the subcommands of all users are so; the default user, reset before, asks for sanitizing unless it said not to. |
| AclFile.BlankInSubcommand | redis-stable/src/acl.c:946-984 | A subcommand with a space is accepted, for any command. |
| AclFile.TryRules | redis-stable/src/acl.c:1583-1598 | The trial goes on after an error and fails exactly if some rule does. |
| AclFile.ApplyRules | redis-stable/src/acl.c:1617-1620 | The rules that were tried are applied; the assertion never fails. |
| AclFile.BuildTable | redis-stable/src/acl.c:1530-1623 | The new table is built as specified without touching any user there is. |
| AclFile.Acl.LoadFromFile | redis-stable/src/acl.c:1502-1649 | Either the whole file is loaded, into the default user in place, or no user changes. |

## Left out

- The code under `app/`, sockets, event loops, TLS and the command line: nothing there decides an
  unbounded property.
- `crcspeed16*` and the tables of CRC16.
- Epochs are unbounded: the model does not have the overflow of 64-bit epochs.
- The election model has a fixed set of voting masters of known size, no restart of a node, no CLUSTER RESET
  or TAKEOVER, and a message is delivered at most once. A promoted replica does not vote.
- In `ClusterEpochs` the random name of a node in handshake is one that no node bears. A configuration file
  edited by hand, which could give such a node the name of another, is not modelled.
- CLUSTER RESET HARD is not an event of `ClusterEpochs`, since it gives a node another name;
  `HardResetExactly` says what it does to the epochs.
- In `ClusterSlots` the confluence of claims is for nodes that import no slot and masters with distinct
  epochs, as the code needs them.
- Slot bitmaps are sequences of booleans and not packed bytes; ranges are pairs and not text.
- SlotRanges.LoadLine: the text of a line of the configuration file is not parsed.
- What an RDB preamble of the append only file says: it has a length and nothing else. Numbers too long for
  the C library's conversions.
- The translation of relative expire times when a command is fed to the append only file.
- When fsync(2) is called, and in which thread, is not part of this model.
- Serving clients that wait for sorted sets, streams or modules: `Blocked` has such clients in line, counts
  and rotates them, and serves those that wait for lists.
- Timeouts of blocked clients are events without a clock, and the expiry of keys is a deletion.
- Popcount loads words in little-endian order; the sum of the bytes' counts does not depend on it. The table
  of the counts of all bytes is a function.
- The 64-bit words of `Bitfield` are integers, with masks and shifts as remainder and division.
- The floating-point conversions between coordinates and geohash cells.
- In `AclUser` the 1024 bits of a user are a set of numbers. SHA-256 is any function that yields well-formed
  hashes. Loading and unloading of modules, and with it a command table that changes, is not modelled.
- AclCheck.CheckCommand: says which commands may be run and not on which keys, because the matching of key
  and channel patterns is not modelled. Nor are the connection's user and the ACL log.
- Opening, writing and renaming the files of users is not part of this model.
