# lan80xx-spid, modelled and verified

`lan80xx-spid` owns an SPI device and lets up to 16 clients share it over a
datagram socket. It is one thread, one mutable struct and a scheduler that calls
itself: while a mailbox transaction waits for the chip, the daemon drains other
clients' requests, which may themselves be mailbox transactions. This project
models that daemon, its wire protocol and the two ends of it, and proves what
holds of every run.

## How it is organised

| file | content |
|---|---|
| `Bytes.dfy`, `Wire.dfy` | little-endian fields, the header, requests and responses, both ends of the socket |
| `Layout.dfy` | the same structs as offsets and arithmetic, without the decoders; the theorems speak of these |
| `Crc.dfy`, `CrcPowers.dfy`, `CrcErrors.dfy` | the mailbox CRC as a loop, as a bit-serial register and as polynomial division; the order of x modulo the generator; exactly which bit errors it catches |
| `Mailbox.dfy`, `Exchanges.dfy`, `Transactions.dfy` | the mailbox packet and the register protocol of one transaction; whole transactions, access by access; the protocol against a description by register, bit and offset |
| `Spi.dfy`, `DeviceRuns.dfy` | SPI frames, a device that answers one transaction late, register reads and writes; runs of the daemon against that device |
| `Machine.dfy`, `Effects.dfy`, `Invariants.dfy` | the daemon as a state machine over the events of a run, what each event does, and what every reachable state keeps |
| `ClaimRuns.dfy`, `Inflight.dfy`, `MailRuns.dfy`, `Responses.dfy`, `Order.dfy`, `Blocks.dfy` | theorems about every run |
| `Service.dfy`, `Handlers.dfy` | theorems about every run that go from the bytes of the datagram received to the transfers on the bus and the bytes of the answer, for every message type |
| `Scenes.dfy` | concrete runs that show what is not promised |
| `ItemPool.dfy` | the 256 pooled items on intrusive linked lists, refining plain sequences |
| `OpLog.dfy`, `TraceText.dfy` | the op log behind TRACE and the read ring behind the rmw-race warning; reading the TRACE text back |
| `Daemon.dfy` | the daemon in place: fields, linked pool, re-entrant scheduler, mailbox code and main loop |

A run is a `seq<Event>`. `Machine.Run` says which logs are possible, and the
theorems quantify over all of them: any clients, any datagrams, any device
replies and failures, any clock. `Daemon.Proxy` is the imperative program. It
carries the log of what it did as a ghost field, and `Proxy.Valid()` says that
this log is a run, that the fields and the linked lists show the state the run
leads to, and that the register transfers made, the datagrams sent and the ring
buffers are those of the run. So every theorem about runs is a theorem about the
program. The machine leaves a handler no choice once its item has started; what
it does leave open (whether an arrival is taken in, whether an expired claim is
ended, whether an eligible item is started, how long a mailbox waits, what text
TRACE sends, how long a reset pulse lasts) is stated by the contracts of
`Handle`, `CheckExpiry`, `Drain`, `Turn` and `ExecItem`.

The environment is a parameter: `External` actions of clients, and an oracle
`env` that answers every transfer and every look at the clock.

## Where the code does not do what one would expect

These are modelled as the code has them.

- The mailbox guard compares the request's `mmd` with the mailbox's, while only
  five bits of it reach the chip. `GuardExact` gives the exact set of requests
  that pass the guard and still hit a mailbox register; `GuardBypassed` is an
  example. `NonInterference` says that these are the only foreign accesses.
- RESET is served inside another client's mailbox wait and clears the in-flight
  flag while the transaction goes on. `Scenes.ResetLiftsGuard` is a run in which
  another client then rings the waiting mailbox's doorbell. `OneAtATimeExactly`
  gives the exact condition: at most one transaction is active, with the flag up
  exactly then, if and only if every busy check was honest and every RESET came
  while no transaction was active.
- A claim can be granted while another client's mailbox is still waiting, and
  that mailbox goes on (`Scenes.MailboxIgnoresClaim`). `MailboxUnderClaim` says
  that under a claim only mailbox requests already executing at the grant by
  which the present holder took the device do so, so that a claim taken while no
  foreign mailbox executes is exclusive until it ends (`ClaimIsExclusive`);
  `WaitingGoesOn` says that a waiting one always goes on before it is answered.
- A stale response flag is not looked at before a request. `StaleResponse` gives,
  for every request and every packet, a transaction that returns that packet
  although the response was there before the request.
- A client that writes a register back does not clear its own entry of the read
  ring, although the comment above the lint code (lan80xx_spid.c:443-444) says
  so. `OwnWriteBackWarns` is the warning that the comment does not ask for;
  `WarningExact` says when code and comment part.
- The checksum field is stored low byte first, and twelve bursts of up to 16 bits
  that run from the covered bytes into it go unnoticed. `BurstExact` says that
  they are the only ones, and `BurstSlips` shows one that fits every packet.
- TRACE counts ops with 32 bits. After the counter wraps it shows fewer lines
  until 64 more ops were made; `TailComplete` gives the exact condition.

## Model

| member | source | states |
|---|---|---|
| `Crc.FeedByte` | lan80xx_spid.c:582-587 | one pass of the byte loop turns the checksum of p into that of p + [b] |
| `Crc.Crc16` | lan80xx_spid.c:579-589 | the byte-wise loop over an array computes what the bit-serial register holds after all bits, most significant first, from all ones |
| `Crc.CrcIsRemainder` | lan80xx_spid.c:579-589 | that register is the remainder of long division of the message (start value mixed in, 16 zeros appended) by x^16 + x^12 + x^5 + 1 |
| `CrcErrors.Unnoticed` | lan80xx_spid.c:681-684 | exactly which bit flips of a packet with a matching checksum leave it matching |
| `CrcErrors.BurstDetected` | lan80xx_spid.c:681-684 | a nonzero burst of at most 16 bits in the covered bytes breaks the checksum, for every length |
| `CrcErrors.BurstExact` | lan80xx_spid.c:681-684 | a burst of at most 16 bits anywhere in a packet, checksum field included, leaves the checksum matching if and only if it is one of twelve patterns across the boundary |
| `CrcErrors.BurstSlips` | lan80xx_spid.c:681-684 | one of the twelve, 13 bits long, turns every packet with a matching checksum into another |
| `CrcErrors.OddDetected` | lan80xx_spid.c:681-684 | an odd number of flipped bits anywhere, checksum field included, breaks it |
| `CrcErrors.TwoFlipsExact` | lan80xx_spid.c:681-684 | two flipped bits go unnoticed if and only if the powers of x they stand for differ by a multiple of 32767 |
| `CrcErrors.TwoFlipsDetected` | lan80xx_spid.c:681-684 | so any two flips in a packet of up to 4095 bytes break the checksum |
| `CrcPowers.OrderOfX` | lan80xx_spid.c:585-585 | repeating the shift step of the loop n times on 1 gives 1 again if and only if 32767 divides n |
| `Wire.HdrRoundTrip` | spiproxy.h:53-59 | decoding an encoded header gives it back, whatever follows |
| `Wire.RequestRoundTrip` | lan80xx_spid.c:1090-1102 | what a client frames is accepted with the same header and body, for every body up to 4096 bytes |
| `Wire.AcceptableIsRequest` | lan80xx_spid.c:1094-1095 | conversely only framed requests are accepted |
| `Wire.ResponseRoundTrip` | lan80xx_spid.c:699-713 | a response decodes to its status and the first min(capacity, length) body bytes |
| `Wire.SendResp` | lan80xx_spid.c:699-713 | the buffer filled in place is the response datagram |
| `Wire.Client.FrameRequest` | spiproxy_cli.c:94-102 | the next sequence number, wrapping at 32 bits, and a datagram that the daemon accepts |
| `Wire.Client.ParseResp` | spiproxy_cli.c:49-72 | for any datagram: refused exactly when short or mismatched, else the status, and the caller's buffer gets the first min(capacity, declared, received) body bytes and is otherwise untouched |
| `Wire.WithValChangesOne` | spiproxy.h:63-71 | storing a read value changes that op's value and no other op |
| `Mailbox.BuildPacket` | lan80xx_spid.c:605-613 | the in-place construction yields header, payload and checksum |
| `Mailbox.AccessInWindow` | lan80xx_spid.c:615-679 | every register of a transaction lies in 0xd800..0xdaff, request and response windows are disjoint, the response window is only read, the busy check only reads the flag |
| `Mailbox.ResultMeans` | lan80xx_spid.c:655-689 | OK means the words read are a packet of length 6..1024 with matching checksum and exactly the returned command and payload; ECRC and EINVAL mean what they say |
| `Mailbox.EchoRoundTrip` | lan80xx_spid.c:597-689 | against a device that echoes the request words, with any padding bytes, the transaction returns the command and payload sent |
| `Mailbox.CorruptedIsRefused` | lan80xx_spid.c:681-684 | a response that is a corrupted valid packet of the same length is answered OK if its checksum still matches, else ECRC |
| `Mailbox.OddFlipsAreEcrc` | lan80xx_spid.c:681-684 | an odd number of flipped bits in a response, length intact, is always answered ECRC |
| `Mailbox.TwoFlipsAreEcrc` | lan80xx_spid.c:681-684 | two flipped bits in a response, length intact, are always answered ECRC |
| `Mailbox.BurstIsEcrc` | lan80xx_spid.c:681-684 | a burst of at most 16 flipped bits in the covered bytes is always answered ECRC |
| `Mailbox.BurstVerdict` | lan80xx_spid.c:681-684 | a burst of at most 16 bits anywhere in a response, length intact, is answered ECRC if and only if it is none of the twelve |
| `Exchanges.ExchangeRuns` | lan80xx_spid.c:593-694 | for every request, every flag value that is not busy and every packet in the response window there is a whole transaction that returns that packet |
| `Exchanges.StaleResponse` | lan80xx_spid.c:615-621 | the busy check depends on the busy bit alone, and for every request and every packet a transaction whose busy check finds the response flag up returns the packet's command and payload |
| `Transactions.TransactionExact` | lan80xx_spid.c:593-694 | for every sequence of register accesses, every status, command and payload: the protocol ends so if and only if the accesses are, one by one, busy check, request words, mask, doorbell, looks at bit 1, response words and clearing of the flag, stopped where the status says, with registers, bits, lengths and packet bytes written out |
| `Spi.AddrInjective` | lan80xx_spid.c:290-294 | for slice < 4 and mmd < 32 the 23 address bits name one register |
| `Spi.PageMmd` | lan80xx_spid.c:277-294 | for any mmd the low five bits select the mmd on the wire |
| `Spi.Fill` | lan80xx_spid.c:274-287 | the frame buffer: write flag, 23 address bits big-endian, data big-endian, the rest 0xff |
| `Spi.FilledHead` | lan80xx_spid.c:274-294 | the device recovers the register from the frame |
| `Spi.Bus.WriteReg` | lan80xx_spid.c:296-310 | updates that register alone, unless the transfer failed before the device saw it; success and failure are counted |
| `Spi.Bus.ReadReg` | lan80xx_spid.c:312-351 | prime and capture return the register's value from any stale pending reply; failure of either transfer is reported and counted |
| `Spi.PutHolds` | lan80xx_spid.c:290-310 | writing through the address encoding is updating a plain map |
| `Spi.Perform` | lan80xx_spid.c:296-351 | any sequence of reads and writes, with any arguments and any transfer failures, returns what the registers on the wire say |
| `Spi.KeysSuffice` | lan80xx_spid.c:290-351 | with slices below 4 and mmds below 32 that is what a plain map from slice, mmd and register returns |
| `DeviceRuns.ReadsLastWritten` | lan80xx_spid.c:296-351 | in every run against such a device a successful read returns the value of the last write to its register on the wire, if that succeeded, whichever client, cleanup list or mailbox transaction made it |
| `DeviceRuns.ReadsInitial` | lan80xx_spid.c:296-351 | a successful read of a register that nobody has written returns what it held at the start |
| `Machine.FirstQueue` | lan80xx_spid.c:1000-1018 | the queue served next: it has an eligible item and none above it has |
| `Machine.FirstIn` | lan80xx_spid.c:1001-1015 | the first eligible item of a queue, none before it eligible |
| `Invariants.Always` | lan80xx_spid.c:986-1082 | every reachable state: queued and executing items belong to connected clients on their own slot, every frame but the innermost is a waiting mailbox, frames match their requests, whoever acts is entitled to, queues are in arrival order |
| `ClaimRuns.Readings` | lan80xx_spid.c:868-895 | who executes and who holds the device, read off the events, agree with the state |
| `ClaimRuns.ClaimExclusion` | lan80xx_spid.c:986-992 | while a client holds the device every register op of an item is that client's |
| `ClaimRuns.MailboxUnderClaim` | lan80xx_spid.c:986-992 | a mailbox access made while a client holds the device is the holder's, or of a mailbox request that was executing at the grant by which this holder took the device |
| `ClaimRuns.ClaimIsExclusive` | lan80xx_spid.c:986-992 | under a claim taken while no other client's mailbox request executes, every register op and every mailbox access is the holder's until the claim ends |
| `ClaimRuns.CleanupIsHolders` | lan80xx_spid.c:733-746 | a cleanup op is spelled by the bytes of the holder's CLAIM, and runs with nothing executing |
| `ClaimRuns.NoHandover` | lan80xx_spid.c:876-880 | the device passes between clients only through a vacancy |
| `ClaimRuns.SlotReuse` | lan80xx_spid.c:1053-1082 | a client on a reused slot inherits no claim and no queued item |
| `ClaimRuns.CleanupExactlyOnce` | lan80xx_spid.c:733-750 | expiry or hang-up is followed at once by as many cleanup ops as the count at offset 4 of the last granted CLAIM says, op i spelled by the 12 bytes at 8 + 12 i, refused for a slice above 3 and for nothing else, then by the end of the claim |
| `ClaimRuns.DeadlineIs` | lan80xx_spid.c:881-884 | the holder's deadline lies max_ms, the first four bytes of its last granted CLAIM, after that grant |
| `ClaimRuns.ExpiryIsDue` | lan80xx_spid.c:1267-1271 | a claim expires only with the clock past that time, and with nothing executing |
| `ClaimRuns.CleanupOnlyThen` | lan80xx_spid.c:890-894 | cleanup ops run at no other time; a RELEASE runs none |
| `Inflight.FlagDownWhenIdle` | lan80xx_spid.c:615-694 | the in-flight flag is down whenever nothing executes, for every reply, failure, timeout, nested mailbox and RESET |
| `Inflight.OneAtATime` | lan80xx_spid.c:615-694 | if every busy check made during a transaction is answered busy and no RESET comes during one, at most one transaction is past its busy check and the flag is up exactly then |
| `Inflight.SoleStepExact` | lan80xx_spid.c:615-694 | one event keeps that up if and only if it is neither such a busy check nor such a RESET |
| `Inflight.OneAtATimeExactly` | lan80xx_spid.c:615-694 | over a whole run it holds in every state if and only if no event of the run is |
| `Inflight.CleanupNotInFlight` | lan80xx_spid.c:736-747 | a claim ends abnormally, and its cleanup ops run, with the in-flight flag down |
| `Inflight.TransactionRegisters` | lan80xx_spid.c:615-679 | every access of a transaction is, on the wire, a mailbox register |
| `Inflight.GuardExact` | lan80xx_spid.c:516-525 | the guard lets an op through to a mailbox register if and only if its mmd is at least 32 with low five bits 0x1e and its register is in range |
| `Inflight.GuardBypassed` | lan80xx_spid.c:516-525 | such an op exists: a write to the flag register that the guard passes |
| `Inflight.NonInterference` | lan80xx_spid.c:516-525 | while a transaction is under way, transactions having been kept apart so far, no other item's op reaches a mailbox register, except exactly those ops |
| `Inflight.NestedCheck` | lan80xx_spid.c:615-621 | a nested mailbox only reads the flag register |
| `Scenes.ResetLiftsGuard` | lan80xx_spid.c:968-968 | a run in which a RESET is served inside a mailbox wait and another client's op then reaches the mailbox flag while the transaction is still active |
| `Scenes.MailboxIgnoresClaim` | lan80xx_spid.c:652-652 | a run in which a claim is granted inside a mailbox wait and the next access is the waiting client's |
| `MailRuns.Following` | lan80xx_spid.c:593-694 | every executing mailbox item stands where its own accesses lead, whatever was drained in between |
| `MailRuns.MailboxAnswer` | lan80xx_spid.c:896-909 | the answer to a mailbox request is the verdict of its own transaction: status, and with OK the command and payload of the packet in the response window |
| `MailRuns.WaitingGoesOn` | lan80xx_spid.c:638-654 | a transaction that waits while anything further in happens, a grant for instance, makes another access of its own before it is answered |
| `Responses.Conservation` | lan80xx_spid.c:1027-1114 | every datagram of every run is in exactly one place: being looked at, queued, executing, answered or purged |
| `Responses.AnsweredAtMostOnce` | lan80xx_spid.c:699-718 | no datagram is answered twice, and an answered one was not purged |
| `Responses.AllAnswered` | lan80xx_spid.c:1027-1114 | with queues empty and nothing executing every datagram was answered or purged once |
| `Responses.PurgedAfterHangup` | lan80xx_spid.c:1053-1082 | a datagram is thrown away only after the client that sent it hung up |
| `Responses.AnsweredUnlessGone` | lan80xx_spid.c:1027-1114 | with queues empty and nothing executing every datagram whose client did not hang up after sending it was answered exactly once |
| `Responses.Provenance` | lan80xx_spid.c:1027-1051 | every queued or executing item is the decoded datagram it came from |
| `Responses.EchoesRequest` | lan80xx_spid.c:705-709 | every answer goes to the client that asked, echoes that datagram's header and fits a message |
| `Responses.EchoOnTheWire` | lan80xx_spid.c:705-709 | the datagram sent carries the request's sequence number and its type with the response bit |
| `Order.PriorityOrder` | lan80xx_spid.c:1000-1018 | whatever starts, no queued item asks for a higher priority in its flags, and none of the same rank arrived earlier, unless it is register or mailbox traffic of another client than the holder |
| `Order.StartOrder` | lan80xx_spid.c:986-1051 | two items of one client and one rank, both or neither of them register or mailbox traffic, start in arrival order, however claims come and go and draining nests |
| `Blocks.OnlyMailboxEncloses` | lan80xx_spid.c:638-654 | an item starts inside another only if that one is a mailbox request |
| `Blocks.AnswerClosesBlock` | lan80xx_spid.c:843-867 | a READ, WRITE or BATCH is one contiguous block of the run: its ops up to and including the first that is refused or fails, whose status is the answer's; the body is the request with the values read filled in |
| `Layout.RequestSpells` | spiproxy_cli.c:94-102 | the bytes of what a client frames |
| `Layout.ParsedExactly` | spiproxy_cli.c:49-72 | which datagrams a client refuses, and what it takes from the others, byte by byte |
| `Layout.AcceptableIsFramed` | lan80xx_spid.c:1094-1095 | the test of a datagram, byte by byte: version 1 and a length at offset 8 that counts the rest, at most 4096 |
| `Layout.ResponseAnswers` | lan80xx_spid.c:699-713 | the datagram built as an answer, byte by byte: type with bit 7 set, status, sequence number as sent, length, body |
| `Service.QueryIs` | lan80xx_spid.c:1027-1051 | whatever executes is, byte for byte, a datagram that was received from the item's slot |
| `Service.HolderBrought` | lan80xx_spid.c:868-888 | so is the CLAIM of whoever holds the device |
| `Service.OpOnTheWire` | lan80xx_spid.c:843-867 | every register op of every run is spelled by the bytes of the request at its place; READ reads and WRITE writes whatever the op's write byte; it is refused for a slice above 3 or a mailbox register in flight, else the bus sees exactly that transfer |
| `Service.RegisterAnswer` | lan80xx_spid.c:843-867 | between start and answer of a READ, WRITE or BATCH there are its ops and nothing else, up to the first refused or failed; the status is the last one's, EIO for a failed transfer; the body returns the request byte for byte but for the values read and the write byte of READ and WRITE; a request of the wrong length runs no op |
| `Service.DoorAnswer` | lan80xx_spid.c:1090-1102 | a datagram is answered at once, EINVAL if it is not framed right, EBUSY if 256 requests are waiting |
| `Service.DoorOpens` | lan80xx_spid.c:1027-1051 | otherwise it is queued as it is |
| `Service.ReplyOnTheWire` | lan80xx_spid.c:699-713 | every answer is one datagram to the slot the request came from, with the header bytes the protocol wants |
| `Handlers.ControlAnswer` | lan80xx_spid.c:868-979 | the answer to every CLAIM, RELEASE, STATS, TRACE, RESET and unserved type by its bytes and the holder: RELEASE finds the device free or another client's, CLAIM is answered OK if and only if it now holds the device and EBUSY under a foreign holder, RESET by length and reset line, ENOSYS for the rest; and what happened between start and answer |
| `Handlers.ControlActs` | lan80xx_spid.c:868-973 | a grant, a release or a reset is the act of a CLAIM without a rival, of the holder's own RELEASE, or of a RESET of the right length with a reset line |
| `Handlers.MailAnswer` | lan80xx_spid.c:896-909 | the answer to a MAILBOX by its bytes and its own accesses: at once if length, slice or payload is wrong; else the status its accesses amount to, slice and timeout repeated, command, length and payload of the response |
| `Handlers.MailAccess` | lan80xx_spid.c:546-571 | every mailbox access goes to the slice at offset 0 of the request, mmd 0x1e |
| `Handlers.StartUnderClaim` | lan80xx_spid.c:986-992 | while a client holds the device nothing of another client starts that has type 0 to 3 or 6 |
| `ItemPool.PoolSize` | fuzz/fuzz_common.h:79-97 | when every node is on the list it belongs to, once, the lengths of the three queues, the free list and the executing items add up to the pool |
| `ItemPool.Find` | lan80xx_spid.c:1001-1003 | the walk along the links returns the first eligible item and its predecessor, or the end |
| `ItemPool.FindLast` | lan80xx_spid.c:1008-1011 | the tail walk ends at the last node |
| `ItemPool.Pool.constructor` | lan80xx_spid.c:1247-1250 | all 256 nodes start on the free list |
| `ItemPool.Pool.Take` | lan80xx_spid.c:994-1021 | unlinking in place removes the first eligible item of high, normal, low and no other, and repairs the tail pointer |
| `ItemPool.Pool.Put` | lan80xx_spid.c:1027-1051 | appends to the class chosen by the flags |
| `ItemPool.Pool.Room` | lan80xx_spid.c:1029-1036 | the free list is empty if and only if 256 items are queued or executing; n_queued is the sum of the queues |
| `ItemPool.Pool.Free` | lan80xx_spid.c:1022-1024 | the finished node goes back to the free list, all else stays |
| `ItemPool.Pool.Purge` | lan80xx_spid.c:1061-1077 | relinking in place filters out one client's items and keeps the order of the rest |
| `OpLog.TraceAdd` | lan80xx_spid.c:421-431 | the ring holds the last 1024 ops of the unbounded history, across wrap of the 32-bit counter |
| `OpLog.Text` | lan80xx_spid.c:934-947 | the text is the lines of the last ops, never cut by the buffer, and fits a message |
| `OpLog.TraceTells` | lan80xx_spid.c:934-947 | before the counter wraps TRACE shows exactly the last min(64, n) ops that reached the device |
| `TraceText.LinesTell` | lan80xx_spid.c:934-947 | split at newlines and blanks and read as numbers, the text tells time, client, direction, slice, mmd, register and value of exactly the entries it was made from |
| `TraceText.SaysOne` | lan80xx_spid.c:940-944 | a line tells one entry only |
| `OpLog.TailComplete` | lan80xx_spid.c:935-937 | it shows min(64, n) lines if and only if the counter has not wrapped or stands at 64 or more |
| `OpLog.NoteRead` | lan80xx_spid.c:503-512 | the read ring holds the last 16 successful reads |
| `OpLog.NoteWrite` | lan80xx_spid.c:487-502 | a match is found in the ring if and only if one of the last 16 reads races the write, and that read is used up |
| `OpLog.Lint` | lan80xx_spid.c:487-512 | a write warns once if and only if one of the last 16 reads is not used up, by another client, of the same register and under 10 ms old; it uses up one such read |
| `OpLog.WarningExact` | lan80xx_spid.c:487-502 | after any ops, when a write warns, when it warns though the comment asks for none, and when it is silent though the comment asks for a warning |
| `OpLog.OwnWriteBackWarns` | lan80xx_spid.c:443-444 | a read, the reader's own write-back and another client's write within 10 ms: the code warns, the comment does not ask for it |
| `OpLog.Note` | lan80xx_spid.c:528-532 | an op that reached the device is recorded, and linted if it succeeded; the rings go on telling the ops tried, by whom, and the warnings they gave |
| `Daemon.Proxy.ExecOp` | lan80xx_spid.c:516-542 | refused exactly by slice or guard, else one transfer, recorded and linted: a successful write warns if and only if one of the run's last 16 successful reads, not used up, races it; cleanup ops are recorded under no client |
| `Daemon.Proxy.TryOp` | lan80xx_spid.c:516-542 | an item's op enters the run and the rings under its own client's id |
| `Daemon.Proxy.RunOps` | lan80xx_spid.c:851-864 | the ops in order until one is refused or fails, values read stored in the item |
| `Daemon.Proxy.ExecOps` | lan80xx_spid.c:843-867 | the ops, then the answer; the client's n_ops grows by exactly the ops attempted, and no other client's |
| `Daemon.Proxy.TakeLease` | lan80xx_spid.c:880-886 | the claim fields show the granted claim, its deadline max_ms after the clock |
| `Daemon.Proxy.ReleaseClaim` | lan80xx_spid.c:890-895 | the owner's RELEASE leaves no owner and no claim, runs no cleanup and is answered |
| `Daemon.Proxy.PulseReset` | lan80xx_spid.c:960-973 | the in-flight flag is down afterwards, the pulse lasts the times at offsets 0 and 4, or 10 and 100 ms where they are zero, and the request is answered OK |
| `Daemon.Proxy.ReportOps` | lan80xx_spid.c:934-947 | the TRACE answer is a text that tells the last recorded ops, which are the run's |
| `Daemon.Proxy.Answer` | lan80xx_spid.c:699-713 | the datagram handed to the socket is the run's answer to the innermost item |
| `Daemon.Proxy.SendWords` | lan80xx_spid.c:623-631 | writes the packet word by word, as the protocol demands |
| `Daemon.Proxy.RingDoorbell` | lan80xx_spid.c:632-637 | mask and doorbell, or EIO with the flag down |
| `Daemon.Proxy.Collect` | lan80xx_spid.c:655-689 | reads the response in place and returns the protocol's verdict |
| `Daemon.Proxy.AwaitResponse` | lan80xx_spid.c:638-654 | polls at most timeout_ms + 2 times, times out only after timeout_ms, and leaves everything below the waiting item as it was |
| `Daemon.Proxy.PollOnce` | lan80xx_spid.c:640-654 | one pass: response, failure, timeout, or a drain of four items that stops earlier only when all that is queued is register or mailbox traffic held back by another client's claim |
| `Daemon.Proxy.ExecMailbox` | lan80xx_spid.c:593-694 | the whole transaction ends in the protocol's verdict, whatever is drained while it waits; ETIMEDOUT only after the timeout, which bounds the looks at the flag |
| `Daemon.Proxy.Transact` | lan80xx_spid.c:896-909 | that timeout is the four bytes at offset 4 of the request, or 500 ms if they are zero |
| `Daemon.Proxy.ExecItem` | lan80xx_spid.c:830-979 | whatever its type, the item is answered as the run demands, and everything below it is untouched; a MAILBOX waits as long as it asks, TRACE tells the recorded ops, RESET lasts as asked, n_ops counts the ops |
| `Daemon.HeldBackExactly` | lan80xx_spid.c:986-1018 | nothing is eligible if and only if all that is queued has type 0, READ, WRITE, BATCH or MAILBOX and belongs to another client than the holder |
| `Daemon.Proxy.StartNext` | lan80xx_spid.c:998-1021 | the first eligible item starts; if none does, all that is queued is held back by another client's claim |
| `Daemon.Proxy.Drain` | lan80xx_spid.c:994-1025 | terminates; starts no more items than were queued at entry, stops before its budget only when all that is queued has type 0, READ, WRITE, BATCH or MAILBOX and belongs to another client than the holder, restores the stack of executing items |
| `Daemon.Proxy.EndClaim` | lan80xx_spid.c:720-751 | every cleanup op, then no claim |
| `Daemon.Proxy.CheckExpiry` | lan80xx_spid.c:1267-1271 | the claim ends if and only if the clock is past its deadline |
| `Daemon.Proxy.Accept` | lan80xx_spid.c:1116-1134 | a connection takes the lowest free slot and the next id, or nothing if all are used |
| `Daemon.Proxy.Drop` | lan80xx_spid.c:1053-1082 | a hang-up ends the client's claim, frees its items and its slot |
| `Daemon.Proxy.Datagrams` | lan80xx_spid.c:1090-1102 | a datagram enters the run and is queued or refused at once |
| `Daemon.Proxy.Queue` | lan80xx_spid.c:1027-1051 | queued if a node is free, else answered EBUSY |
| `Daemon.LowestSlot` | lan80xx_spid.c:1116-1134 | a connection takes the lowest of the 16 slots that is free, and is turned away if and only if none is |
| `Daemon.FramedArrives` | lan80xx_spid.c:1104-1114 | a request framed by the protocol enters the run byte for byte, a longer datagram with its first 4108 bytes |
| `Daemon.Proxy.Handle` | lan80xx_spid.c:1260-1266 | each action of the world enters the run once, as the clients connected at the time decide |
| `Daemon.Proxy.Turn` | lan80xx_spid.c:1257-1273 | one turn takes in every action in order, then tests the claim's deadline, so that nothing starts before the test and a claim left after it is within its max_ms, then starts 64 items or leaves only what another client's claim holds back |
| `Daemon.AnsweredByNow` | lan80xx_spid.c:1257-1273 | whenever nothing executes and only held-back requests are queued, as after a turn that started fewer than 64 items, every datagram whose client has not hung up since has been answered exactly once, unless it is register or mailbox traffic, or of type 0, of another client than the holder |
| `Daemon.Proxy.Serve` | lan80xx_spid.c:1257-1274 | any number of turns: the log is a run with exactly the world's actions in order, nothing executes, the flag is down, the 256 nodes are on the queues and the free list, and transfers, datagrams and recorded ops are the run's |

## Left out

- Sockets, epoll, signals, flock, /proc and the GPIO character device: actions of the world and oracle answers stand for them. A datagram that cannot be sent counts as sent.
- The event log, syslog texts, register and status names, and the text of STATS: `Proxy.Report` answers any text that fits.
- The counters n_msgs and n_err, and n_reads, n_writes, n_io_err outside `Spi.Bus`.
- The page-ride and cor-poach warnings: last-writer state with no invariant of its own.
- SPI clock, read padding and chip-select timing.
- 32-bit wrap of client ids and 64-bit wrap of the microsecond clock: ids and times are natural numbers, reduced only where they are printed or compared by the rings.
- The command line of `spiproxy-cli`, number parsing, connecting and receiving; its framing and parsing are in `Wire.Client`.
- Fairness between priority classes: the code promises none.
- ItemPool.Pool.Take: items are indices into the pool rather than addresses, so aliasing outside the pool is not expressed.
- OpLog.TraceAdd: the rings are sequences that the daemon reassigns, not arrays updated in place.
- MailRuns.MailboxAnswer: does not say that the response in the window was made for this request, because the code does not look at a stale response flag.
