# prtp: an RTP/RTCP session, modelled and proved

prtp is a heap-free C library for RTP and RTCP (RFC 3550).  This project models its protocol core in
Dafny and proves what the code promises, for every input, every run and every reachable state.  Where
the code and RFC 3550 differ, the code is modelled and the difference is proved.

## How it is organised

| file | what it holds |
|---|---|
| `Words.dfy` | fixed-width words, wrap-around, network byte order |
| `SoftTimer.dfy` | the timing wheel (class `Wheel`, in place) and its reference `Flat`, an arming-ordered list of unbounded deadlines with a log |
| `IntrusiveList.dfy` | circular doubly linked lists on pointers, tied to sequences |
| `LinkedWheel.dfy` | the timing wheel as the program links it: on rings of nodes, one for each bucket, tied to `Flat` as well |
| `RtpSource.dfy` | sequence numbers, loss, jitter of one source |
| `SourceLife.dfy` | the life of one reception record: what its interval figures add up to, what of them is sent, whose they are |
| `RtpPacket.dfy` | the RTP packet: builder, validity check, round trip |
| `Octets.dfy`, `RtpLayout.dfy`, `RtcpLayout.dfy` | the wire formats octet by octet, in plain numbers, for what is written and what is read |
| `RtcpTypes.dfy`, `RtcpCodec.dfy`, `RtcpEncoder.dfy` | RTCP packets as values, their bytes, validity check and walk, and the in-place encoder |
| `SessionTimers.dfy`, `ConflictTable.dfy`, `Session.dfy` | the session as a pure state machine, one function per routine of the program |
| `SessionInterval.dfy` | the RTCP interval in plain numbers |
| `SessionInvariant.dfy`, `SessionReports.dfy`, `SessionHistory.dfy`, `SessionSteps.dfy`, `SessionResults.dfy` | what every step keeps, what a report contains and when it is sent, and what follows for every run |
| `SessionReception.dfy`, `SessionJoining.dfy`, `SessionStreams.dfy` | what a received RTP datagram does: what is delivered, what becomes of each entry, who joins; and streams over whole runs |
| `SessionFeedback.dfy`, `SessionTold.dfy` | what a received RTCP datagram does: entries, goodbyes, and what the user is told |
| `SessionSums.dfy`, `SessionAttempts.dfy`, `SessionMentions.dfy` | over whole runs: what reported figures add up to, what our own counts mean, when attempts are made and what is sent, and which packets touch a member |
| `Tables.dfy`, `SessionObject.dfy` | the session as the program keeps it: objects updated in place, every method proved equal to its function of the state machine |
| `Md5.dfy`, `Md5Answers.dfy` | MD5: the unrolled block transform, the streaming context, a known answer |
| `TelnetReader.dfy`, `CircBuffer.dfy` | two smaller streaming pieces |

The session is described twice.  `Session.dfy` gives, for each routine, the function from old to new
state; all invariants and all statements over runs are about these functions.  `SessionObject.dfy`
holds the object with the program's fields and loops; each of its methods ensures
`Abs() == <function>(old(Abs()), ...)`, and the methods a user calls keep `Reachable(Abs())` as long as
the environment behaves, so every result about reachable states holds of the object between any two calls.

History variables (`Member.hist`, `Conflicts.touched`, `Output`, the timer's log) record what happened
and decide nothing; they are what the statements about runs are made of.

## What the environment must respect

- Received packets do not come from the session's own RTP or RTCP address, and no BYE names the
  session's own SSRC at the time it is processed (`SessionSteps.Admissible`).  Otherwise
  `src/rtp.c:314-317`, `src/rtcp.c:723-724` and `src/rtcp.c:836-872` arm timers on the own member.
- The random source does not get stuck inside a set of 32 values (`Session.Fair`); the retry loop of
  `src/rtp_member_table.c:104-121` needs no more to end.
- The session bandwidth is positive.  `double` is modelled as `real`, `drand48` as any value in [0, 1).
- Packets that are sent fit the 256-octet packet buffer (`src/rtp_session.h:69`) or are refused as
  larger than 1024 octets (`SessionObject.FitsBuffer`); the size test of the code alone
  (`src/rtp.c:427`) does not protect that buffer.
- Compound packets that pass the validity check have bodies that stay inside the message
  (`RtcpCodec.Overrun` is excluded).
- A member slot that was never used holds zeros.
- The timing wheel needs no assumption on delays: a delay that rounds to zero ticks is modelled as a
  full turn of the 32-bit counter, as in the code.

## Where the code differs from RFC 3550

- `pmembers` is never raised when a report is sent (`src/rtcp.c:193-220`, against section 6.3.6), so it
  stays 1 and reverse reconsideration never acts (`ReconsiderationUnreachable`).  What it would do is
  proved separately (`ReconsiderScales`).
- In probation the test `seq == max_seq + 1` does not wrap (`src/rtp.c:44`): two packets q, q + 1
  validate a source exactly if q < 65535 (`ValidatedIffNoWrap`).
- Re-synchronisation puts a source back on probation while its packet is accepted
  (`src/rtp.c:84`, `src/rtp.c:96-97`): whatever packet comes next is lost (`RestartLosesNext`,
  `RestartLosesThirdPacket`).
- The interval loss is unsigned (`src/rtcp.c:525`): d duplicates wrap around, and the field is right only
  if -256 d modulo 2^32, divided by the packets expected, ends in eight zero bits
  (`FractionForDuplicates`; one duplicate in ten is reported as 50% loss, `FractionWrongForDuplicates`).
  An interval in which everything was lost is reported as 0 (`FractionExact` gives the exact condition).
- Negative cumulative loss is masked to 0 or to the minimum (`src/rtcp.c:501-502`); `LostExact` says
  exactly when the field is right.
- The end of an SDES packet is computed without converting its length (`src/rtcp.c:794`).  A packet is read
  back if and only if the high octet of its length field does not exceed the low one (`PacketRoundTrip`,
  `CompoundRoundTrip`): always below 1028 octets, not at 1028 octets, where a datagram that passes the check
  has its description decoded to none (`LongSdesIsLost`), and again from 1032 octets up to the next such
  length.
- The encoder does not limit the entries of a packet, and the five-bit count wraps around
  (`src/rtcp_encoder.c:313-317`): 32 sources of a BYE, which fit the 256-octet buffer, are counted as none.
  In a buffer of less than 1028 octets the packets are recovered if and only if none has more than 31 entries
  (`ReceiverRecovers`, `SmallIsReadable`, `PacketRoundTrip`).
- A packet refused as too big is counted as sent (`src/rtp.c:424-431`).  The counts of our sender reports are
  those of the packets and octets sent since we took our SSRC if and only if nothing was refused since,
  modulo 2^32 (`SenderCountsIff`).
- A report that does not fit the 256-octet buffer is not sent at all (`src/rtcp.c:563-625`).  It is sent if
  and only if a block for every other member and our name fit, so with ten other members or more, of the 31
  the table allows, none is ever sent (`ReportSentIff`, `ReportsAreSentIff`, `TenOthersSilenceUs`).
- An attempt to report moves the interval counters on whether or not the report is sent, also of the first
  member whose block does not fit (`src/rtcp.c:504-508`, `ReportCoversOthers`).  The intervals that were
  sent add up to the packets received if and only if no packet was accepted in an interval that ended with
  an attempt not sent, and to the packets expected if and only if none moved the highest sequence number in
  such an interval (`SentAddUpIff`, in every reachable state `FiguresAddUpIff`; `UnsentIsLost` is an input).
- Allocating a member does not clear its reception record (`src/rtp_member.c:4-14`), and first hearing it on
  RTP clears neither jitter nor transit time (`src/rtp.c:15-30`).  A member that joined by RTCP is reported
  with the figures of whoever used its slot before (`NewcomerInherits`, `FiguresInherited`,
  `JitterInherited`); `FiguresAreOwn` says exactly when sequence and loss figures, and when the jitter, are
  the member's own.
- A subnegotiation of more than 32 octets, or with an octet of 255, which is sent escaped, is lost and its
  tail delivered as data (`RecoveredIffFits`).

## Model

| member | source | states |
|---|---|---|
| SoftTimer.DelayRoundsUp | src/soft_timer.h:71-85 | for every positive delay the number of ticks is the least whole number of ticks that covers it |
| SoftTimer.FiresOnTime | src/soft_timer.c:97-129 | whenever a timer fires, it fires in the very tick it was last armed for, and nothing happened to it in between, whatever callbacks did |
| SoftTimer.FiresUnlessStopped | src/soft_timer.c:61-129 | once the deadline of an armed timer has passed, the next thing that happened to it is that it fired in that tick or was stopped by then |
| SoftTimer.RunFires | src/soft_timer.c:61-129 | over any run of calls and ticks with arbitrary callbacks, from an empty timer on: every firing follows an arming for that very tick, and every arming whose tick has passed is followed by its firing in that tick or a stop by then |
| SoftTimer.FiresInArmingOrder | src/soft_timer.c:114-128 | the timers fired in a tick are a subsequence of those due, in the order of arming, for arbitrary callbacks |
| SoftTimer.StepSound | src/soft_timer.c:61-129 | every call and every tick with arbitrary callbacks keeps: distinct timers, nothing overdue, nothing due between ticks, and the log explains what is armed |
| SoftTimer.ApplyAllKeeps | src/soft_timer.c:114-128 | callbacks can only shrink the list of timers still to be fired in this tick, so dispatch ends |
| SoftTimer.CollectIsDue | src/soft_timer.c:114-121 | comparing 32-bit expiry words in one of eight buckets collects exactly the timers due in the new tick, in arming order, also when the counter has wrapped |
| SoftTimer.Wheel.constructor | src/soft_timer.c:19-32 | an empty wheel stands for the empty flat list |
| SoftTimer.Wheel.Start | src/soft_timer.c:62-78 | starting a timer on the eight-bucket wheel is arming it in the flat list; a running timer is left alone |
| SoftTimer.Wheel.Stop | src/soft_timer.c:87-94 | stopping a timer removes it wherever it is, also from the list already collected for this tick |
| SoftTimer.Wheel.RunningIffArmed | src/soft_timer.h:54-62 | a timer is in a bucket or in the collected list exactly if it is armed |
| SoftTimer.Wheel.Collect | src/soft_timer.c:97-121 | counting the tick and collecting the current bucket is advancing the flat list |
| SoftTimer.Wheel.TakeExpired | src/soft_timer.c:123-128 | taking the first collected timer is firing the first due timer |
| SoftTimer.Wheel.Drive | src/soft_timer.c:97-129 | a whole tick with arbitrary callbacks refines the tick of the flat list, and terminates |
| IntrusiveList.SelfLinkedIffAlone | src/soft_timer.h:54-62 | a node is linked to itself, in either direction, exactly if it is in no list and heads an empty one |
| IntrusiveList.Empty | src/generic_list.h:204-207 | true exactly if the sequence after the head is empty |
| IntrusiveList.First | src/soft_timer.c:125 | the first entry of the sequence |
| IntrusiveList.IsLast | src/generic_list.h:194-198 | true exactly for the last entry of the sequence |
| IntrusiveList.IsSingular | src/generic_list.h:246-249 | true exactly for sequences of length one |
| IntrusiveList.AddTail | src/generic_list.h:92-95 | appends to the sequence of one list; all rings stay linked and disjoint, every other list is unchanged |
| IntrusiveList.Unlink | src/generic_list.h:117-120 | removes a node from the one list that holds it without being told which; every other list is unchanged |
| IntrusiveList.Del | src/generic_list.h:122-127 | the same, with the node's own pointers cleared |
| IntrusiveList.DelInit | src/generic_list.h:160-164 | the same, with the node left as a ring of its own |
| IntrusiveList.Collect | src/soft_timer.c:114-121 | the safe walk moves exactly the entries that are due from one list to the end of another, both in order |
| LinkedWheel.ArmedIffLinked | src/soft_timer.h:54-62 | a timer is armed exactly if its node is not a ring of its own |
| LinkedWheel.MirrorsAdvance | src/soft_timer.c:97-121 | moving the nodes with the current tick from the ring of the current bucket to the ring of collected timers is what advancing the flat list does to all nine places |
| LinkedWheel.Wheel.Init | src/soft_timer.c:19-32 | nine empty rings and every timer node alone: the empty flat list |
| LinkedWheel.Wheel.RunningIffArmed | src/soft_timer.h:54-62 | the pointer test on a node decides whether its timer is armed in the flat list |
| LinkedWheel.Wheel.Start | src/soft_timer.c:62-78 | linking a node that is alone into the ring of its bucket is arming; a running timer is left alone |
| LinkedWheel.Wheel.Stop | src/soft_timer.c:87-94 | unlinking a node, from whichever of the nine rings holds it, is disarming |
| LinkedWheel.Wheel.Collect | src/soft_timer.c:97-121 | counting the tick and the safe walk over the ring of the current bucket are advancing the flat list |
| LinkedWheel.Wheel.TakeExpired | src/soft_timer.c:123-128 | unlinking the first collected node is firing the first due timer |
| LinkedWheel.Wheel.Drive | src/soft_timer.c:97-129 | a whole tick on the rings with arbitrary callbacks is the tick of the flat list, and terminates |
| RtpSource.StreamReconstructed | src/rtp.c:33-98 | for any stream of true sequence numbers within 99 behind and 2999 ahead of the running maximum, no packet is rejected, the record tracks the true position modulo 2^32 and every packet is counted |
| RtpSource.ProgressIsTrueDistance | src/rtp.c:33-98 | as long as the true distance is below 2^32, cycles + max_seq - base_seq is exactly the true maximum minus the true first number |
| RtpSource.ValidatedIffNoWrap | src/rtp.c:41-61 | two packets q, q + 1 after any first hearing validate the source if and only if q < 65535 |
| RtpSource.ReconstructedFromValidation | src/rtp.c:15-98 | from first hearing over validation to any later packet of the stream: all accepted, distance and count exact |
| RtpSource.RestartLosesNext | src/rtp.c:74-97 | the packet that re-synchronises a validated source is accepted, and whatever packet comes next is rejected |
| RtpSource.RestartLosesThirdPacket | src/rtp.c:74-97 | over the whole range of a jump: the first packet is rejected, the next in sequence accepted, and it re-synchronises, so that any third packet is rejected, exactly if the jump was not the largest possible one |
| SessionReception.VerdictIs | src/rtp.c:33-98 | a number is accepted on probation if and only if it is the second of two in sequence, and afterwards if and only if it is less than 3000 ahead, less than 100 behind, or follows one that was refused |
| SourceLife.ReportsTelescope | src/rtcp.c:485-526 | over any run without a restart the interval figures of successive report computations, sent or not, add up, modulo 2^32, to the change of the cumulative ones |
| SourceLife.LossAddsUp | src/rtcp.c:485-526 | from validation to a report computation, sent or not, the interval expected, received and lost figures of all computations sum to the cumulative ones |
| SourceLife.RecordCounts | src/rtp.c:33-98 | from validation on, without a restart, the record's expected and received counts, and what they grew by since the last report computation, are the sequence numbers gone by and the packets accepted, modulo 2^32 |
| SourceLife.UnsentIsUnreported | src/rtcp.c:504-526 | the intervals that ended with attempts not sent sum, modulo 2^32, to the sequence numbers that went by and the packets that were accepted in them |
| SourceLife.SentAddUpIff | src/rtcp.c:485-526 | as long as the counts have not wrapped, the interval figures of the attempts that were sent sum to the packets received if and only if no packet was accepted in an interval that ended with an attempt not sent; to the packets expected if and only if none moved the highest sequence number there; to the losses if and only if as many were accepted there as numbers went by |
| SourceLife.UnsentIsLost | src/rtcp.c:504-508 | an input for which nothing adds up: a source validated by packets 1 and 2, packet 3, a report that does not fit, then one that does, whose interval is empty |
| RtpSource.FractionExact | src/rtcp.c:525-526 | without duplicates and below 2^24 losses, the reported fraction is floor(256 lost / expected) if and only if not everything expected was lost |
| RtpSource.FractionForDuplicates | src/rtcp.c:510-526 | for every number of packets expected and every number of duplicates, the reported fraction, and that it is the defined one, 0, if and only if (-256 d mod 2^32) / expected is 0 modulo 256 |
| RtpSource.FractionWrongForDuplicates | src/rtcp.c:510-526 | an interval with one duplicate for which the fraction is wrong |
| RtpSource.LostExact | src/rtcp.c:499-502 | exactly when the masked cumulative loss is the 24-bit two's complement value of section 6.4.1 of RFC 3550 |
| RtpSource.ReportExact | src/rtcp.c:485-526 | all figures of a report from the record: highest number with its cycles, the masked loss, the loss since the last report, right exactly under those conditions, and the counts the next interval starts from |
| RtpSource.JitterIsInteger | src/rtcp.c:980 | the floating-point jitter update is floor((15 j + d) / 16) |
| RtpSource.ArrivalNoted | src/rtcp.c:964-981 | what an arrival does to the record: the transit time, and a sixteenth of the absolute value of its change in the jitter |
| RtpSource.JitterBounded | src/rtcp.c:964-981 | over any run the estimate never exceeds the larger of where it started and the largest transit change |
| RtpSource.JitterStep | src/rtcp.c:964-981 | under a steady change c the estimate stands still in the band c - 15 .. c and otherwise moves toward it without overshooting |
| RtpSource.JitterSettles | src/rtcp.c:964-981 | under a steady change the band is reached within the distance in steps and never left |
| SourceLife.FiguresOwnIffHeard | src/rtp_member.c:4-14 | over any sequence of operations on a member's record, the figures of a report do not depend on what the former occupant of the slot left behind if and only if the member has been heard on RTP since |
| SourceLife.FiguresInherited | src/rtp_member.c:4-14 | an input for which they do: a member not heard on RTP is reported with the losses of the former occupant |
| SourceLife.JitterOwnIffForgotten | src/rtp.c:15-30 | the jitter does not depend on what was left behind if and only if a packet has arrived and the smallest and the largest possible start have come to the same estimate |
| SourceLife.JitterInherited | src/rtp.c:15-30 | an input for which it does: one packet, and 3100 units of jitter left by the former occupant |
| RtpSource.ReceptionState.Init | src/rtp.c:15-30 | the field-by-field initialisation is the function on records |
| RtpSource.ReceptionState.Update | src/rtp.c:33-98 | the in-place sequence check is the function on records, with the same verdict |
| RtpSource.ReceptionState.MakeReport | src/rtcp.c:485-526 | the in-place loss computation is the function on records |
| RtpSource.ReceptionState.UpdateJitter | src/rtcp.c:964-981 | the in-place jitter update is the function on records |
| RtpPacket.RoundTrip | src/rtp.c:106-189 | for every payload, up to 15 CSRCs and either alignment, what is sent is accepted and returned exactly, padding stripped |
| RtpLayout.CheckIs | src/rtp.c:106-189 | a datagram is accepted with these fields if and only if they stand in it at their offsets, it has version 2, no extension, the expected payload type, and some payload if it is padded |
| RtpLayout.ErrorIs | src/rtp.c:106-189 | with which error a datagram is refused |
| RtpLayout.EncodeIs | src/rtp.c:437-480 | every octet of what is sent: flags and CSRC count, payload type, number, timestamp, SSRC, contributors, payload, zeros and the pad count |
| RtpPacket.WidePayloadTypeRejected | src/rtp.c:143-148 | a payload type of 128 or more is never accepted, because only seven bits of it are sent |
| RtpPacket.Aligned | src/rtp.c:456-478 | with alignment the size is the next multiple of four |
| RtpPacket.PacketBuffer.Build | src/rtp.c:427-480 | the in-place builder leaves exactly the bytes of the packet in the buffer, or refuses exactly the packets that are too big |
| RtpPacket.PacketBuffer.WriteUnpadded | src/rtp.c:437-454 | payload, fixed header and CSRC list, written in place in that order, form the unpadded packet |
| RtpPacket.PacketBuffer.Pad | src/rtp.c:460-477 | appends zeros and the pad count |
| RtcpCodec.CheckMessage | src/rtcp.c:55-104 | the loop over length fields computes the validity check |
| RtcpCodec.PacketRoundTrip | src/rtcp.c:743-874 | any packet that can be put on the wire, with any number of entries, any names and any BYE reason, is decoded to itself if and only if it has at most 31 entries and is not a source description whose length has a high octet above its low one; the walk finds the next packet either way |
| RtcpCodec.ChunkRoundTrip | src/rtcp.c:803-822 | an SDES chunk with its null octet and filling is walked exactly and the walk ends where the next chunk starts |
| RtcpCodec.CompoundRoundTrip | src/rtcp.c:901-951 | every compound of such packets that starts with a report passes the check, and is decoded to the same packets in order if and only if all of them are readable |
| RtcpCodec.SmallIsReadable | src/rtcp.c:794 | what fits less than 1028 octets is readable if and only if no packet has more than 31 entries |
| RtcpCodec.LongSdesIsLost | src/rtcp.c:794 | an input: a datagram of an empty report and an SDES packet of 1028 octets with one chunk of four names passes the check and is decoded to the report and a description without chunks |
| RtcpLayout.CheckIs | src/rtcp.c:55-104 | a datagram passes if and only if it starts with octets of version 2, no padding and type 200 or 201, and its length fields chain up to its end; and which error otherwise |
| RtcpLayout.ReportRead | src/rtcp.c:743-874 | a packet of type 200, 201 or 203 is decoded to these fields if and only if each is the big-endian number at its offset, blocks included |
| RtcpLayout.DescriptionRead | src/rtcp.c:789-829 | a packet of type 202 whose chunks end where the program looks for its end is decoded to them: items of type 1 are names, others are skipped |
| RtcpLayout.ReceiveReads | src/rtcp.c:901-951 | a datagram that passes and in which packets of these fields stand one after the other is received as these |
| RtcpLayout.PacketWritten | src/rtcp_encoder.c:42-354 | every packet with up to 31 entries is written with version, count, type and length in its header and every field in its place, names as items of type 1, and the reason of a goodbye after its length |
| RtcpLayout.ChunkWritten | src/rtcp_encoder.c:200-280 | a chunk is its SSRC, its items, and zero octets up to the next multiple of four |
| RtcpLayout.CompoundWritten | src/rtcp_encoder.c:42-354 | the octets of a compound are its packets in this layout, one after the other |
| RtcpEncoder.Encoder.constructor | src/rtcp_encoder.c:15-28 | an empty buffer with a fresh header |
| RtcpEncoder.Encoder.SrBegin | src/rtcp_encoder.c:57-86 | begins a sender report with exactly these fields, or refuses for lack of room and changes nothing |
| RtcpEncoder.Encoder.SrAddRr | src/rtcp_encoder.c:89-122 | adds one block to the open report in place, or refuses |
| RtcpEncoder.Encoder.RrBegin | src/rtcp_encoder.c:125-143 | begins a receiver report, or refuses |
| RtcpEncoder.Encoder.RrAddRr | src/rtcp_encoder.c:146-178 | adds one block to the open report in place, or refuses |
| RtcpEncoder.Encoder.SdesBegin | src/rtcp_encoder.c:181-197 | begins a source description, or refuses |
| RtcpEncoder.Encoder.ChunkBegin | src/rtcp_encoder.c:200-223 | opens a chunk, whatever the number of those before it, and counts it modulo 32, or refuses |
| RtcpEncoder.Encoder.AddCname | src/rtcp_encoder.c:226-246 | adds a name to the open chunk, or refuses |
| RtcpEncoder.Encoder.ChunkEnd | src/rtcp_encoder.c:249-280 | ends the chunk with one to four null octets; the filling always fits |
| RtcpEncoder.Encoder.ByeBegin | src/rtcp_encoder.c:283-299 | begins a BYE, or refuses |
| RtcpEncoder.Encoder.ByeAddSsrc | src/rtcp_encoder.c:302-320 | adds a source to the BYE and counts it modulo 32, or refuses |
| RtcpEncoder.Encoder.ByeAddReason | src/rtcp_encoder.c:323-354 | adds a reason, cut to what one length octet holds, or refuses |
| RtcpEncoder.Encoder.EndPacket | src/rtcp_encoder.c:43-54 | patching the length in place leaves exactly the bytes of all packets built so far |
| RtcpEncoder.Encoder.ReceiverRecovers | src/rtcp_encoder.c:42-354 | whatever sequence of calls built the buffer, if it starts with a report, a receiver accepts it, and recovers every packet if and only if all are readable; in a buffer below 1028 octets, if and only if no packet got more than 31 entries |
| RtcpEncoder.Encoder.OctetsStand | src/rtcp_encoder.c:42-354 | whatever sequence of calls built the buffer, every octet stands where the layout of its packets wants it, if none got more than 31 entries |
| SessionResults.CountersAreCounts | src/rtcp.c:343-402 | in every reachable state members and senders are plain counts over the member table, and neither has wrapped |
| SessionResults.TimersFollowLife | src/rtp_timers.c:27-153 | in every reachable state exactly these timers run: RTCP always; member, sender and leave timer of a member according to its state; own sender timer while we send; one per conflict entry |
| SessionResults.NoneOutlives | src/rtp_timers.c:88-140 | between steps no member is older than its timeout allows: 100, 50 or 30 ticks |
| SessionResults.TickIsExact | src/soft_timer.c:97-129 | a tick removes a member if and only if its time is up, and takes sender status away if and only if 50 ticks have passed |
| SessionResults.ByeStays | src/rtp.c:239-243 | after a BYE the member's entry stays exactly as it is for 30 ticks, whatever arrives |
| SessionResults.ByeRemoved | src/rtp_timers.c:46-53 | and is removed in exactly the 30th tick after the first BYE |
| SessionResults.QuietMemberStays | src/rtcp.c:420-435 | over any run in which nothing refreshes a member, it stays until 100 ticks after its last refreshing packet |
| SessionResults.QuietMemberRemoved | src/rtcp.c:420-435 | and is removed in exactly the 100th |
| SessionResults.SilentSender | src/rtcp.c:438-452 | over any run in which a member stays but no RTP packet of it arrives, it counts as a sender if and only if fewer than 50 ticks have passed since its last one |
| SessionResults.OwnSender | src/rtp.c:414-422 | over any run from initialisation on, we ourselves count as a sender if and only if the user has sent something within the last 50 ticks |
| SessionReports.ReportCoversOthers | src/rtcp.c:467-560 | an attempt to report has, in table order, one block for every other live member as far as there is room; the fields of each are the member's SSRC, the loss figures, highest number and jitter of the record in its slot, the middle of its last sender report's time and the delay given; it moves on exactly the interval counters of these members and of the first one that does not fit; every other slot stays as it is; all fit if and only if there is room |
| SessionReports.ReportStands | src/rtcp.c:529-625 | what an attempt sends, if it sends: a sender or receiver report with our SSRC, clocks and counts and a block on every other member, then our name |
| SessionReports.ReportSentIff | src/rtcp.c:563-625 | a report is sent if and only if header, blocks and our name together take at most 256 octets; either way exactly those counters are moved on |
| SessionReports.OthersCounted | src/rtcp.c:467-560 | the members a report is about are as many as the counter of members says, less ourselves |
| SessionResults.ReportsAreSentIff | src/rtcp.c:563-625 | in every run, an attempt to report was sent if and only if a block for each other member counted and our name fitted 256 octets; with ten others or more none was |
| SessionResults.Crowd | src/rtcp.c:633-663 | a session with any number of other members up to 31 is reached by as many datagrams |
| SessionResults.TenOthersSilenceUs | src/rtcp.c:563-625 | an input for which a report is not sent: ten others have joined; all their counters are moved on |
| SessionResults.FiguresAreOwn | src/rtp_member.c:4-14 | in every reachable state, the exact conditions under which the sequence and loss figures of a member, and its jitter, do not depend on the former occupant of its slot |
| SessionResults.NewcomerInherits | src/rtp.c:202-231 | a member that joins by RTCP takes over the whole reception record of the former occupant, one that joins by RTP its transit time and jitter |
| SessionResults.SenderReportEchoed | src/rtcp.c:756-760 | after a sender report is accepted, the block about its source echoes the middle 32 bits of its NTP timestamp |
| SessionResults.ReconsiderationUnreachable | src/rtcp.c:393-401 | in every reachable state pmembers is one and reverse reconsideration does nothing |
| SessionResults.ReconsiderScales | src/rtcp.c:393-401 | where it acts, lastTx <= tp <= tc and tn - tp is scaled by members over pmembers |
| SessionResults.ReportsAreSpaced | src/rtcp.c:155-222 | until the millisecond clock wraps, any two attempts to report, and so any two reports sent, are at least 2.5 / 1.21828 seconds and half of the bandwidth-derived interval of the later one apart, computed for at least one member |
| SessionResults.ReportsAreReadable | src/rtcp.c:563-625 | in every run, every report that was sent is accepted by a receiver and decoded to the packets put in |
| SessionResults.SentInSequence | src/rtp.c:409-485 | in every run, the packets we send are numbered consecutively modulo 65536 and pass the validity check |
| SessionResults.DeliveriesAreSafe | src/rtp.c:338-405 | in every run, a delivered packet came from the address bound at first hearing, from a source that had not said goodbye, and the first one follows a packet checked just before |
| SessionResults.ConflictsAreCached | src/rtp_source_conflict.c:50-86 | in every reachable state an address is found exactly if it was added or found within the last 50 ticks |
| SessionResults.RenumberedSeldom | src/rtp.c:293-311 | every change of our SSRC because of an address comes at least 50 ticks after the address was last entered into the conflict table or found in it; after a recorded change there is such a time, not before that change |
| SessionResults.CollisionRenumbersIff | src/rtp.c:293-311 | a packet with our SSRC from a foreign address changes our SSRC, to one used by nobody, if and only if the address was not touched within the last 50 ticks; otherwise it only restarts its quiet time |
| SessionResults.LooperRenumbersOnce | src/rtp_source_conflict.c:50-86 | over any run in which an address is never quiet for 50 ticks, it causes no further change of our SSRC |
| SessionResults.TableIsPartitioned | src/rtp_member_table.c:10-121 | in every reachable state used and free slots partition the 32 slots and no two members share an SSRC |
| SessionResults.ConflictsArePartitioned | src/rtp_source_conflict.c:18-86 | in every reachable state the conflict table's sixteen entries are used or free, and no address is in it twice |
| SessionResults.DeinitDisarmsAll | src/rtp_session.c:65-83 | tearing a reachable session down leaves no timer armed |
| SessionReception.DeliveredIff | src/rtp.c:338-405 | a datagram hands exactly one packet to the user, with the fields, contributors and payload read from its octets, if and only if its header passes and its SSRC is that of another member that sends, has not said goodbye, is bound to the address it came from and whose record accepts its number; otherwise nothing |
| SessionReception.EntryAfter | src/rtp.c:197-405 | what a datagram makes of the entry of every other member in the table: first heard, checked, its arrival noted in the jitter, validated; each contributor refreshed and noted once for each time it is named; all others untouched |
| SessionJoining.SourceEnters | src/rtp.c:202-231 | an unknown source enters the first free slot, with these fields, or is refused if there is none |
| SessionJoining.ContributorsJoin | src/rtp.c:376-390 | with a delivered packet, the unknown contributors enter the first free slots, validated and marked as contributors, as many as find one |
| SessionJoining.OwnSsrcArrives | src/rtp.c:270-311 | our own SSRC from another address delivers nothing and changes our SSRC if and only if the address has not been in the conflict table within 50 ticks |
| SessionJoining.VerdictAfter | src/rtp.c:236-405 | which status a packet of a known member leaves, and that nobody joins unless it is delivered |
| SessionJoining.RefusedIsCounted | src/rtp.c:348-352 | a datagram that fails the check changes nothing but its counter and the status |
| SessionJoining.RtpChangesOnly | src/rtp.c:338-405 | receiving RTP touches neither the RTCP interval, but for its counts, nor what is sent, reported or told |
| SessionStreams.StreamDelivered | src/rtp.c:338-405 | over any run, every packet of a validated stream that stays within the window reaches the user, in order and once, whatever else happens in between, as long as the stream is never silent for 50 ticks |
| SessionStreams.ThirdIsDelivered | src/rtp.c:33-61 | from an unknown source, the first packet and the first of two in sequence are not delivered, the second is, and the stream has begun |
| SessionFeedback.KnownSource | src/rtcp.c:666-730 | what an RTCP source that is known leads to: its entry, the average size, the status |
| SessionFeedback.UnknownSourceEnters | src/rtcp.c:638-663 | an unknown RTCP source enters the first free slot with these fields and is counted, or is refused |
| SessionFeedback.OwnSource | src/rtcp.c:693-722 | our own SSRC on RTCP from another address, as on RTP |
| SessionFeedback.EntryAfterRtcp | src/rtcp.c:743-951 | what a received datagram makes of the entry of every other member, packet by packet: sender figures, last name, goodbye |
| SessionFeedback.ByeLeaves | src/rtcp.c:832-874 | a goodbye for any list of foreign sources: exactly the listed members that had not left are marked and counted out, as members and, if heard on RTP, as senders, and only their leave timers run, for 30 ticks; all else is as before |
| SessionFeedback.LeavesIff | src/rtcp.c:832-951 | a received datagram makes a member leave if and only if some goodbye in it names the member; its leave timer is then due in 30 ticks, and the counters count whoever has not left |
| SessionTold.ReportTold | src/rtcp.c:734-786 | a report from a source that is listened to or can join is told block by block, and a sender report once more as a whole; any other is not |
| SessionTold.OthersNotTold | src/rtcp.c:789-874 | descriptions and goodbyes are not told |
| SessionTold.SenderEnters | src/rtcp.c:743-769 | a sender report from an unknown source: its figures stay in the new entry |
| SessionTold.RtcpChangesOnly | src/rtcp.c:901-951 | receiving RTCP delivers, sends and reports nothing; what fails the check is only counted |
| SessionSums.FiguresAreReported | src/rtcp.c:467-625 | in every reachable state, each computation of a member's figures was for an attempt to report of its own, and if that report was sent it holds a block on the member with these figures, its highest number, its jitter and the delay given for its slot |
| SessionSums.FiguresAddUpIff | src/rtcp.c:485-625 | in every reachable state, from a member's validation to any later attempt to report: all interval figures sum to the cumulative ones, a report that was sent shows the figures of that record, and the intervals whose reports were sent sum to its counts exactly under the conditions of SentAddUpIff |
| SessionSums.SenderCountsIff | src/rtp.c:424-431 | in every reachable state, the packet and octet counts of a sender report are those sent since we took our SSRC, modulo 2^32, if and only if the packets and octets refused since are zero modulo 2^32 |
| SessionSums.AttemptInTime | src/rtcp.c:106-135 | in every reachable state before the millisecond clock wraps, the RTCP timer is due in a later tick: the first not before the scheduled time, cut to whole milliseconds, if that time fits a signed 32-bit word |
| SessionSums.NextAttemptInTime | src/rtcp.c:155-222 | on expiry an attempt is made if and only if the interval drawn now has passed since the last one; then the time of the last one, the average size (15/16 of the old, 1/16 of what was sent), the next interval drawn with it and the end of the halved minimum are exactly these; if not, only the rest of the interval is waited for; the timer is due in time |
| SessionAttempts.TickAttempts | src/rtcp.c:155-222 | a tick makes an attempt if and only if the RTCP timer is due in it and the interval drawn then has passed; what is then scheduled; and otherwise the timer, the interval and the reports stay as they are |
| SessionAttempts.ReportsStand | src/rtcp.c:529-625 | in every run, every report that was sent has our SSRC, clocks and counts, a block on each other member that was there, with its jitter, loss figures, last sender report and delay, and our name, and these stand in its octets one after the other |
| SessionMentions.UnmentionedIsUntouched | src/rtp.c:197-405 | no packet that arrives, and no transmission, touches the entry of a member it does not name as source, contributor, described or leaving source |
| SessionMentions.RtpRefreshesIff | src/rtp.c:197-320 | a member named as source or contributor of an RTP packet is refreshed if and only if it has not said goodbye and is not known to send or was bound to the same address; otherwise its entry stays as it is |
| SessionMentions.RtcpRefreshesIff | src/rtcp.c:633-730 | the same for the source of an RTCP report or description |
| SessionMentions.UnmentionedIsQuiet | src/rtcp.c:420-452 | over any run whose packets do not name a member, it is quiet and silent in the sense of QuietMemberStays and SilentSender, as long as its time is not up |
| SessionMentions.UnmentionedLeaves | src/rtcp.c:420-435 | over any such run the member stays, and is removed in exactly the 100th tick after its last refreshing packet |
| SessionResults.StepReachable | src/rtp_session.c:85-115 | an admissible step of a reachable state is reachable, and keeps everything above |
| SessionResults.InitGood | src/rtp_session.c:33-55 | the initial state satisfies every invariant |
| SessionResults.InitIs | src/rtp_session.c:33-55 | the values everything starts with: our SSRC and first number from the random words, one member, no sender, an average of 256 octets, the halved first interval |
| SessionSteps.StepGood | src/rtp_session.c:99-115 | every admissible event keeps every invariant, and keeps or ages members as described |
| SessionSteps.HandleRtpSsrcKeeps | src/rtp.c:197-320 | every branch of RTP source handling keeps the invariants and removes or demotes nobody |
| SessionSteps.AcceptRtpKeeps | src/rtp.c:361-405 | sequence check, jitter, CSRC list and delivery keep the invariants and the delivery condition |
| SessionSteps.TxSends | src/rtp.c:409-485 | what a transmission appends to the network, with which number, or nothing if too big; either way it is tallied |
| SessionSteps.TooBigIs | src/rtp.c:427-465 | which packets are refused: more than 1024 octets, or more than 1020 if padding is needed |
| SessionSteps.TxShape | src/rtp.c:409-485 | everything else that a transmission changes: our sender flag and timer, and the senders counted |
| SessionSteps.TxKeeps | src/rtp.c:409-485 | a transmission keeps the invariants: the own sender is counted once and its timer runs |
| SessionSteps.HandleRtcpSsrcKeeps | src/rtcp.c:633-730 | every branch of RTCP source handling keeps the invariants |
| SessionSteps.HandleByeKeeps | src/rtcp.c:832-874 | a BYE packet with any list of foreign sources keeps the invariants |
| SessionSteps.RtcpTimedOutKeeps | src/rtcp.c:155-222 | the expiry of the RTCP timer re-arms it and counts nobody |
| SessionSteps.DispatchAllKeeps | src/soft_timer.c:123-128 | handling all due timers of a session, one by one, keeps the invariants and only ages members |
| SessionInterval.IntervalIs | src/rtcp.c:230-323 | the interval from the control variables and plain numbers: the average size times all members over the bandwidth if more than a quarter send, else times the senders over a quarter of it for a sender, or times the others over three quarters of it; at least 5 seconds, 2.5 before the first report; times the draw plus a half, over 1.21828 |
| SessionInterval.IntervalFloor | src/rtcp.c:230-323 | the randomised interval is at least 2.5 / 1.21828 and half of what the bandwidth allows, compensated |
| SessionInterval.IntervalWithin | src/rtcp.c:230-323 | the randomised interval lies between half and one and a half times the larger of the minimum and what the bandwidth allows, compensated |
| SessionHistory.ReportIsReadable | src/rtcp.c:563-625 | a report is sent exactly if it fits, and is then readable |
| SessionInvariant.RenumberIsFresh | src/rtp_member_table.c:104-121 | the new SSRC is used by nobody in the table |
| SessionInvariant.MemberTimedOutKeeps | src/rtcp.c:420-435 | removing a silent member keeps table, counters and timers in step |
| SessionInvariant.SenderTimedOutKeeps | src/rtcp.c:438-452 | taking sender status away, from another or from ourselves, keeps them in step |
| Tables.MemberTable.constructor | src/rtp_member_table.c:10-20 | all 32 slots free |
| Tables.MemberTable.Lookup | src/rtp_member_table.c:29-41 | finds the first used slot with the SSRC, or none |
| Tables.MemberTable.Alloc | src/rtp_member_table.c:44-62 | moves the first free slot to the end of the used list and reinitialises it, or fails if none is free |
| Tables.MemberTable.Free | src/rtp_member_table.c:65-71 | moves a slot from the used list to the end of the free list |
| Tables.MemberTable.ChangeRandomSsrc | src/rtp_member_table.c:104-121 | the retry loop stops at the first drawn SSRC that nobody uses |
| Tables.ConflictCache.Lookup | src/rtp_source_conflict.c:50-64 | finds an address and restarts its quiet time, or changes nothing |
| Tables.ConflictCache.Add | src/rtp_source_conflict.c:67-86 | records an address and starts its quiet time, or fails if the table is full |
| Tables.ConflictCache.Expired | src/rtp_source_conflict.c:6-15 | frees the entry |
| SessionObject.RtpSession.Initialise | src/rtp_session.c:33-55 | initialisation in place reaches the initial state of the machine |
| SessionObject.RtpSession.SessionRxRtp | src/rtp_session.c:99-103 | receiving RTP in place is the reception of the machine, wherever the packet comes from; if the environment behaves the state stays reachable |
| SessionObject.RtpSession.SessionRxRtcp | src/rtp_session.c:105-109 | receiving RTCP in place is the reception of the machine; if the environment behaves the state stays reachable |
| SessionObject.RtpSession.SessionTx | src/rtp_session.c:85-90 | sending in place is the transmission of the machine, and keeps the state reachable |
| SessionObject.RtpSession.SessionTimerTick | src/rtp_session.c:111-115 | a tick in place is the step of the machine, and keeps the state reachable |
| SessionObject.RtpSession.SessionDeinit | src/rtp_session.c:65-83 | tearing down in place stops the RTCP timer and the timers of all used members and conflict entries |
| SessionObject.RtpSession.AllocMember | src/rtp_session_util.c:5-18 | allocates a member, or fails if the table is full |
| SessionObject.RtpSession.DeallocMember | src/rtp_session_util.c:21-26 | stops a member's three timers and frees its slot |
| SessionObject.RtpSession.HandleRtpSsrc | src/rtp.c:197-320 | all branches of RTP source handling, in place |
| SessionObject.RtpSession.Collide | src/rtp.c:293-311 | our own SSRC from a foreign address: found in the conflict table, or recorded and renumbered |
| SessionObject.RtpSession.HandleCsrcs | src/rtp.c:376-390 | the loop over contributing sources |
| SessionObject.RtpSession.AcceptRtp | src/rtp.c:361-405 | sequence check, jitter, validation, CSRC loop and delivery, in place |
| SessionObject.RtpSession.RxRtp | src/rtp.c:338-405 | reception of a datagram, in place |
| SessionObject.RtpSession.Tx | src/rtp.c:409-485 | transmission, in place, through the packet buffer |
| SessionObject.RtpSession.IntervalCalc | src/rtcp.c:230-323 | the interval computed step by step is the interval function, and uses one random draw |
| SessionObject.RtpSession.CountRtp | src/rtcp.c:343-358 | the counters after an RTP event |
| SessionObject.RtpSession.CountRtcp | src/rtcp.c:369-378 | the counters and the average size after an RTCP event |
| SessionObject.RtpSession.CountLeaving | src/rtcp.c:379-402 | the counters after a BYE or a timeout, with reverse reconsideration |
| SessionObject.RtpSession.ReverseReconsider | src/rtcp.c:393-401 | scales both times and re-arms the timer if members fell below pmembers |
| SessionObject.RtpSession.HandleRtcpSsrc | src/rtcp.c:633-730 | all branches of RTCP source handling, in place |
| SessionObject.RtpSession.HandleSr | src/rtcp.c:743-769 | a sender report is recorded and handed to the user block by block |
| SessionObject.RtpSession.HandleRr | src/rtcp.c:772-786 | a receiver report is handed to the user block by block |
| SessionObject.RtpSession.HandleSdes | src/rtcp.c:789-829 | the loop over chunks; the last name of a chunk stays and validates the member |
| SessionObject.RtpSession.HandleBye | src/rtcp.c:832-874 | the loop over sources; unknown and already leaving ones are skipped |
| SessionObject.RtpSession.RxRtcp | src/rtcp.c:901-951 | check, then the walk by length fields, handling each packet in place |
| SessionObject.RtpSession.SenderTimedOut | src/rtcp.c:438-452 | a sender falls silent |
| SessionObject.RtpSession.MemberTimedOut | src/rtcp.c:420-435 | a member falls silent |
| SessionObject.RtpSession.GenRr | src/rtcp.c:467-560 | one block per other live member, in table order, until one does not fit |
| SessionObject.RtpSession.SendReport | src/rtcp.c:563-625 | the report is built in the encoder's buffer; its bytes are those of the report packets, or nothing is sent |
| SessionObject.RtpSession.RtcpTimedOut | src/rtcp.c:155-222 | timer reconsideration: report now or wait |
| SessionObject.RtpSession.HandleExpiry | src/rtp_timers.c:27-53 | dispatch of an expired timer to its callback |
| SessionObject.RtpSession.Tick | src/soft_timer.c:97-129 | the session's tick: collect, then dispatch until nothing is due; terminates |
| SessionObject.ComputeInterval | src/rtcp.c:230-323 | the step-by-step computation with its local variables yields the interval |
| Md5.FirstRound | src/md5.c:145-160 | sixteen unrolled steps are the table-driven steps 0 to 15 |
| Md5.SecondRound | src/md5.c:163-178 | sixteen unrolled steps are the table-driven steps 16 to 31 |
| Md5.ThirdRound | src/md5.c:181-196 | sixteen unrolled steps are the table-driven steps 32 to 47 |
| Md5.FourthRound | src/md5.c:199-214 | sixteen unrolled steps are the table-driven steps 48 to 63 |
| Md5.Unrolled | src/md5.c:138-219 | the unrolled transform is the table-driven loop of section 3.4 of RFC 1321 |
| Md5.WordOctetsRoundTrip | src/md5.c:227-247 | decoding the encoding of a word gives the word |
| Md5.CountBits | src/md5.c:84-88 | the two-word counter with its carry test is 8 * length modulo 2^64 |
| Md5.FoldAppend | src/md5.c:95-102 | folding over whole blocks may be split anywhere between blocks |
| Md5.Md5Context.constructor | src/md5.c:64-73 | the empty message |
| Md5.Md5Context.Transform | src/md5.c:138-224 | updates the state words in place by the compression of one block |
| Md5.Md5Context.Update | src/md5.c:76-110 | a chunk of any size up to 2^32 - 64 extends the message; state, buffer and count stay in step |
| Md5.Md5Context.Final | src/md5.c:113-135 | returns the digest of everything hashed, and wipes the context |
| Md5.HashChunks | src/md5.c:64-135 | however a message is cut into chunks, the result is the digest of the whole |
| Md5Answers.DigestOfAbc | src/md5.c:64-224 | the sixteen octets computed for the message "abc" |
| TelnetReader.FeedChunks | libutils/telnet_reader.c:123-131 | the reader does not depend on how its input is cut |
| TelnetReader.RecoveredIffFits | libutils/telnet_reader.c:60-113 | an escaped stream is recovered exactly if and only if no subnegotiation has more than 32 octets or one of 255 |
| TelnetReader.StreamFed | libutils/telnet_reader.c:60-113 | what any escaped stream turns into, token by token |
| TelnetReader.CodesOnTheWire | libutils/telnet_reader.c:11-113 | the octets 255, 251 to 254, 250 and 240, alone, doubled, before an option and around data |
| TelnetReader.TelnetReader.HandleCommand | libutils/telnet_reader.c:11-33 | the command after an IAC |
| TelnetReader.TelnetReader.HandleSubcommand | libutils/telnet_reader.c:36-57 | one octet inside a subnegotiation |
| TelnetReader.TelnetReader.StateMachine | libutils/telnet_reader.c:60-113 | one octet, in place |
| TelnetReader.TelnetReader.FeedBytes | libutils/telnet_reader.c:123-131 | a chunk, in place |
| CircBuffer.RunIsFifo | libutils/circ_buffer.c:60-172 | over any run the queue holds the stream of what it held at first and what went in since, less what is gone at its front, within the bound |
| CircBuffer.GetsInOrder | libutils/circ_buffer.c:95-172 | after any run, a get or a peek hands back exactly the bytes of that stream at the place up to which it is gone, or nothing |
| CircBuffer.NothingLost | libutils/circ_buffer.c:60-117 | over any run without advance and reset, what came out and what is still held is what was held at first and what went in, in this order |
| CircBuffer.CircularBuffer.Run | libutils/circ_buffer.c:60-172 | any run of operations on the array is answered as the queue answers it, and the bytes returned and still held are those held at first and accepted, in this order |
| CircBuffer.CircularBuffer.constructor | libutils/circ_buffer.c:15-31 | an empty queue of any size |
| CircBuffer.CircularBuffer.Put | libutils/circ_buffer.c:60-82 | all or nothing, across the end of the array |
| CircBuffer.CircularBuffer.Get | libutils/circ_buffer.c:95-117 | the oldest bytes, removed, or nothing |
| CircBuffer.CircularBuffer.Peek | libutils/circ_buffer.c:153-172 | the oldest bytes, kept |
| CircBuffer.CircularBuffer.Advance | libutils/circ_buffer.c:130-140 | the oldest bytes, dropped |
| CircBuffer.CircularBuffer.Reset | libutils/circ_buffer.h:30-36 | the empty queue |

## Left out

- SessionResults.ReportsAreSpaced: holds until the 32-bit millisecond clock wraps, after about 49 days; at the wrap the code compares a small time with a large one.
- RtpSource.FractionExact: for less than 2^24 losses in an interval; intervals with duplicates are the subject of RtpSource.FractionForDuplicates.
- SessionSums.AttemptInTime: holds until the same clock wraps; likewise NextAttemptInTime.
- SourceLife.SentAddUpIff: for counts below 2^32 since validation; beyond, LackIsUnreported states the same for the counts modulo 2^32.
- RtcpEncoder.Encoder.ByeAddSsrc: up to the 32nd source; from the 33rd on the code overwrites the first ones and leaves old octets of the buffer behind them.
- RtcpEncoder.Encoder.SrAddRr: up to the 32nd block, for the same reason.
- RtcpEncoder.Encoder.RrAddRr: up to the 32nd block, for the same reason.
- SoftTimer.Wheel.Drive: callbacks are scripts of start and stop calls; what the session's callbacks do is modelled in SessionObject.RtpSession.Tick.
- SoftTimer.Wheel.Start: buckets are sequences in the wheel that the session uses; the wheel on linked nodes is LinkedWheel.
- LinkedWheel.Wheel.Collect: the head of the list of collected timers, a local variable in the code, belongs to the wheel; it is empty between ticks.
- Tables.MemberTable.Alloc: used and free lists are sequences of slot numbers; that linked lists behave as sequences is proved in IntrusiveList.
- SessionJoining.ContributorsJoin: for packets that do not have our own SSRC among their contributors; then the collision may give us, in the middle, an SSRC of the list.
- SessionAttempts.TickAttempts: the control variables at the time of the expiry are those before the tick, but for members and senders that leave in the same tick.
- RtcpCodec.PacketRoundTrip: bodies are decoded by functions, not by loops over memory; bodies that run past the message are excluded.
- RtpPacket.PacketBuffer.Build: packets that pass the size test of 1024 octets but exceed the buffer are excluded; the code writes them past the end of the buffer.
- SessionObject.RtpSession.RxRtcp: compounds that pass the check with a body that runs past the message are excluded; what the code then reads lies outside the message.
- SessionObject.RtpSession.SessionRxRtcp: the same exclusion.
- SessionObject.RtpSession.SessionTx: the same exclusion as for Tx.
- SessionObject.RtpSession.Tx: only packets that fit the 256-octet buffer or exceed 1024 octets; what the code overwrites behind the buffer otherwise is not modelled.
- SessionObject.RtpSession.SendReport: the wall clock (NTP time, the delay since the last sender report) and the media clock are inputs.
- CircBuffer.CircularBuffer.Put: moving an index by nothing in a buffer of size zero, where the code divides by zero, is excluded; likewise in Get and Advance.
- Session.DeltaMillis: converting a negative or very large `double` to an unsigned word is undefined in C; it is taken as 1 ms.
- User callbacks are appends to output traces and do not call back into the session.
- Sending BYE (`rtcp_tx_bye` is empty), header extensions, APP packets and `rtp_member_table_change_ssrc` (for tests only).
- Big-endian layouts; packets are byte sequences in the configured little-endian layout.
- `ntp_ts.c` and `rtp_random.c`: host clock and entropy; random words are an arbitrary stream.
- `demo/`, the command line, sockets, `stream.c` and logging.
