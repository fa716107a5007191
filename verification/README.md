# The PLP protocol stack of plptools, modelled and proved in Dafny

plptools talks to Psion organisers over a serial line. Its daemon `ncpd` stacks three layers: the data
link frames packets and checks them, the link numbers them and sends them again until they are
acknowledged, and NCP cuts messages into fragments for numbered channels and puts them together again.
This project models that stack from the bytes on the line up to the messages of a channel, and three codecs
beside it: Psion bitmaps, path names and the settings file.

`dafny verify dfyconfig.toml` checks everything.

## How the model is built

Code that changes state step by step is a class or a method with loops, proved against a function on values;
the laws are lemmas about those functions, so they hold of the model's classes and methods.

| file | models |
|---|---|
| Bytes, Crc | bytes; the check value as polynomial division by x^16+x^12+x^5+1 (section 2 of ITU-T Recommendation V.41, register start 0) |
| Framing, Ring, Scan, DataLink, Pump | frames and a byte-at-a-time receiver; ring arithmetic; the scan loops byte by byte and where they miss the end of the data; the class with the resumable parser and the shared output ring; the input side of the pump thread turn by turn, and when a full ring stalls it |
| Packets, LinkSpec, Link, LinkRuns | the packet header; the link's operations as functions; the class with its erase-while-iterating loops, and its runs |
| Window, Stamps, Arq, Network, GiveUp | why numbers modulo 8 or 2048 are enough; two links over lossy lines and the safety of every run that gives up at most 1990 packets a side; the run that gives up 1991, and the one with a clock that stands still, that break it |
| LinkEvents, LinkModes, LinkFrames, LinkQueues, LinkChannels, LinkLimits | what each frame, call and timer does to a link, the frames given byte for byte; what every run of one link keeps; what it sends; where packets are and in what order, over all and for one channel under flow control; where the link falls short, and exactly when it does not |
| Ncp, Stack, EndToEnd, Completeness | fragments and reassembly; the layers composed; messages from one NCP to the other in every run; that nothing is left behind when nothing is lost |
| BufferStore | the byte container under all of them |
| Bitmap, Paths, Ini | the codecs |

The clock is a function from readings to times, the memory behind a buffer's content is a value `stale`, the
failure flag of the data link is a field that a run may set at any time, and the expiry time of the timer is
any number. A run is a list of steps; what the lines lose and when a timer fires is part of it.

What the source keeps only in its behaviour, the model records in logs that nothing reads back: the frames
sent, the packets numbered and accepted, the payloads handed up, the bytes that arrived and were written.

## Where the code and its documentation differ

The model follows the code.

- `Link::purgeQueue` is documented to drop the packets of a remote channel (lib/link.h:116-122); it compares
  the channel with the header byte of the frames awaiting acknowledgement (lib/link.cc:152).
- `BufferStore::truncate` is documented to take the new length of the buffer; it cuts what was written,
  discarded bytes included (lib/bufferstore.cc:205-209). That cuts the content to the new length if and only if
  nothing or everything was discarded, the new length is 0, or it is no less than what was written.
- The bitmap decoder reads a depth from the header (lib/psibitmap.cpp:150), but its mask (lib/psibitmap.cpp:164) is right for
  1 and 2 bits only.
- The settings file is said to break on multi-line values and trailing white space; an empty value that is
  not the last one breaks it too (lib/ini.cc:94-99).

## Model

| member | source | states |
|---|---|---|
| Crc.RemainderIsUnique | lib/datalink.cc:232-239 | the bitwise long division by 0x11021 is polynomial division: r is the remainder of n exactly when n is a multiple of the generator plus r, for r below 2^16 |
| Crc.BuildTable | lib/datalink.cc:232-239 | the table filled by doubling holds, at every index b, the remainder of b * 2^16 divided by the generator |
| Crc.AddToCrcDivides | lib/datalink.h:70-72 | one table-driven step is one byte of polynomial division |
| Crc.CrcOfSnoc | lib/datalink.h:70-72 | feeding the bytes of a message through the table leaves the remainder of the whole message |
| Crc.FirstChecks | lib/datalink.cc:232-239 | the check value of no bytes is 0, and that of the single byte 1 is 0x1021 |
| Crc.SuffixKeepsDifference | lib/datalink.cc:372-398 | messages with different check values still differ after any common continuation |
| Crc.PairChangesCrc | lib/datalink.cc:372-398 | two messages that differ in their last two bytes only have different check values |
| Crc.BurstDetected | lib/datalink.cc:372-398 | the same with any common bytes before and after |
| Crc.TwoByteDamageDetected | lib/datalink.cc:372-398 | two messages of equal length, any length, that differ only within two adjacent bytes always have different check values |
| Framing.FrameLength | lib/datalink.cc:353-398 | a frame of n payload bytes is between n + 7 and 2n + 7 bytes long |
| Framing.FrameBytes | lib/datalink.cc:353-398 | a frame is 0x16 0x10 0x02, the payload with every 0x10 doubled and, for EPOC, every 3 as 0x10 4, then 0x10 3 and the check value, high byte first |
| Framing.EscapedByte | lib/datalink.cc:458-483 | behind 0x10 in a frame, 3 ends the payload, 4 stands for 3 and any other byte for itself |
| Framing.RunSplit | lib/datalink.cc:422-541 | receiving is independent of where the bytes are split |
| Framing.BodyUnstuffs | lib/datalink.cc:458-483 | the receiver undoes the stuffing of any payload, in both stuffings |
| Framing.EnclosedFrame | lib/datalink.cc:484-509 | an enclosed payload is delivered exactly when the check bytes are its own, and the receiver hunts again afterwards |
| Framing.FrameRoundTrip | lib/datalink.cc:353-398 | a sent frame is received as its payload |
| Framing.FramesRoundTrip | lib/datalink.cc:353-398 | any list of payloads, each in either stuffing, is received as that list |
| Framing.WrongCheckRemovesOnlyItself | lib/datalink.cc:495-509 | a frame with any wrong check value, whatever the damage it stands for, removes itself and no other frame |
| Framing.DamagedFrameRemovesOnlyItself | lib/datalink.cc:495-509 | so does a frame damaged within two adjacent payload bytes |
| Framing.FrameNeedsFreshHunt | lib/datalink.cc:431-452 | a frame is received exactly when the hunt is not half-way through a stray SYN or SYN DLE; otherwise it is missed whole |
| Ring.StoredLength | lib/datalink.cc:401-406 | the number of stored bytes, and the free space computed with the mask, add up to 4095 |
| Ring.StoredAppend | lib/datalink.cc:413-416 | writing at the write index with a cell to spare appends to the stored bytes, across the wrap |
| Ring.StoredDrop | lib/datalink.cc:145-156 | advancing the read index drops stored bytes, across the wrap |
| Ring.FullLooksEmpty | lib/datalink.cc:164-174 | after reading exactly as much as there is room, the ring looks empty |
| DataLinks.DataLink.constructor | lib/datalink.cc:219-242 | a new data link is in step with an empty line |
| DataLinks.DataLink.Assemble | lib/datalink.cc:353-398 | the message built byte by byte is the frame of the payload |
| DataLinks.DataLink.Enqueue | lib/datalink.cc:400-420 | a message that fits is appended whole to what is pending; after cancellation nothing is; what was written and what is pending is always the concatenation of whole messages in lock order |
| DataLinks.DataLink.PumpWrite | lib/datalink.cc:139-157 | the port gets the first of the pending bytes, so always a prefix of the messages in lock order |
| DataLinks.DataLink.Shutdown | lib/datalink.cc:128-132 | cancelling leaves both rings as they are |
| DataLinks.DataLink.PumpRead | lib/datalink.cc:159-176 | the ring and the write index after a read; one that leaves a cell free appends to the unread bytes and keeps the parser in step; one that fills the ring makes all unread bytes vanish |
| DataLinks.DataLink.ProcessInputData | lib/datalink.cc:422-541 | resumed over the ring, a call hands on a prefix of what the byte-at-a-time receiver makes of everything that arrived; all of it, and leaving unread exactly what came behind the last frame, unless bytes wait to be sent, and then it has made progress; the speed is doubted exactly when, still at the start, more than 15 bytes hold no frame |
| DataLinks.DataLink.ScanAvailable | lib/datalink.cc:422-541 | a call takes exactly the steps of the byte-by-byte loops from where the last one stopped and hands on what they find; with what it leaves that is what the receiver makes of the bytes; it stops at the end of the data or, bytes waiting to be sent, behind a frame |
| DataLinks.DataLink.Hunting | lib/datalink.cc:431-452 | the hunting loop takes the steps of the byte-by-byte loops to the first frame start or the end of the data, and the last SYN seen is a place to resume from |
| DataLinks.DataLink.Drain | lib/datalink.cc:180-190 | repeated calls hand on everything once there have been more calls than bytes, however often they return early |
| DataLinks.DataLink.DrainCleanLine | lib/datalink.cc:422-541 | so on a clean line exactly the payloads sent, once and in order |
| Scanning.ArrivalKeepsStep | lib/datalink.cc:159-176 | new bytes, however split, keep the parser in step with the line |
| Scanning.ScanKeepsStep | lib/datalink.cc:422-541 | handing on what a scan produced keeps the parser in step with the line |
| Scanning.FramesAccepted | lib/datalink.cc:431-452 | on a clean line the hunt never rejects a byte |
| Scanning.CleanLine | lib/datalink.cc:422-541 | at every point of a clean line the scan may be called, delivers a prefix of the payloads sent, and in the end all of them |
| Scanning.FrameConsumed | lib/datalink.cc:489-494 | a frame leaves nothing unread |
| Scanning.DataScanned | lib/datalink.cc:431-526 | the loops look at all of the data first and find what the receiver finds, whether or not they then see its end |
| Scanning.LeavesTheData | lib/datalink.cc:431-452 | the loops look at a cell that holds no data if and only if the write index is 0 and the last byte of the data is one that hunting rejects |
| Scanning.StopsExactly | lib/datalink.cc:431-452 | and they never stop if and only if, besides, hunting through the whole buffer rejects its last byte too |
| Scanning.HandedOnForever | lib/datalink.cc:431-509 | then whatever the buffer holds, of whatever age, is handed on again every 4096 steps |
| Scanning.StaleFrameComesBack | lib/datalink.cc:431-509 | for an old frame at the start of the buffer and bytes behind it that start none, up to the last cell |
| DataLinks.DeliversAgain | lib/datalink.cc:159-176 | a run of the class into that state: one frame, handed on, then such bytes; nothing is due any more, and the loops of the next call hand the payload on over and over, as long as no bytes wait to be sent |
| Pumping.PumpLine | lib/datalink.cc:104-196 | turn after turn of the pump thread on a clean line, whatever the port has ready at each and whenever output is pending: the speed is never doubted, the payloads come in order, and all of them have come once the line is read and the last call was not cut short; with reads and frames that together fit the ring, and nothing pending, no read ever fills it |
| Pumping.StartFound | lib/datalink.cc:431-452 | when three bytes of a clean line have arrived, a frame has been found |
| Pumping.KeptShort | lib/datalink.cc:489-494 | what is kept of a clean line is less than its longest frame |
| Pumping.TurnWhenFull | lib/datalink.cc:105-110 | a turn that finds the ring full reads nothing, and with nothing pending there is space afterwards if and only if a frame has ended among the unread bytes |
| Pumping.FullForever | lib/datalink.cc:105-110 | if none has, no later turn reads or consumes a byte, and only a link that has seen no frame since its start can still be reset |
| Pumping.StallingBytes | lib/datalink.cc:489-494 | such bytes are the start of a frame and 4092 others without DLE |
| Packets.DataFrameDecodes | lib/link.cc:541-551 | a numbered packet is read back with its number and payload, in short and extended form; the header takes at most two bytes |
| Packets.AckFrameDecodes | lib/link.cc:171-178 | an acknowledgement is read back with its number |
| Packets.NoAckBeforeHandshake | lib/link.cc:171-178 | an acknowledgement sent before any handshake (number -1) is not read as one |
| Packets.FrameBytes | lib/link.cc:171-178 | data frames and acknowledgements byte for byte, with numbers up to 7 and up to 2047 |
| Packets.FramesRead | lib/link.cc:241-254 | how data, acknowledgements and requests in either form are read, whatever made them |
| Links.Link.constructor | lib/link.cc:87-106 | a new link has the initial numbers and modes and one link request out (the new state is the specification function of the old one) |
| Links.Link.Reset | lib/link.cc:118-131 | everything but the wait queue is cleared, and a link request goes out (the new state is the specification function of the old one) |
| Links.Link.Send | lib/link.cc:133-139 | a packet over 300 bytes fails the link, any other is transmitted (the new state is the specification function of the old one) |
| Links.Link.PurgeAllQueues | lib/link.cc:141-146 | the packets awaiting acknowledgement and those held are dropped, the waiting ones stay (the new state is the specification function of the old one) |
| Links.Link.PurgeQueue | lib/link.cc:148-163 | the erase-while-iterating loops remove exactly the elements whose first byte is the channel, keeping the order (the new state is the specification function of the old one) |
| Links.Link.SendAck | lib/link.cc:165-180 | the acknowledgement of the last number received goes out unless the link has failed (the new state is the specification function of the old one) |
| Links.Link.SendReqCon | lib/link.cc:182-200 | the link confirmation goes out and is queued with 4 retries and expected number 0 (the new state is the specification function of the old one) |
| Links.Link.SendReqReq | lib/link.cc:202-219 | the link request goes out and is queued with 4 retries and expected number 0 (the new state is the specification function of the old one) |
| Links.Link.Receive | lib/link.cc:233-464 | each frame has the effect the specification gives for its packet type (the new state is the specification function of the old one) |
| Links.Link.ReceiveData | lib/link.cc:252-298 | the next packet is taken, acknowledged and dispatched; any other is acknowledged again (the new state is the specification function of the old one; EndToEnd.ApplyUpward says what becomes of every payload, LinkEvents.LetGo what XON releases) |
| Links.Link.ReceiveAck | lib/link.cc:300-386 | a matched acknowledgement frees its packet and the older ones and sends what waits; an unmatched one sends the packet after it again (the new state is the specification function of the old one) |
| Links.Link.AckFound | lib/link.cc:304-337 | the acknowledged packet and all older ones leave; an unknown link becomes SIBO on 0 (the new state is the specification function of the old one) |
| Links.Link.ResendNext | lib/link.cc:340-377 | on an unmatched acknowledgement the following packet is sent again, or dropped when out of retries (the new state is the specification function of the old one) |
| Links.Link.ReceiveNewLink | lib/link.cc:388-452 | the handshake: both modes, both numbers, the queues, and what is sent (the new state is the specification function of the old one; LinkEvents.SiboRequest, EpocRequest and Confirmed state its three outcomes) |
| Links.Link.TransmitHoldQueue | lib/link.cc:466-483 | the held packets of a channel are transmitted in order, the others stay in order (the new state is the specification function of the old one) |
| Links.Link.TransmitWaitQueue | lib/link.cc:485-501 | the waiting packets are transmitted again in order (the new state is the specification function of the old one) |
| Links.Link.Transmit | lib/link.cc:503-559 | a packet is held, waits, or is numbered, queued and sent (the new state is the specification function of the old one) |
| Links.Link.MultiAck | lib/link.cc:583-593 | exactly the elements older than the stamp leave, in order (the new state is the specification function of the old one) |
| Links.Link.Retransmit | lib/link.cc:595-638 | expired elements are sent again in order with a new stamp and one retry less; those without retries leave and fail the link (the new state is the specification function of the old one) |
| LinkModes.EveryRunKept | lib/link.cc:118-131 | over every run with handshakes, resets, purges and failures: unknown and SIBO mean 3-bit numbers and window 1, EPOC 11-bit numbers and 8; numbers stay within the mask; unacknowledged data packets never exceed the current window; and the retries left of a queued packet are never negative, and at most 8 or 4 |
| LinkModes.TransmissionsAreBounded | lib/link.cc:182-219 | in every such run each packet, told apart by when it was queued, is sent at most 1 + 8 times if it is a data packet and 1 + 4 times if it is a handshake packet |
| LinkModes.ApplyKept | lib/link.cc:233-464 | each operation keeps that |
| LinkModes.NewLinkKept | lib/link.cc:388-452 | a handshake keeps it even when the window shrinks from 8 to 1 |
| LinkModes.RetriedMeasures | lib/link.cc:613-629 | the timer adds nothing to the queue, and every frame it sends again costs exactly one of its own retries |
| LinkModes.TimerKept | lib/link.cc:595-638 | with every firing of the timer, the times a frame was sent and its retries left together do not grow |
| LinkModes.TimersAreBounded | lib/link.cc:595-638 | timers alone, however often they fire, send at most eight frames for each queued packet |
| LinkFrames.ApplySound | lib/link.cc:133-145 | every operation keeps that queued and held packets have at most 300 bytes and that each frame sent is an acknowledgement or the frame of its packet |
| LinkFrames.EveryFrameIsKnown | lib/link.cc:133-145 | so in every run each frame handed to the data link is an acknowledgement or the frame queued under its serial, and has at most 302 bytes |
| LinkRuns.Operate | lib/link.cc:118-264 | the class performs any sequence of operations as the run function says |
| LinkRuns.FromTheStart | lib/link.cc:87-106 | so every object of the class, from its construction on, agrees in mode, numbers, window and retries, sends no packet more often than granted and no frame longer than 302 bytes |
| LinkEvents.NewLinkAsks | lib/link.cc:87-106 | a new link knows no peer, has window 1, sends from 1, has received -1, and has the request 0x21 on the line and queued with 4 retries |
| LinkEvents.ResetAsks | lib/link.cc:118-131 | so does a link that is reset, whatever its state, if its line is up; only the waiting packets stay |
| LinkEvents.SiboRequest | lib/link.cc:438-450 | the request 0x20 of a SIBO machine, in any state: SIBO mode, mask 7, window 1, received 0, next 1, the queues purged, and acknowledgement 0 sent |
| LinkEvents.EpocRequest | lib/link.cc:427-437 | a request numbered 1 to 3, or 4 to 7 with no request of ours queued: EPOC mode, mask 0x7ff, window 8, both numbers 0, and 0x24 with the magic bytes sent and queued with 4 retries |
| LinkEvents.Confirmed | lib/link.cc:390-419 | one numbered 4 to 7 with a request of ours queued, wherever it is: that leaves the queue, EPOC mode, received 0, next 1, and acknowledgement 0 sent |
| LinkEvents.SiboFound | lib/link.cc:313-339 | an acknowledgement of 0 while the peer is unknown, with a packet 0 queued: the same SIBO mode, and the waiting packets are transmitted |
| LinkEvents.AckKeepsMode | lib/link.cc:300-386 | in a session an acknowledgement leaves mode, mask, window and receive number alone |
| LinkEvents.SiboHandshake | lib/link.cc:388-452 | the request of a SIBO machine and the answer to it bring both links into the same mode and in step, in both directions |
| LinkEvents.SiboFirstPackets | lib/link.cc:252-298 | so a first packet from each side is handed up on the other, and both links are in step again |
| LinkEvents.OtherFrames | lib/link.cc:454-463 | a disconnect fails the link and changes nothing else; a frame of unknown type changes nothing |
| LinkEvents.SentAgain | lib/link.cc:340-377 | an unmatched acknowledgement sends the packet numbered one more again, with a new stamp and one retry less, or drops it when none is left |
| LinkEvents.LetGo | lib/link.cc:279-287 | XON on a link that is up lets the channel go: exactly its held packets leave the hold queue, the first ones the window admits are numbered, the others wait, in order |
| LinkEvents.Purged | lib/link.cc:148-163 | purging a channel keeps exactly the held packets and queued frames with another first byte, and changes nothing else |
| LinkEvents.EmptyBuffer | lib/link.cc:529-535 | an empty buffer becomes the one byte 0x20 plus its number, with 4 retries |
| LinkEvents.SendFails | lib/link.cc:133-139 | after sending the link has failed if and only if it or its line had, or the packet has more than 300 bytes; then nothing else has changed |
| LinkEvents.SilentWhenDown | lib/link.cc:165-180 | a link that has failed, or whose line has, sends nothing on a call, a timer or a data packet |
| LinkEvents.TimerDecides | lib/link.cc:595-638 | the timer fails the link if and only if a packet has expired without retries; it sends exactly the expired ones with retries, and leaves those with the new stamp and one retry less, and the ones not expired |
| Window.IdxUnique | lib/link.cc:241-251 | the full number of an acknowledgement is recovered from its low bits within one range of the modulus |
| Window.AckMeansPacket | lib/link.cc:304-318 | in every reachable state the oldest acknowledgement on the line, if it names a queued packet or the one before it, names by its full number that packet or one a whole round later, so that either way the packet, or its predecessor, has been accepted |
| Window.CoreNumber | lib/link.cc:525-557 | numbering a packet, when what may be sent again stays within reach, keeps the invariant of one direction |
| Window.CoreAcked | lib/link.cc:304-359 | an acknowledgement keeps it, with the packets it removes or makes the link give up |
| Window.CoreResend | lib/link.cc:345-377 | sending a packet again, by timer or unmatched acknowledgement, keeps it |
| Window.CoreAccept | lib/link.cc:264-266 | a packet accepted by its low bits is the next one in full |
| Stamps.Behind | lib/link.cc:503-638 | EPOC: by the time stamps, the next number is ahead of a queued packet by at most 7 for each retry it has used, the length of the queue, and the packets given up since |
| Stamps.Room | lib/link.cc:511-525 | so while the window has room, numbering one more packet leaves every queued one within 64 of the next number, and one more for each packet given up; with at most 1990 given up, those that may be sent again are less than 2048 behind it |
| Stamps.Close | lib/link.cc:300-337 | and an acknowledgement that names a queued packet, or the one before it, is at most 66 behind the next number, however many packets were given up, to 1990 |
| Stamps.StampsMatch | lib/link.cc:583-593 | acknowledgement by stamp keeps what the stamps say about the queue |
| Stamps.StampsAgain | lib/link.cc:595-638 | the timer keeps what the stamps say about the queue |
| Stamps.StampsGiveUp | lib/link.cc:353-359 | a packet given up keeps it, once it is counted among those given up |
| Arq.ReceiveDataKeeps | lib/link.cc:252-298 | a data packet arriving keeps the invariant of both directions |
| Arq.ReceiveAckKeeps | lib/link.cc:300-386 | an acknowledgement arriving keeps it, matched or not, when it makes the link give up a packet, too, up to 1990 in EPOC |
| Arq.TransmitKeeps | lib/link.cc:503-559 | transmitting keeps it |
| Arq.RetransmitKeeps | lib/link.cc:595-638 | the timer keeps it |
| Network.StepInvWith | lib/link.cc:233-638 | every step of either end, and every loss on a line, keeps the invariant of the network, while an EPOC end has given up at most 1990 packets |
| Network.RunInv | lib/link.cc:233-638 | so does every run |
| Network.SiboSafety | lib/link.cc:264-298 | SIBO: in every run over lossy FIFO lines, with any clock, timer and failure, the packets accepted are a prefix of those numbered by the other side, in both directions |
| Network.EpocSafety | lib/link.cc:264-298 | EPOC: the same, for increasing clocks and runs in which neither side gives up more than 1990 packets |
| GiveUps.GivingUpBreaksSafety | lib/link.cc:353-359 | and 1990 is the greatest such number: from every start there is a run, all else as in the theorem, in which one side gives up exactly 1991 packets and the other none, and one packet is taken twice |
| GiveUps.StandingClockBreaksSafety | lib/link.cc:583-593 | that clocks move is needed, too: if the clock stands still there is such a run in which nothing is given up |
| GiveUps.Round | lib/link.cc:313-359 | a step of the first run: nine acknowledgements of the packet before make the link send a packet nine times and drop it, and the peer takes it and acknowledges it nine times |
| GiveUps.Seven | lib/link.cc:583-638 | the other step: seven packets go out, are sent again together with an old one, and are acknowledged; the old one, with their stamp, stays queued |
| GiveUps.WaitingIsOvertaken | lib/link.cc:353-359 | from every start there is a run after which the window is open while the ninth packet waits, because the first was given up; whatever is submitted tenth is numbered before it |
| LinkQueues.ForChannelSplits | lib/link.cc:466-478 | taking one channel out of the hold queue loses and doubles nothing |
| LinkQueues.ForChannelOnly | lib/link.cc:466-478 | the part taken is for the channel, the part left is not |
| LinkQueues.TransmitAllAdmits | lib/link.cc:503-559 | of several packets transmitted, the first ones the window admits are numbered in order, the others join the end of the wait queue in order |
| LinkQueues.HoldQueueAdmits | lib/link.cc:466-483 | the same for the held packets of a channel that is let go, while the other channels stay in order |
| LinkQueues.ApplyConserves | lib/link.cc:466-559 | each operation of a session that does not fail keeps every packet in exactly one place |
| LinkQueues.RunConserves | lib/link.cc:466-559 | over every run within a session that does not end in failure, each packet submitted is in exactly one of the hold queue, the wait queue and the numbered packets |
| LinkQueues.AckInOrder | lib/link.cc:300-339 | the room an acknowledgement makes is taken by the waiting packets first |
| LinkQueues.RunInOrder | lib/link.cc:485-559 | within a session without XOFF, failure or give-up, a waiting packet implies a full window, at the end as at the start, and the packets are numbered in the order they were submitted |
| LinkChannels.StoppedAreHeld | lib/link.cc:508-511 | packets of a stopped channel join its held packets in order and nothing else happens to that channel |
| LinkChannels.PuttingAsideOrder | lib/link.cc:485-513 | when the window opens for a stopped channel, its waiting packets go behind its held ones; so its packets keep their order if and only if that makes no difference |
| LinkChannels.PuttingAsideKeepsOrder | lib/link.cc:485-513 | for a channel with no packet both waiting and held: if and only if none waits or none is held already |
| LinkChannels.RunKeepsChannelOrder | lib/link.cc:466-559 | within a session, whatever channels are stopped and let go, one channel's packets are numbered in the order submitted, then those waiting, then those held, in every run in which it is never stopped while one of its packets waits, without failure or give-up |
| LinkLimits.AckKeepsLaterPackets | lib/link.cc:583-593 | an acknowledgement leaves all later packets queued if and only if none of them was last sent before the acknowledged one |
| LinkLimits.ForgottenPacket | lib/link.cc:583-593 | a run, for any two packets and clock, in which a packet the peer never received leaves the queue |
| LinkLimits.TurnNeedsFullWindow | lib/link.cc:511-521 | the next packet is numbered after the waiting ones if and only if packets only wait while the window is full |
| LinkLimits.GiveUpLosesTurn | lib/link.cc:353-359 | an unmatched acknowledgement keeps that if and only if it gives no packet up or nothing waits; GiveUps.WaitingIsOvertaken is a run in which it fails |
| LinkLimits.StoppedChannelReorders | lib/link.cc:508-511 | a run, stopping a channel while its packet waits, in which that packet lands behind a newer one in the hold queue and is overtaken |
| LinkLimits.FirstPacketNeedsNumber | lib/link.cc:264-266 | between idle ends a packet is accepted if and only if the number is the one expected |
| LinkLimits.Handshake | lib/link.cc:416-439 | after a handshake the asking end sends from 1, the answering end from 0, and both expect 1 |
| LinkLimits.AnswererLosesFirstPacket | lib/link.cc:427-439 | so the asking end gets its first packet across, and the first one of the answering end is rejected and forgotten |
| LinkLimits.PurgeLooksAtHeader | lib/link.cc:148-156 | purging a channel removes a data packet from any queue of unacknowledged packets if and only if the channel equals its header byte, whatever channel the packet is for |
| Ncp.NCP.constructor | lib/ncp.cc:41-66 | a new NCP has empty accumulators, version 6, and no channel open up to number 255; slot 256 and the channel last sent on are what memory held |
| Ncp.NCP.Send | lib/ncp.cc:415-438 | the do-while loop sends the fragments of the message, byte for byte as Ncp.FragmentsShape says, and uses the buffer up |
| Ncp.NCP.ReceiveBuffer | lib/ncp.cc:108-136 | the new state is the specification of the old one, which Ncp.BufferKinds and Ncp.FragmentReceived spell out |
| Ncp.FragmentsShape | lib/ncp.cc:415-438 | a message makes max(1, ceil(n / 250)) fragments; each is the peer's channel, ours, 1 if it is the last one and 2 otherwise, and its 250-byte slice in order; all but the last are full, none over 253 bytes |
| Ncp.BufferKinds | lib/ncp.cc:108-136 | buffers of at most one byte are ignored, those for channel 0 go to the control channel without it, and one without a third byte finds there what memory holds |
| Ncp.FragmentReceived | lib/ncp.cc:113-132 | a fragment for an open channel adds its data to what is pending; a third byte of 1 delivers all of it, and no other does; version 3 takes the channel last sent on, any other version the one named; a closed channel ignores it |
| Ncp.MessageReassembled | lib/ncp.cc:108-132 | the fragments of a message deliver what was pending and the message, and leave nothing pending |
| Ncp.OwnBuffersSuffice | lib/ncp.cc:108-132 | Series 5: a channel sees of any mixture of buffers only those that name it |
| Ncp.InterleavedReassembly | lib/ncp.cc:108-132 | Series 5: however fragments of several channels are interleaved, each channel with nothing pending gets exactly its messages, whole and in order |
| Ncp.Series3NeedsTurns | lib/ncp.cc:118-120 | Series 3: a message is delivered to its channel if and only if that is the one last sent on |
| Stack.LineIsTransparent | lib/datalink.cc:353-398 | on a lossless line the frames a link sends arrive as they are, in either stuffing |
| Stack.EveryFrameFitsTheRing | lib/link.cc:133-139 | in every run of a link each frame it sends makes at most 611 bytes on the line, so an output ring the pump has emptied has room for it |
| Stack.FragmentsAreOrdinary | lib/ncp.cc:415-438 | every fragment passes the 300-byte check of the link, and is no flow control message |
| Stack.ExchangeWorks | lib/link.cc:252-266 | a packet sent, carried as bytes and acknowledged the same way is handed up once, and both ends are in step again, from any number |
| Stack.MessageCrossesStack | lib/ncp.cc:108-136 | NCP send, numbering, framing, the line, parsing, header removal and NCP receive together are the identity on messages of any length, in both modes and across the wrap of the numbers, each packet being acknowledged before the next; Completeness.EveryMessageArrives is about packets sent all at once |
| EndToEnd.ApplyUpward | lib/link.cc:264-293 | for every payload: only a data packet next in sequence goes up; it goes to NCP unless it is XOFF or XON, three bytes that begin with 0 and end in 1 or 2, and those stop or let go exactly the channel they name and do not go to NCP |
| EndToEnd.StepLocal | lib/link.cc:233-638 | each step keeps: packets numbered and waiting are those submitted in order, and NCP has all that was accepted |
| EndToEnd.PacketsArriveInOrder | lib/link.cc:233-638 | in every run of a session over lossy lines without failure or give-up, NCP on each side has received a prefix of the packets submitted on the other |
| EndToEnd.SomeMessagesDelivered | lib/ncp.cc:108-132 | from a prefix of the packets of some messages each channel gets a prefix of its messages, and from all of them all |
| EndToEnd.MessagesArriveInOrder | lib/ncp.cc:108-136 | end to end: in every such run each channel has been delivered a prefix of the messages sent to it, whole and in order, and all of them once all packets are up |
| Completeness.StepComplete | lib/link.cc:233-638 | on lines that lose nothing each step keeps: the data frames on a line bring its receiver exactly up to what the sender has numbered, and of each queued packet that has been accepted an acknowledgement is on its way |
| Completeness.EverythingArrives | lib/link.cc:233-638 | so in every run without loss, failure or give-up that ends with both lines empty, however the packets were submitted, NCP on each side has received exactly the packets submitted on the other, and neither link waits for anything |
| Completeness.EveryMessageArrives | lib/ncp.cc:108-136 | and every message, of any length, has been delivered to its channel |
| BufferStores.WordRoundTrip | lib/bufferstore.cc:191-195 | a word written reads back as its low 16 bits, for negative numbers too |
| BufferStores.DWordRoundTrip | lib/bufferstore.cc:197-203 | a double word reads back as its low 32 bits, and as itself when read signed and in range |
| BufferStores.LowByteFirst | lib/bufferstore.cc:191-203 | the low byte of a word or double word comes first |
| BufferStores.BufferStore.constructor | lib/bufferstore.cc:39-44 | a new buffer is empty |
| BufferStores.BufferStore.Copy | lib/bufferstore.cc:46-53 | a copy has the content of the original, with nothing discarded |
| BufferStores.BufferStore.From | lib/bufferstore.cc:55-62 | a buffer made from bytes has them as content |
| BufferStores.BufferStore.Assign | lib/bufferstore.cc:64-72 | assignment copies the content; assigning to itself changes nothing |
| BufferStores.BufferStore.InitFrom | lib/bufferstore.cc:79-84 | the content is replaced |
| BufferStores.BufferStore.GetLen | lib/bufferstore.cc:92-94 | the length of the content, also after a truncation below the discarded part |
| BufferStores.BufferStore.GetByte | lib/bufferstore.cc:96-98 | the byte of the content |
| BufferStores.BufferStore.GetWord | lib/bufferstore.cc:100-102 | the word of the content |
| BufferStores.BufferStore.GetDWord | lib/bufferstore.cc:104-109 | the double word of the content |
| BufferStores.BufferStore.GetSDWord | lib/bufferstore.cc:111-116 | the same bits as a signed number |
| BufferStores.BufferStore.DiscardFirstBytes | lib/bufferstore.cc:141-144 | the first bytes of the content go, all of them if there are not that many |
| BufferStores.BufferStore.CheckAllocd | lib/bufferstore.cc:146-155 | doubling ends with room for one more byte than asked, at most twice that, and keeps the content |
| BufferStores.BufferStore.AddByte | lib/bufferstore.cc:157-160 | a byte is appended |
| BufferStores.BufferStore.AddBytes | lib/bufferstore.cc:174-178 | bytes are appended |
| BufferStores.BufferStore.AddStringT | lib/bufferstore.cc:169-172 | bytes and a zero are appended |
| BufferStores.BufferStore.AddBuff | lib/bufferstore.cc:180-189 | the content of a buffer, itself included, or its first maxLen bytes are appended |
| BufferStores.BufferStore.AddWord | lib/bufferstore.cc:191-195 | the two low bytes are appended, low byte first |
| BufferStores.BufferStore.AddDWord | lib/bufferstore.cc:197-203 | the four low bytes are appended, low byte first |
| BufferStores.BufferStore.Truncate | lib/bufferstore.cc:205-209 | what was written is cut; the content that is left, and the exact condition under which that is the content cut to the new length |
| BufferStores.TruncateNeeds | lib/bufferstore.cc:205-209 | it is if and only if nothing or everything was discarded, the new length is 0, or it is no less than what was written |
| BufferStores.TruncateCutsTooMuch | lib/bufferstore.cc:205-209 | two bytes, one discarded, truncated to length 1, leave nothing |
| BufferStores.BufferStore.PrependByte | lib/bufferstore.cc:211-215 | the byte goes before the content when nothing was discarded; otherwise the byte discarded last comes back |
| BufferStores.BufferStore.PrependWord | lib/bufferstore.cc:217-223 | the two bytes go before the content when nothing was discarded |
| BufferStores.PrependByteNeeds | lib/bufferstore.cc:211-215 | the content gets the byte before it if and only if nothing was discarded or the byte discarded last is the same |
| BufferStores.PrependWordNeeds | lib/bufferstore.cc:217-223 | for two bytes: if and only if nothing was discarded, or exactly those two bytes last, or one byte that equals both |
| Bitmap.RunsRefineRaw | lib/psibitmap.cpp:171-214 | on well-formed run-length data the decoder gives the same result and output as on the expanded raw data, for every row length; data with an incomplete run are never accepted |
| Bitmap.PromiseKept | lib/psibitmap.cpp:172-185 | the length counted in the first pass is that of the expanded data |
| Bitmap.RunsDecodeAsRaw | lib/psibitmap.cpp:160-214 | so well-formed run-length data decode, line length included, as the expanded data do raw |
| Bitmap.RunsExpand | lib/psibitmap.cpp:186-208 | a count of 256 - n stands before n bytes, one of n - 1 before a byte that stands n times, for n from 1 to 128; a run that is cut short is not well-formed |
| Bitmap.RunFileDecodesAsRawFile | lib/psibitmap.cpp:140-216 | a run-length file decodes as any raw file of the same size and depth that holds the expanded data; a file with an incomplete run is never accepted |
| Bitmap.RawFileDecodes | lib/psibitmap.cpp:140-216 | and there is such a file for every one whose expanded data a 32-bit length can count |
| Bitmap.EncodeRow | lib/psibitmap.cpp:40-69 | a row is its pixels divided by 85, four to a byte, padded to a multiple of four bytes |
| Bitmap.EncodeBitmap | lib/psibitmap.cpp:26-117 | the file is the header, the sizes and the rows |
| Bitmap.FileIs | lib/psibitmap.cpp:28-38 | the header is ten double words: the total length, 40, width, height, 0, 0, 2, 0, 0, 0 |
| Bitmap.WriteByte | lib/psibitmap.cpp:119-138 | the macro: up to four pixels, ending early at the end of a row, false at the end of the picture |
| Bitmap.LiteralRun | lib/psibitmap.cpp:188-195 | a literal run is raw decoding of its bytes, and false when they are not all there |
| Bitmap.RepeatedRun | lib/psibitmap.cpp:196-206 | a repeated run is raw decoding of the repetition |
| Bitmap.CountPromised | lib/psibitmap.cpp:171-185 | the first pass counts the length the counts promise, on malformed data too |
| Bitmap.DecodeBitmap | lib/psibitmap.cpp:140-216 | the loops compute the decoder that Bitmap.FileShows, the run-length theorems and the round trip are about |
| Bitmap.ReadWhole | lib/psibitmap.cpp:160-164 | at 1 and 2 bits per pixel, and at no other depth, the mask keeps every bit of a pixel |
| Bitmap.BytePixels | lib/psibitmap.cpp:119-138 | at every depth a byte shows its pixels, low bits first, each cut to the mask and scaled to 0..255, up to the end of the row; false if and only if the picture has no room for them |
| Bitmap.RowsDecode | lib/psibitmap.cpp:209-213 | rows of enough bytes show all their pixels, row by row, padding skipped |
| Bitmap.RawPicture | lib/psibitmap.cpp:209-213 | a raw picture whose rows have enough bytes is accepted if and only if the number of bytes is a multiple of the height |
| Bitmap.FileShows | lib/psibitmap.cpp:140-216 | every file, raw or run-length encoded, of any depth: if its rows have enough bytes it is accepted under that condition only, and then pixel (x, y) is pixel x mod n of byte x / n of row y, n pixels making a byte |
| Bitmap.PackedAt | lib/psibitmap.cpp:47-58 | a pixel the encoder packed comes out again at its grey level |
| Bitmap.RoundTrip | lib/psibitmap.cpp:140-216 | for every width and height of at least 1 that fit the int arithmetic, and every pixel function, decoding what was encoded succeeds with the same size and the grey picture |
| Bitmap.PictureAt | lib/psibitmap.cpp:47-48 | whose pixel at (x, y) is (v / 85) * 85 |
| Paths.SplitPath | lib/pathutils.cc:142-177 | the find loop computes the components |
| Paths.JoinPath | lib/pathutils.cc:179-213 | the loop computes the joined path |
| Paths.JoinAfterSplit | lib/pathutils.cc:142-213 | in both formats, drives included, joining the components of a path gives the path with every run of separators collapsed to one |
| Paths.NormalisesOnce | lib/pathutils.cc:142-213 | so doing it twice is doing it once |
| Paths.SplitForgetsRuns | lib/pathutils.cc:142-177 | though split is not injective |
| Paths.FoldComponent | lib/pathutils.cc:302-318 | trailing markers go, and a component is pushed or a name popped |
| Paths.FoldPath | lib/pathutils.cc:301-319 | the loop folds the components into the base as specified |
| Paths.ResolvePath | lib/pathutils.cc:262-330 | all branches, both formats, computed by the loops; the lemmas from Paths.AbsoluteStays to Paths.RootedResolve say where each of them leads |
| Paths.AbsoluteStays | lib/pathutils.cc:268-271 | an absolute path is returned unchanged, in both formats |
| Paths.FoldIsWalking | lib/pathutils.cc:301-319 | folding components leads where walking leads if and only if no ".." takes away a "." |
| Paths.StringLeadsThere | lib/pathutils.cc:322-330 | the string put together from folded components leads where the components lead, the empty one included |
| Paths.ResolveIsWalking | lib/pathutils.cc:262-330 | a relative POSIX path resolved against any base leads where walking the base and then the path leads, counting the levels above the start, if and only if no ".." meets a "." at the end of what it is to shorten |
| Paths.ResolveWithoutDots | lib/pathutils.cc:262-330 | so always when neither path contains a "." component |
| Paths.ResolveClamped | lib/pathutils.cc:262-330 | read from the root, where ".." stays: the names are those of walking clamped at the root |
| Paths.DotTakenForAName | lib/pathutils.cc:309-314 | a family of inputs where it does not |
| Paths.WindowsResolveIsWalking | lib/pathutils.cc:262-330 | a relative Windows path, without a drive or on that of the base, leads where walking the base and then all its components leads, on the drive of the base, if and only if no ".." meets such a "." and the outcome of two paths without drive and root does not start with what looks like a drive; but its own drive is among the components walked |
| Paths.OtherDriveStays | lib/pathutils.cc:274-280 | a path that names another drive than the base, or a drive where the base has none, and no root, is returned unchanged |
| Paths.DrivesCompare | lib/pathutils.cc:62-72 | a drive is a letter and a colon, and two drives are the same one if and only if their letters are, in upper or lower case |
| Paths.DriveTakenForAName | lib/pathutils.cc:274-280 | so "C:w" against "C:\b" gives "C:\b\C:\w", for every drive and names w and b |
| Paths.RootedResolve | lib/pathutils.cc:287-296 | a path from the root of no drive leads there on the drive of the base |
| Ini.Deserialize | lib/ini.cc:49-167 | the character loop computes the parser |
| Ini.Serialize | lib/ini.cc:30-47 | the text is the lines of the sorted keys, whatever order the hash map yields them in |
| Ini.OneText | lib/ini.cc:32-38 | there is only one sorted list of the keys, so only one text |
| Ini.OnlyCleanMaps | lib/ini.cc:63-150 | whatever the parser accepts has keys of letters and values without line ends or white space at either end |
| Ini.CharacterClasses | lib/ini.cc:66-73 | white space is the codes 9 to 13 and 32, letters are 65 to 90 and 97 to 122 |
| Ini.ParsedExactly | lib/ini.cc:49-167 | the parser accepts exactly the texts of a grammar, and reads them as what they say: entries of white space, a key of letters, white space, "=", white space, a clean nonempty value, blanks and CR LF or LF alone; then white space, or a last entry without line end that may lack its value |
| Ini.LineRun | lib/ini.cc:66-139 | a line with a value is read as its assignment |
| Ini.SwallowRun | lib/ini.cc:94-99 | after a line without a value the whole next line is taken as the value |
| Ini.RoundTripExactly | lib/ini.cc:30-167 | a map comes back from its text if and only if its keys are nonempty and of letters, its values have no line ends and no white space at either end, and only the greatest key may have an empty value |

## Left out

- Network.EpocSafety: assumes that clock readings increase and that neither side drops more than 1990 packets whose retries ran out on an unmatched acknowledgement; GiveUps.StandingClockBreaksSafety shows that it is false for a clock that stands still, GiveUps.GivingUpBreaksSafety that it is false of some runs in which one side drops 1991.
- Network.SiboSafety: a submitted empty buffer, which the link takes as a request for a new link, is excluded, here and in the EPOC theorem, because it starts a new session; so are purges, disconnects and a second handshake.
- EndToEnd.PacketsArriveInOrder: says nothing about runs that end in failure or in which a packet was given up, nor about runs with XOFF or XON; all other messages for the control channel are included.
- DataLinks.DataLink.ProcessInputData: the class's loops require that they see the end of the data, since a loop that need not stop cannot be a method here; Scanning.LeavesTheData and Scanning.StopsExactly say exactly when that fails and what the loops then do, and Scanning.CleanLine that it does not on a clean line. The call also needs unread data, as its caller checks.
- DataLinks.DataLink.PumpRead: a read that fills the ring to the last cell is modelled as what it is, a loss of all unread bytes; keeping the parser in step assumes one free cell.
- DataLinks.DataLink.Drain: a call that doubts the speed ends it; the reset that follows is DataLinks.DataLink.Reset.
- DataLinks.DataLink.Enqueue: the wait for free space is a precondition, so nothing is said about whether `send` returns when it is called from the pump thread itself.
- Links.Link.Transmit: one step, although the source releases its lock between the window check and the queue; the failure flag of the line does not change within an operation.
- Links.Link.Retransmit: the expiry time is a parameter; the radix mixture of `timesub` (lib/link.cc:562-571) is not modelled.
- Ncp.NCP.constructor: the uninitialised last-sent channel is taken to be an index of the tables; the source would use any other to read beyond them.
- Completeness.EverythingArrives: says nothing about how long it takes until the lines are empty, and nothing about lossy lines, on which EndToEnd.MessagesArriveInOrder holds.
- Ncp.NCP.ReceiveBuffer: control messages are handed to a log; connecting, disconnecting and version exchange (lib/ncp.cc:175-345) are not modelled, so the set of open channels is fixed during a run.
- Bitmap.RoundTrip: sizes are limited to what the int arithmetic of the source can count; the counters of the decoder are not wrapped at 2^31, and words are read low byte first.
- Bitmap.DecodeBitmap: 1, 2, 4 or 8 bits per pixel, the depths that fill a byte; at others the source divides by zero or masks scattered bits. The data must be as long as the header says and there must be rows, neither of which the source checks.
- Paths.ResolveIsWalking: POSIX paths; Paths.WindowsResolveIsWalking and Paths.RootedResolve say the same for Windows paths that name no other drive than the base; Paths.OtherDriveStays is about those that name another one.
- BufferStores.BufferStore.GetByte: positions must lie in allocated memory; reading beyond the content is modelled in the link as an arbitrary byte.
- Negative lengths and positions of BufferStore, and characters outside ASCII in the character classes of the paths and the settings file.
- The automatic baud rate search and `internalReset`'s serial side, threads, locks and condition variables as such, the serial port, sockets and sessions.
- The file, process, clipboard, printing, FUSE, FTP and installation programs built on the stack.
- lib/sistypes.cpp repeats the check value with the same table and would add nothing.
