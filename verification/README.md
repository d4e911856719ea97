# WTP: the base and the opt protocol

A Dafny model of the reliable transport WTP: the Go-Back-N pair `wSender` / `wReceiver`
(`cpp/src/base`), the selective-ACK pair `wSenderOpt` / `wReceiverOpt` (`cpp/src/opt`), the
wire format they share and the table-driven CRC-32 on which the receivers' drop decision
rests.

| module | what it holds |
|---|---|
| `Crc`, `CrcCheckValue`, `CrcDetection` | the table loop, the bit-serial register it equals, its published check value, and burst detection |
| `Wire` | headers, packets, both parsers, checksums of byte strings, round trips |
| `Chunks` | how a file becomes DATA packets 0, 1, 2, ... |
| `BaseSender`, `BaseReceiver` | one turn of each loop as a function of its state, and what it keeps |
| `BaseClasses` | the same loops updating `Window`, `Sender` and `Receiver` in place |
| `Network` | the datagrams under way between the two ends, base or opt |
| `BaseProtocol` | both ends and the network as one step system; safety of every run |
| `Transfers` | one receiver through any number of connections |
| `BaseBuffer`, `BaseRound`, `BaseLiveness` | the receive buffer, a clean round, when a transfer can still finish |
| `BaseTurn` | turns of the imperative loop are runs of the step system, and its runs are runs of the loop |
| `BaseFairness`, `BaseTimers` | infinite runs over a fair network; the base protocol with a clock |
| `OptSender`, `OptReceiver`, `OptClasses` | the selective-ACK sender and receiver, likewise |
| `OptProtocol`, `OptTurn` | safety of every run; loop and step system, as above |
| `OptTimers`, `OptLiveness`, `OptFairness` | when packets are sent again, that a transfer can finish, and that it does over a fair network |
| `Departures` | reachable states where the code does not do what its documentation asks |
| `StrayAcks` | what an ACK from elsewhere does to a base transfer |

The network holds a set of DATA datagrams and a set of ACK datagrams, as bytes. It may lose
any of them, deliver any of them at any time and any number of times, and damage the payload
of a DATA datagram by a burst of at most 32 bits. Sender steps are those of `sendData`, receiver
steps those of `startReceiving`. The byte strings that fly are the ones that `sendPacket` and
`toBuffer` build, and every delivery parses them again.

Assumed, because the sources assume it or the checksum does not cover it:

- Headers arrive as they were sent: the CRC is taken over the data only (README.md:64).
- A run starts when `startConnection` has succeeded and is one connection's data phase, with
  no DATA or ACK of an earlier connection under way. The receiver's map and its file may hold
  anything.
- In the base protocol no START ACK comes a second time. An ACK from elsewhere keeps the
  invariant iff its number is at most `next_seq`: `BaseProtocol.StrayAckSafeIff`. With any
  other number it does harm: the sender pops an empty deque, or drops the packet the receiver
  awaits, so that the network can keep the file from ever being complete
  (`StrayAcks.StrayAckHarms`). `StrayAcks.LosesDataIff` says exactly when `sendData` then
  returns at once with the file incomplete, and `StrayAcks.LateStartAckLosesData`, for every
  nonempty file, reaches a state where the connection's own START ACK does that. In the opt
  protocol the START ACK may be repeated, if `randSeqNum` is not the number of a DATA packet
  of the file; `OptProtocol.StrayAckSafeIff` is the exact condition.
- The number of chunks plus either window size is below 2^31, and the sender's window size is
  positive (`Config.Valid`). `BaseProtocol.NoWrap` shows what this buys. Statements that
  something can be delivered also take a positive receive window.
- The clock counts milliseconds and is read once in a step.
- Statements about all infinite runs take a sender that moves and a network that is fair:
  `OptFairness.SenderMoves`, `OptFairness.NetworkIsFair` and their namesakes in `BaseFairness`
  say what that means, and runs that keep them are shown to exist.

## Where the code departs from its documentation

The model follows the code. Each of these is a theorem:

- README.md:111 asks that an in-order packet be answered with the first number still missing.
  `next_seq++` stands outside the drain loop (cpp/src/base/Receiver.cpp:216-223), so one packet
  is delivered per accepted packet and buffered ones wait to be sent again. The answer is the
  one asked for iff the next packet is not buffered: `BaseReceiver.CumulativeAckIff`.
  `Departures.CumulativeAckFallsShort` reaches a state, whenever two packets fit both windows,
  in which the answer is 1 and the first number missing is 2. What is buffered never matters
  to what is written or acknowledged: `BaseReceiver.BufferIndependence`.
- README.md:110 asks that every other packet be answered with the number awaited. The code
  answers iff the packet lies ahead in the window (`BaseReceiver.ReAckIff`), so a packet
  delivered already gets no answer, and a transfer whose last ACK is lost hangs with the whole
  file delivered. `BaseLiveness.CompletesIffFinishable` gives the exact condition for a
  reachable state to be able to finish, and over a fair network a run finishes iff it never
  leaves that condition: `BaseFairness.FairRunExitsIff`. For every nonempty file and all
  windows there is a reachable state where it fails (`BaseLiveness.EveryTransferCanHang`), and
  a fair run that stays there for ever (`BaseFairness.FairRunsHang`).
- The base sender puts no upper bound on the ACK it accepts (cpp/src/base/Sender.cpp:107-109).
  The pop loop stays within the deque iff the number is at most the next one to send:
  `BaseSender.PopFaultsIffUnsent`. In every run of the protocol it is: `BaseProtocol.Safety`.
- README.md:77-78 asks that a window that has not moved for 500 ms be sent again. The base
  sender has one timeout per call of `recvfrom` (cpp/src/base/Sender.cpp:176-180), so a packet
  goes out again iff for 500 ms nothing at all has been heard: `BaseTimers.SentAgainIff`. Every
  idle stretch of every transfer of a file keeps to what is asked iff the file has at most one
  chunk (`BaseTimers.SentAgainInTimeIff`; move by move, `BaseTimers.EachMoveInTimeIff`). With
  more, a state is reachable in which a stale ACK in the network puts the retransmission off
  for ever: `BaseTimers.CanStarveIff`, `BaseTimers.RetransmissionCanBePutOffForever`.
- README.md:106 asks that the file be stored. The opt receiver stores a packet before it tests
  whether the packet is there (cpp/src/opt/Receiver.cpp:217-224), so it never writes a byte:
  `OptReceiver.NothingIsEverWritten`. Opt delivery is therefore stated about the map
  `receivedPackets`.
- README.md:141 asks for one timer per packet. The opt sender looks at the timers only when
  `recvfrom` comes back empty (cpp/src/opt/Sender.cpp:106-127). A packet not acknowledged is
  sent again iff that happens more than 500 ms after it was last sent: `OptTimers.SentAgainIff`.
  While nothing arrives no packet goes unsent for more than a second
  (`OptTimers.StretchResends`, with socket timeouts that fire on time). But from every
  reachable state in which the sender listens, and every transfer of a nonempty file comes to
  one whatever its START number (`OptTimers.EveryTransferCanStarve`), repeats of the
  connection's own START ACK a millisecond apart keep it from sending anything for any length
  of time: `OptTimers.RetransmissionCanBePutOffForever`.
- README.md:140 asks that the opt receiver drop what lies beyond its window. It sets `next_seq`
  to the number that arrived before it compares the two (cpp/src/opt/Receiver.cpp:213-214), so
  it drops a DATA packet iff the checksum is bad or the window size is not positive, whatever
  the number: `OptReceiver.DroppedIff`. `Departures.BeyondWindowIsStored` reaches a state where
  a packet a whole window above the first one missing is stored and acknowledged.

## Model

| member | source | states |
|---|---|---|
| `Crc.EntryIsEightShifts` | cpp/src/common/Crc32.hpp:26-37 | each of the 256 table entries is eight shift/xor steps of its index under 0xEDB88320 |
| `Crc.TableStepIsEightSteps` | cpp/src/common/Crc32.hpp:99 | one turn of the table loop is eight one-bit steps of the register xored with the byte |
| `Crc.BitStepLinear` | cpp/src/common/Crc32.hpp:26-37 | the one-bit step of the register is linear over xor |
| `Crc.ByteBitsAre` | cpp/src/common/Crc32.hpp:19-24 | the bits of a byte are fed least significant first |
| `Crc.MessageBitsAt` | cpp/src/common/Crc32.hpp:95-99 | the bits of a message are those of its bytes, in order |
| `Crc.TableRunIsBitRun` | cpp/src/common/Crc32.hpp:98-99 | from any register, the loop over any bytes ends where the bit-serial register fed their bits, lowest first, ends |
| `Crc.TableFormIsBitSerial` | cpp/src/common/Crc32.hpp:46-102 | for every message the table form equals the reflected CRC-32 computed one bit at a time, from and into 0xFFFFFFFF |
| `Crc.EmptyCrc` | cpp/src/common/Crc32.hpp:91-102 | the checksum of no data is 0 |
| `CrcCheckValue.CheckValue` | cpp/src/common/Crc32.hpp:91-102 | the characters 1 to 9 give the published check value of CRC-32, 0xCBF43926 |
| `Crc.ComputeCrc32` | cpp/src/common/Crc32.hpp:91-102 | the loop over the buffer computes the checksum function of which the lemmas speak |
| `CrcDetection.UndetectedIffNoResidue` | cpp/src/common/Crc32.hpp:91-102 | two messages of one length share a checksum iff their xor leaves a zero register at zero |
| `CrcDetection.BitStepInjective` | cpp/src/common/Crc32.hpp:98-99 | the register step can be undone: distinct registers go to distinct registers |
| `CrcDetection.WordsSeparate` | cpp/src/common/Crc32.hpp:98-99 | distinct bit strings of one length up to 32 send one register to distinct registers |
| `CrcDetection.BurstDetected` | cpp/src/common/Crc32.hpp:91-102 | messages of any length that differ, and only within 32 consecutive bits, have different checksums |
| `Wire.BurstFailsChecksum` | cpp/src/base/Receiver.cpp:203-206 | a burst that changes the payload changes the value the receiver compares |
| `Wire.ChecksumOfDigits` | cpp/src/base/Packet.cpp:36-38 | so does the checksum of a packet with these bytes of data, taken in their order |
| `Wire.ConversionsAre` | cpp/src/base/Receiver.cpp:203-210 | the casts between int and unsigned int keep the 32 low bits, and one undoes the other |
| `Wire.HeaderIsBigEndian` | cpp/src/base/Packet.cpp:40-47 | the 16 header bytes are type, number, length and checksum, each the four base-256 digits of its value, highest first |
| `Wire.TypeBytes` | README.md:29-37 | the header starts with the four bytes of 0, 1, 2 or 3 for START, END, DATA and ACK, and an ACK's ends in eight zero bytes |
| `Wire.HeaderRoundTrip` | cpp/src/base/Packet.cpp:22-26 | any buffer that starts with the bytes of a header parses to that header |
| `Wire.ParsersFailIff` | cpp/src/base/Packet.cpp:17-33 | Packet fails on a buffer shorter than a header or than the length in it says, Packet1 on the first alone |
| `Wire.WireRoundTrip` | cpp/src/base/Receiver.cpp:25-35 | every packet with at most 1456 bytes of data has a header of its type, number, length and CRC, goes out as that header and then the data, at most 1472 bytes, is read back whole by both parsers and passes the checksum test |
| `Wire.PaddedRoundTrip` | cpp/src/base/Sender.cpp:207-232 | so it is when parsed out of the zero-filled 1472-byte buffer: the padding is not taken for data |
| `Wire.RepliesRead` | cpp/src/base/Sender.cpp:207-232 | receiveAck sees at most 1472 bytes of a reply, and zeros where it ends, so that an empty one is a packet of zeros; it reads past its buffer iff the length in the header is over 1456 |
| `Wire.DatagramsRead` | cpp/src/base/Receiver.cpp:123-131 | the receiver takes for data what follows the 16 header bytes of a datagram, up to byte 1500 |
| `Wire.DamagedPayloadParses` | cpp/src/base/Receiver.cpp:25-35 | damage behind the header shows up as other data under the same header, accepted iff the CRCs agree |
| `Wire.AckRoundTrip` | cpp/src/base/Sender.cpp:207-237 | every receiver ACK parses to (3, number, 0, 0) without data and is valid, whatever the unwritten rest of its 1500 bytes holds |
| `Chunks.NextIsDataPacket` | cpp/src/base/Sender.cpp:89-94 | from the offset of chunk i the loop makes DATA packet i and moves to the offset of chunk i + 1 |
| `Chunks.ChunkSizes` | cpp/src/base/Sender.cpp:88-94 | chunk i has at most 1456 bytes, and at least one iff i is below ceil(size / 1456), which is when the loop goes on |
| `Chunks.ChunkIs` | cpp/src/base/Sender.cpp:88-94 | chunk i starts at byte 1456 i, is 1456 bytes long if the file goes so far, and else ends with it |
| `Chunks.ConcatIsPrefix` | cpp/src/base/Sender.cpp:86-95 | the chunks before k are the file up to where chunk k starts |
| `Chunks.AllChunksAreFile` | README.md:64 | all the chunks, one after the other, are the file |
| `BaseSender.SendChunkKeeps` | cpp/src/base/Sender.cpp:88-95 | a first send takes the next number and keeps the window equal to the packets from the base to the next number, at most w of them |
| `BaseSender.AckMovesBase` | cpp/src/base/Sender.cpp:107-110 | an ACK for something sent moves the base to the larger of its number and the old base, and keeps the window in order |
| `BaseSender.PopFaultsIffUnsent` | cpp/src/base/Sender.cpp:107-109 | the pop loop runs into an empty deque iff the ACK's number is above the next to send |
| `BaseSender.LateStartAckFaults` | cpp/src/base/Sender.cpp:46-49 | a repeated START ACK with number 2 is such an ACK when one packet is out |
| `StrayAcks.LosesDataIff` | cpp/src/base/Sender.cpp:107-110 | in a reachable state where the sender listens, an ACK from elsewhere makes the loop exit with the file incomplete iff all chunks are sent, not all delivered, and it acknowledges all |
| `StrayAcks.LateStartAckLosesData` | cpp/src/base/Sender.cpp:46-49 | for every nonempty file a connection whose START has the number of chunks for its number reaches a state where the ACK of that START, come again, does so |
| `BaseSender.ReplyKeeps` | cpp/src/base/Sender.cpp:98-112 | any reply leaves window and counters in order, or else is the ACK of a packet never sent |
| `BaseSender.ExitMeansAllAcked` | cpp/src/base/Sender.cpp:86 | the outer loop stops iff the base is the number of chunks |
| `BaseSender.FillKeeps` | cpp/src/base/Sender.cpp:88-95 | the inner loop sends exactly the numbers it adds, stops only when it may send no more, and keeps the base |
| `BaseSender.DatagramsAre` | cpp/src/base/Sender.cpp:101-105 | resending a list of packets hands over one datagram for each, in order |
| `BaseSender.FillInOrder` | cpp/src/base/Sender.cpp:88-95 | the inner loop sends the packets up to the lesser of the chunks there are and the base plus w, each once and in order |
| `BaseSender.ResentInOrder` | cpp/src/base/Sender.cpp:101-105 | on a timeout the whole window goes out again, front to back and each packet once; on anything else nothing does |
| `BaseSender.InvalidReplyIgnored` | cpp/src/base/Sender.cpp:107-111 | a reply whose checksum is not that of its data changes nothing and has nothing sent |
| `BaseSender.TurnSendsInOrder` | cpp/src/base/Sender.cpp:86-112 | one turn sends what there is room for, in order, and then after a timeout the whole window, in order, and nothing more |
| `BaseSender.RunGoesOn` | cpp/src/base/Sender.cpp:86-112 | a call that waits takes the next reply from the state it has reached and adds what that sends to the end of what it has sent; one that has ended is not touched |
| `BaseSender.SendDataSendsFile` | cpp/src/base/Sender.cpp:76-113 | a call of sendData, whatever it receives, sends only DATA packets of the file, each number up to the next one among them, and returns only with all chunks sent and none left in the window |
| `BaseClasses.Window.RemoveAcknowledgedPackets` | cpp/src/base/Window.cpp:14-18 | the loop of pops leaves the window from count on, given that many packets |
| `BaseClasses.Window.CanAddPacket` | cpp/src/base/Window.cpp:29-31 | there is room iff the window is shorter than the size given, or than the unsigned long a negative one converts to |
| `BaseClasses.Sender.SendPacket` | cpp/src/base/Sender.cpp:187-205 | one datagram goes out; the window grows by the packet iff it is a first send |
| `BaseClasses.Sender.ResendAll` | cpp/src/base/Sender.cpp:101-105 | the loop sends every packet of the window again, in order, and leaves the window alone |
| `BaseClasses.Sender.HandleReply` | cpp/src/base/Sender.cpp:100-111 | the branches do what the specification of a reply says, and report where the deque would run empty |
| `BaseClasses.Sender.FillWindow` | cpp/src/base/Sender.cpp:88-95 | with a window of the given size the inner loop reaches the state, and sends the datagrams, of which FillInOrder speaks |
| `BaseClasses.Sender.TakeTurn` | cpp/src/base/Sender.cpp:86-112 | one turn of the outer loop, with a window of the given size, reaches the state, outcome and datagrams of which TurnSendsInOrder speaks |
| `BaseClasses.Sender.SendData` | cpp/src/base/Sender.cpp:76-113 | the nested loops over all replies, with a window of the given size, reach the state, outcome and datagrams of which SendDataSendsFile and RunGoesOn speak |
| `BaseReceiver.DrainWritesOnce` | cpp/src/base/Receiver.cpp:216-223 | the drain loop writes one packet and erases one key, since next_seq does not move inside it |
| `BaseReceiver.DataStep` | cpp/src/base/Receiver.cpp:203-232 | only a sound packet with the number awaited is written, alone; one ahead in the window is stored and answered with next_seq; any other changes nothing and gets no answer |
| `BaseReceiver.NextMissingIsLeast` | README.md:111 | the number the README asks for is the least from next_seq + 1 on that is not buffered |
| `BaseReceiver.CumulativeAckIff` | README.md:111 | an in-order packet is answered with that number iff its successor is not buffered |
| `Departures.CumulativeAckFallsShort` | README.md:111 | whenever two packets fit both windows, a reachable state where packet 0 will be answered with 1 while the first number missing is 2 |
| `BaseReceiver.ReAckIff` | README.md:110 | any other packet, with any 32-bit number, is answered with next_seq iff its number as an int lies ahead in the window, and otherwise not at all |
| `BaseReceiver.ConnectionKeeps` | cpp/src/base/Receiver.cpp:140-170 | until END comes STARTs are ignored, only the connection's own file grows, by appending, and next_seq never falls |
| `BaseReceiver.EndAcksStartNumber` | README.md:42 | START opens the next file at number 0 and leaves map and files alone, and both it and the END that closes it are answered with START's number |
| `BaseReceiver.OthersIgnored` | cpp/src/base/Receiver.cpp:140-206 | a packet of another type, or DATA with a bad checksum, changes nothing and gets no answer |
| `BaseReceiver.RepeatedEndIsAnswered` | cpp/src/base/Receiver.cpp:171-190 | an END that comes again is answered again with the last START's number and changes nothing |
| `BaseReceiver.AnswersInOrder` | cpp/src/base/Receiver.cpp:122-247 | the answers to any datagrams and one more are those to the former and then the one number, or none, that the state they led to answers it with; after a datagram too short for a header there are no more |
| `BaseReceiver.StepForgets` | cpp/src/base/Receiver.cpp:208-232 | one turn of the receiver is one turn of a Go-Back-N receiver that keeps no map |
| `BaseReceiver.BufferIndependence` | cpp/src/base/Receiver.cpp:112-248 | over any datagrams and connections the files written and the ACKs sent are those of that receiver, whatever the map held |
| `BaseReceiver.StaleEntriesNeverWritten` | cpp/src/base/Receiver.cpp:146-148 | entries that START leaves in the map change neither a later file nor an ACK |
| `BaseClasses.Receiver.WriteToFile` | cpp/src/base/Receiver.cpp:100-110 | the data is appended to the file of that index, and no other changes |
| `BaseClasses.Receiver.DrainBuffer` | cpp/src/base/Receiver.cpp:216-222 | the loop leaves the map and the files of its specification |
| `BaseClasses.Receiver.HandleData` | cpp/src/base/Receiver.cpp:203-244 | the DATA branch reaches the state and gives the answer of which DataStep speaks |
| `BaseClasses.Receiver.Handle` | cpp/src/base/Receiver.cpp:131-245 | one turn of the loop, by type; a datagram too short for a header throws and changes nothing |
| `BaseClasses.Receiver.StartReceiving` | cpp/src/base/Receiver.cpp:112-248 | the loop over all datagrams reaches the state and sends the ACKs of which AnswersInOrder and BufferIndependence speak |
| `BaseProtocol.AckArrives` | cpp/src/base/Sender.cpp:98-110 | a receiver ACK out of the network is parsed, found valid, and does to the sender just what its number says |
| `BaseProtocol.TimeoutResends` | cpp/src/base/Sender.cpp:101-105 | a timeout puts every packet of the window on the network and changes nothing else |
| `BaseProtocol.StrayAckSafeIff` | cpp/src/base/Sender.cpp:107-110 | an ACK from elsewhere keeps the invariant iff its number is at most next_seq, and faults iff it is above the next to send |
| `StrayAcks.StrayAckHarms` | cpp/src/base/Sender.cpp:107-110 | any ACK from elsewhere above next_seq faults the sender, or leaves it so that once the data under way is lost no continuation ever completes the file |
| `Network.FlightParses` | cpp/src/base/Receiver.cpp:25-35 | a DATA datagram, hit by a burst or not, parses to the header sent; if it passes the test its data is the chunk sent, and undamaged it passes |
| `BaseProtocol.DataArrives` | cpp/src/base/Receiver.cpp:203-232 | a delivery extends the file by the awaited chunk or leaves it, answers only with the new next_seq, and answers every undamaged packet in the window |
| `BaseProtocol.StartIgnored` | README.md:104 | a START in the middle of a connection changes nothing |
| `BaseProtocol.StepKeepsInv` | cpp/src/base/Sender.cpp:86-112 | every step of either end or the network keeps the invariant that couples sender, receiver and all datagrams in flight |
| `BaseProtocol.ReachableInv` | cpp/src/base/Sender.cpp:69-72 | the invariant holds in every reachable state from the success of startConnection on |
| `BaseProtocol.Safety` | README.md:22 | in every reachable state nothing has faulted, what has been appended to the file is exactly chunks 0 up to next_seq, and once sendData's loop has exited it is the whole file |
| `BaseProtocol.RunAppends` | cpp/src/base/Receiver.cpp:100-110 | over any run from the success of startConnection the same, said of what the file held at its start |
| `Transfers.OneTransfer` | README.md:104 | a transfer from START to END whose sendData returns appends its file to the next FILE-i.out and touches no other |
| `Transfers.FilesInOrder` | README.md:104 | any number of such transfers in turn, whatever the map carries over, append file i to FILE-i.out, in order, and touch no other |
| `Transfers.TransfersExist` | README.md:104 | any files can be transferred so in turn |
| `BaseProtocol.CoupledWindows` | cpp/src/base/Window.cpp:4-18 | base <= next_seq <= next to send <= base + w, the window is exactly those packets in order and nonempty at receiveAck, and every ACK in flight is at most next_seq |
| `BaseProtocol.AcksEverSent` | cpp/src/base/Receiver.cpp:226-232 | every ACK that was in the network at any state of a run is at most the next_seq of every later state |
| `BaseProtocol.UpperTestNeverFails` | cpp/src/base/Receiver.cpp:208 | with a receive window no smaller than the sender's nothing in flight, sound or damaged, lies beyond the upper bound, and an undamaged packet is answered iff not yet delivered |
| `BaseProtocol.NoWrap` | cpp/src/base/Receiver.cpp:208-227 | no number wraps, no int overflows, and the int casts agree with the unsigned values |
| `BaseBuffer.StepKeepsBuffer` | cpp/src/base/Receiver.cpp:208-227 | every step keeps the map to genuine packets with keys in the window |
| `BaseBuffer.BufferBound` | cpp/src/base/Receiver.cpp:208-227 | from an empty map, at every point of every run: keys in the window, values the genuine chunks, at most window_size entries, next_seq never less later on |
| `BaseBuffer.DataRaises` | cpp/src/base/Receiver.cpp:226-227 | the number acknowledged is the new next_seq, which is never below the old: DATA ACKs never decrease |
| `BaseRound.CleanRound` | cpp/src/base/Sender.cpp:101-110 | from any reachable state with next_seq below the next to send, once the window is filled, a timeout whose retransmissions and ACKs all arrive in order is a run that moves the base to everything sent and the file with it |
| `BaseLiveness.HungStays` | cpp/src/base/Receiver.cpp:208 | from a state that is not finishable no step leads to one that is |
| `BaseLiveness.Finish` | cpp/src/base/Sender.cpp:86-112 | from a finishable state there is a run in which sendData's loop exits |
| `BaseLiveness.CompletesIffFinishable` | cpp/src/base/Receiver.cpp:208 | a reachable state has a run to completion iff something sent is awaited, something may be sent, an ACK that opens the window or completes it is under way, or all is acknowledged |
| `BaseLiveness.EveryTransferCanHang` | README.md:110 | for every nonempty file and all windows there is a reachable state with the whole file written from which sendData's loop never exits |
| `BaseTurn.FillIsSends` | cpp/src/base/Sender.cpp:88-95 | the inner loop puts on the network what the protocol's Send steps put there |
| `BaseTurn.TurnIsRun` | cpp/src/base/Sender.cpp:86-112 | a turn of sendData's loop that meets a timeout or an ACK in flight never faults and is a run of the protocol to the same state and datagrams |
| `BaseTurn.RunIsSendData` | cpp/src/base/Sender.cpp:76-113 | over any run of the protocol, with receiver and network steps anywhere between the sender's, sendData on the replies met sends what the run sent and stands where it left the sender |
| `BaseTurn.StepSendsInOrder` | cpp/src/base/Sender.cpp:86-112 | in a Send the sender hands over the next packet, in a timeout DATA packets base up to the next to send, each once and in order, and on an ACK nothing |
| `BaseTurn.StepPutsFlights` | cpp/src/base/Sender.cpp:187-205 | what a sender step hands to sendto is what it adds to the network |
| `BaseFairness.FairRunExitsIff` | README.md:22 | an infinite run with a moving sender and a fair network comes to the exit of sendData's loop iff no state of it is hung |
| `BaseFairness.FairRunsExit` | README.md:22 | every reachable state that is not hung begins such a run, and one that exits |
| `BaseFairness.FairRunsHang` | README.md:110 | for every nonempty file and all windows there is such a run, with the whole file written, in which the loop never exits although the window is sent and delivered for ever |
| `BaseTimers.StaleAckChangesNothing` | cpp/src/base/Sender.cpp:107-111 | an ACK at or below the base changes nothing at all |
| `BaseTimers.StepSendsAgainIff` | cpp/src/base/Sender.cpp:98-105 | of all steps just a timeout sends the datagram of a packet in the window again |
| `BaseTimers.SentAgainIff` | cpp/src/base/Sender.cpp:98-105 | over any run with a clock, the datagram of a packet that stays in the window goes out again iff some recvfrom comes back 500 ms after the sender last sent or heard anything |
| `BaseTimers.EachMoveInTimeIff` | README.md:77-78 | whatever a listening sender does next moves the window or sends it again after 500 ms, in every reachable state, iff the file has at most one chunk |
| `BaseTimers.SentAgainInTimeIff` | README.md:77-78 | every stretch of 500 ms or more, from any reachable listening state, in which the window does not move has it sent again at 500 ms, iff the file has at most one chunk |
| `BaseTimers.StaleAcksPostpone` | cpp/src/base/Sender.cpp:176-180 | with repeats of it a millisecond apart, inside every recvfrom timeout, any length of time passes and nothing is sent |
| `BaseTimers.RetransmissionCanBePutOffForever` | README.md:77-78 | so it is from every reachable state in which the sender listens with a stale ACK in the network |
| `BaseTimers.CanStarveIff` | README.md:77-78 | a transfer can come to such a state iff its file has at least two chunks |
| `OptSender.MarkAt` | cpp/src/opt/Window.cpp:45-54 | marking flags the packet of that number in a numbered window and no other |
| `OptSender.AdvanceDrops` | cpp/src/opt/Window.cpp:66-75 | the advance drops flagged packets only, and all of them up to the first without a flag |
| `OptSender.SendKeeps` | cpp/src/opt/Sender.cpp:96-103 | a first send keeps the window equal to what numbers sent and ACKs heard determine |
| `OptSender.SendStamps` | cpp/src/opt/Packet.cpp:9-15 | a first send puts the packet at the end of the window without a flag, under the time it is sent, and touches no other |
| `OptSender.FillInOrder` | cpp/src/opt/Sender.cpp:96-103 | the inner loop sends the packets there is room for, each once and in order, and puts them behind the others under the time of sending |
| `OptSender.AckKeeps` | cpp/src/opt/Sender.cpp:129-138 | an ACK for a number sent, first or repeated, has the effect of adding the number to those heard; any other has none; no timer moves |
| `OptSender.TimeoutKeeps` | cpp/src/opt/Sender.cpp:106-127 | a timeout changes neither packets nor flags |
| `OptSender.ResentInOrder` | cpp/src/opt/Sender.cpp:117-124 | the packets sent again are those of the window without a flag and more than 500 ms old, each once and in order |
| `OptSender.InvalidReplyIgnored` | cpp/src/opt/Sender.cpp:129-140 | a reply whose checksum is not that of its data changes nothing, flags and timers included |
| `OptSender.TurnSendsInOrder` | cpp/src/opt/Sender.cpp:94-141 | one turn sends what there is room for, in order, and then after a timeout what is overdue, and nothing more |
| `OptSender.RunGoesOn` | cpp/src/opt/Sender.cpp:94-141 | a call that waits makes its next turn from the state it has reached and adds what that sends to the end of what it has sent; one that has ended is not touched |
| `OptSender.WindowIsAccount` | cpp/src/opt/Window.cpp:45-75 | after any interleaving of sends, ACKs and timeouts the window runs from the least number not heard to the next, each flag being membership in the set heard |
| `OptSender.AckConfluence` | cpp/src/opt/Window.cpp:45-75 | histories that sent as many packets and heard the same set leave the same packets under the same flags, whatever the order and the repeats |
| `OptSender.CumulativeIsSelective` | cpp/src/base/Window.cpp:14-18 | on a window without flags, the base sender's handling of one ACK a leaves the packets that marking and advancing for all numbers below a leave, in any order, with repeats and with numbers already gone, and no timer moves |
| `OptSender.MeasureOfSteps` | cpp/src/opt/Sender.cpp:94-141 | chunks unsent plus packets un-ACKed stay equal over sends and timeouts, and fall by one on an ACK exactly if it is the first of a number sent |
| `OptSender.RunningIffOutstanding` | cpp/src/opt/Sender.cpp:94 | the outer loop goes on exactly while that measure is positive |
| `OptSender.SocketTimeoutCorrect` | cpp/src/opt/Sender.cpp:222-238 | the fold is the least of 500 and the positive remaining times of un-ACKed packets, from 1 to 500, and the timeval says it exactly and is never zero |
| `OptSender.SendDataHearsAll` | cpp/src/opt/Sender.cpp:84-142 | a call of sendData, whatever it receives and when, sends only DATA packets of the file, drops or flags only numbers heard, and returns only with all sent and all heard |
| `OptClasses.Window.MarkPacketAsAcked` | cpp/src/opt/Window.cpp:45-54 | the loop flags in place what the specification of marking flags |
| `OptClasses.Window.DetermineWindowAdvance` | cpp/src/opt/Window.cpp:66-75 | the loop of pops leaves the window of the specification and counts what it dropped |
| `OptClasses.Window.CanAddPacket` | cpp/src/opt/Window.cpp:30-32 | there is room iff the window is shorter than the size given, or than the unsigned long a negative one converts to |
| `OptClasses.SenderOpt.UpdateSocketTimeout` | cpp/src/opt/Sender.cpp:217-245 | the loop sets the timeout of which SocketTimeoutCorrect speaks, or none for an empty window |
| `OptClasses.SenderOpt.FillWindow` | cpp/src/opt/Sender.cpp:96-103 | with a window of the given size the inner loop reaches the state and sends the datagrams of which FillInOrder speaks |
| `OptClasses.SenderOpt.ResendOverdue` | cpp/src/opt/Sender.cpp:117-124 | the loop resends exactly the overdue packets, in order, and resets just their timers in place |
| `OptClasses.SenderOpt.HandleReply` | cpp/src/opt/Sender.cpp:108-140 | the branches do what the specification of a reply says |
| `OptClasses.SenderOpt.TakeTurn` | cpp/src/opt/Sender.cpp:94-141 | one turn of the outer loop, with a window of the given size, reaches the state, outcome, datagrams and socket timeout of which TurnSendsInOrder and SocketTimeoutCorrect speak |
| `OptClasses.SenderOpt.SendData` | cpp/src/opt/Sender.cpp:84-142 | the nested loops over all turns, with a window of the given size, reach the state, outcome and datagrams of which SendDataHearsAll and RunGoesOn speak |
| `OptReceiver.DataStep` | cpp/src/opt/Receiver.cpp:211-237 | with a positive window every sound DATA packet is stored under its number and answered with it; nothing is written |
| `OptReceiver.DroppedIff` | README.md:140 | a DATA packet is dropped, and not stored, iff its checksum is bad or the window size is not positive |
| `Departures.BeyondWindowIsStored` | README.md:140 | whenever the receive window is shorter than the sender's and the file, a reachable state where number 0 is the first missing and the packet a whole window above it will be stored and acknowledged |
| `OptReceiver.ConnectionKeeps` | cpp/src/opt/Receiver.cpp:145-175 | until END comes a connection keeps its counter and its START number |
| `OptReceiver.EndAcksStartNumber` | README.md:42 | START leaves map and files alone, and it and the END that closes its connection are both answered with START's number |
| `OptReceiver.RepeatedEndIsAnswered` | cpp/src/opt/Receiver.cpp:176-195 | an END that comes again is answered again with the last START's number and changes nothing |
| `OptReceiver.OthersIgnored` | cpp/src/opt/Receiver.cpp:145-211 | a packet of another type, DATA with a bad checksum, or a START in a connection changes nothing and gets no answer |
| `OptReceiver.AnswersInOrder` | cpp/src/opt/Receiver.cpp:126-247 | the answers to any datagrams and one more are those to the former and then the one number, or none, that the state they led to answers it with |
| `OptReceiver.NothingIsEverWritten` | cpp/src/opt/Receiver.cpp:213-224 | whatever arrives, over any number of connections, no file receives a byte |
| `OptClasses.Receiver.HandleData` | cpp/src/opt/Receiver.cpp:208-237 | the DATA branch reaches the state and gives the answer of which DataStep speaks; its write to the file is dead code |
| `OptClasses.Receiver.Handle` | cpp/src/opt/Receiver.cpp:135-245 | one turn of the loop, by type; a datagram too short for a header throws and changes nothing |
| `OptClasses.Receiver.StartReceiving` | cpp/src/opt/Receiver.cpp:115-248 | the loop over all datagrams reaches the state and sends the ACKs of which AnswersInOrder and NothingIsEverWritten speak |
| `OptProtocol.TimeoutIs` | cpp/src/opt/Sender.cpp:108-124 | a timeout puts the overdue packets on the network under fresh times and changes nothing else |
| `OptProtocol.AckHeard` | cpp/src/opt/Sender.cpp:129-138 | a receiver ACK is parsed, found valid, and does to the sender just what its number says |
| `OptProtocol.StrayAckSafeIff` | cpp/src/opt/Sender.cpp:129-138 | an ACK from elsewhere keeps the invariant iff its number is not that of a packet sent and not stored |
| `OptProtocol.DataArrives` | cpp/src/opt/Receiver.cpp:211-237 | a delivery keeps every chunk stored, and answers with i only once the map holds chunk i under i; undamaged it always answers |
| `OptProtocol.StepKeepsInv` | cpp/src/opt/Sender.cpp:94-141 | every step of either end or the network keeps the invariant, and the files as they are |
| `OptProtocol.ReachableInv` | cpp/src/opt/Sender.cpp:74-79 | the invariant holds in every reachable state from the success of startConnection on |
| `OptProtocol.Safety` | README.md:140-141 | in every reachable state a packet has left the window or is flagged only if the map holds its very chunk, and when sendData's loop exits the map read in order is the file |
| `OptProtocol.WindowNonempty` | cpp/src/opt/Sender.cpp:94-109 | at every receiveAck the window holds 1 to w packets, the first without a flag |
| `OptProtocol.NoWrap` | cpp/src/opt/Receiver.cpp:213-214 | no number wraps, and next_seq + window_size does not overflow for any DATA packet in flight |
| `OptProtocol.FileCompleteIffEmpty` | README.md:106 | at any time of a run the output file has gained the file sent iff that is empty |
| `OptTimers.TimeoutDeadline` | cpp/src/opt/Packet.cpp:52-56 | if all un-ACKed packets are at most 500 ms old, a timeout resends exactly those over 500, at 501 to 1000 ms when the socket timeout fires on time, and all are at most 500 again |
| `OptTimers.FillKeepsAges` | cpp/src/opt/Sender.cpp:96-106 | filling the window makes no packet older: if none was over 500 ms old none is when the sender listens |
| `OptTimers.StretchDeadline` | cpp/src/opt/Sender.cpp:106-127 | over a stretch of only timeouts the ages are at most 500 after each, and once it has lasted more than 500 ms every un-ACKed packet has been sent again |
| `OptTimers.StretchResends` | cpp/src/opt/Sender.cpp:112-123 | at each timeout of such a stretch the overdue packets go onto the network and take its time, at an age of 501 ms or more, and of 1000 at most when the socket timeout fires on time |
| `OptTimers.TimerStep` | cpp/src/opt/Sender.cpp:112-123 | of all steps only a timeout more than 500 ms after an un-ACKed packet was sent touches its timer; it puts the packet on the network |
| `OptTimers.SendStartsTimer` | cpp/src/opt/Packet.cpp:9-15 | a first send starts the packet's timer at the time of sending and touches no other |
| `OptTimers.StepSendsAgainIff` | cpp/src/opt/Sender.cpp:106-127 | what a step hands to sendto holds the datagram of an un-ACKed packet sent before iff the step is a timeout more than 500 ms after that |
| `OptTimers.SentAgainIff` | cpp/src/opt/Sender.cpp:106-127 | over any run, the datagram of a packet that stays un-ACKed goes out again, and its timer is reset, iff some receiveAck of it times out more than 500 ms after the packet was last sent before the run |
| `OptTimers.FirstSentAgainIff` | cpp/src/opt/Sender.cpp:96-127 | from its first send at time t on, the datagram of a packet that stays un-ACKed goes out again iff some receiveAck times out more than 500 ms after t |
| `OptTimers.RepeatedAckOnlyTakesTime` | cpp/src/opt/Sender.cpp:129-138 | an ACK heard before changes nothing but the clock |
| `OptTimers.AcksPostponeRetransmission` | cpp/src/opt/Sender.cpp:106-127 | with repeats of one old ACK a millisecond apart, inside every socket timeout, any length of time passes and nothing is sent |
| `OptTimers.StrayAckOnlyTakesTime` | cpp/src/opt/Sender.cpp:129-138 | a repeated START ACK changes nothing but the clock |
| `OptTimers.RetransmissionCanBePutOffForever` | README.md:141 | from every reachable listening state, any file and any windows, repeats of the connection's own START ACK a millisecond apart, its number being no DATA packet's, let any length of time pass with nothing sent, while the first packet stays un-ACKed |
| `OptTimers.EveryTransferCanStarve` | README.md:141 | every transfer of a nonempty file, with any such START number, comes to such a state with nothing heard and nothing delivered |
| `OptLiveness.Finish` | cpp/src/opt/Sender.cpp:94-141 | from every state that meets the invariant there is a run, each of its timeouts on time, in which sendData's loop exits |
| `OptLiveness.AlwaysCanComplete` | README.md:22 | from every reachable state there is a run, every step on time, after which the loop has exited and the map reads as the file |
| `OptFairness.FairRunsComplete` | README.md:22 | every infinite run in which the sender moves, a packet sent for ever arrives for ever and an ACK sent for ever is heard comes to a state where the loop has exited and the map reads as the file |
| `OptFairness.FairRunsExist` | README.md:22 | every reachable state begins such a run |
| `OptTurn.TimeoutMonotonic` | cpp/src/opt/Sender.cpp:222-233 | reading the clock later never makes the computed time-out fall earlier |
| `OptTurn.TurnIsRun` | cpp/src/opt/Sender.cpp:94-141 | a turn of sendData's loop that meets an ACK in flight, or nothing before its socket timeout, never faults and is a run of the protocol to the same state and datagrams |
| `OptTurn.RunIsSendData` | cpp/src/opt/Sender.cpp:84-142 | over any run of the protocol that is on time, with other steps anywhere between the sender's, sendData on the replies met sends what the run sent and stands where it left the sender |

## Left out

- Sockets: creation, bind, `sendto`, `recvfrom` and `setsockopt` are network steps and a computed timeout; their error returns other than a timeout are not modelled.
- Files: opening, `output_dir` and `output_file` (never written through) are not modelled; a file is the byte sequence that `writeToFile` has appended to it. `sendData` starts from its input bytes; which path it is given (base `main` passes the log's path, cpp/src/base/Sender.cpp:278) is outside the model.
- Argument parsing, printing and logging: no protocol content.
- The random START number: any value, under the assumptions above.
- Retrying in `startConnection` and `endConnection`: runs start from the success branch; the base START is sent again once only and promises nothing.
- Header corruption and datagrams from strangers: outside what the checksum covers. A datagram too short for a header is the fault `ShortBuffer`, a length beyond the buffer the fault `Overread`.
- Parts of a millisecond and the readings of the clock within a step: one reading serves the whole step.
- Functions commented out or declared without a body (`getTimedOutPacketSeqNums`, `validateChecksum`, `handlePacket`): there is no code.
- The drain loop README.md:111 intends: only what the code does is modelled.
- Packet and Packet1: values, not classes. `setAcked` and `resetTimer` are updates of an element of the window's sequence, so sharing of a packet between two owners, which the sources do not use, is not captured.
- BaseProtocol.Safety: the network adds at most one burst of at most 32 bits to a DATA datagram, and none to an ACK, whose data is empty.
- BaseClasses.Sender.SendData: takes its replies as a finite list and stops, Waiting, where it would block for another.
- OptClasses.SenderOpt.SendData: likewise, over a finite list of turns.
- BaseClasses.Receiver.StartReceiving: the endless loop is modelled over every finite list of datagrams.
- OptClasses.Receiver.StartReceiving: likewise.
- BaseProtocol.CoupledWindows: bounds the ACKs in flight by next_seq; for every ACK ever sent see `BaseProtocol.AcksEverSent`.
- BaseLiveness.Finish: says that a completing run exists; for every fair run see `BaseFairness.FairRunExitsIff`.
- OptLiveness.Finish: likewise; see `OptFairness.FairRunsComplete`.
- BaseTurn.TurnIsRun: a whole turn with no receiver step in between; `BaseTurn.RunIsSendData` has them anywhere.
- OptTurn.TurnIsRun: likewise; see `OptTurn.RunIsSendData`, which takes runs that are on time.
- Transfers.FilesInOrder: nothing arrives between END and the next START, as one sender at a time is assumed (README.md:59).
- BaseReceiver.DataStep: does not model the int overflow of `next_seq + window_size`, which has no defined value; `BaseProtocol.NoWrap` excludes it in every reachable state.
- OptReceiver.DataStep: likewise; `OptProtocol.NoWrap` excludes it.
