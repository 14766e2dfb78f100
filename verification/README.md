# Verified model of the CPE 464 network programs

A Dafny 4.11 model of the protocol code in this repository, with machine-checked proofs. `dafny verify dfyconfig.toml`
checks everything. Nothing here is executed; the proofs are about the model, and the model follows the C and C++ code
branch by branch.

| file | what it models |
|---|---|
| `Bytes.dfy`, `Checksum.dfy` | machine words, and `in_cksum` against 16-bit ones'-complement addition (section 4.1 of RFC 1071) |
| `Codec.dfy`, `Srej.dfy` | the 7-byte packet header, sending and receiving a packet, the retry counter |
| `PacketManager.dfy` | the course library that logs, drops and corrupts what is sent |
| `Windowing.dfy`, `WindowDriver.dfy` | the circular window buffer and the program that drives it |
| `Rcopy.dfy`, `Receiver.dfy` | the receiving client, and the plain receiver that it refines |
| `Server.dfy`, `ServerRun.dfy` | the sending process, and whole runs of its loop |
| `Handshake.dfy` | the answer to the file name, through both programs |
| `Session.dfy`, `Delivery.dfy`, `Recovery.dfy` | server, client and network together: what a finished transfer delivers, and what can still be repaired |
| `AppPdu.dfy`, `ChatPackets.dfy`, `ChatLines.dfy` | the chat program's length framing, its message packets, and the lines they are made from |
| `TcpChecksum.dfy` | TCP checksum verification in the trace program |

Code that updates objects or buffers in place is modelled by classes and arrays; each such method is proved equal to a
function on values, and the properties are then proved about those functions. Randomness, timers, `select` and the file
system appear as parameters: which event fires, whether a wait times out, whether a read fails.

## Main results

- **Delivery, exactly** (`Delivery.DeliversIff`). A client that finishes through END_OF_FILE always holds the whole file
  if and only if the file is empty, or packets to the client stay in order, none is duplicated, and either the server's
  timer fires only when nothing is in flight or the file is one chunk. The three ways it fails are constructed for every
  file they apply to: a hasty timer (`HastyTimerLosesChunk`: the RR number is never looked at, so a second RR for one
  chunk acknowledges the next), copies of FNAME_OK (`EchoLosesFile`: each is acknowledged as an old chunk, and the client
  finishes with an empty file), and chunk 1 overtaking FNAME_OK (`OvertakingLosesChunk`: the client takes any sound frame
  for the answer). Under every policy the output is a prefix of the file (`OutputIsPrefix`), and with the good policy no
  loss is final while enough tries are left, which is exact when nothing is in flight (`Recovery.CanFinishIff`): the
  next packet has to go out, one more if that one is spent on opening the client's file, and the RR of a chunk has to be
  waited for.
- **The receiver refines a plain one** (`Receiver.RunRefines`): for any frames at all, recv_data takes chunks in order
  until one comes early; from then on it only keeps early frames, and the output never changes (`GapFreezes`).
- **What the error library does to a send, exactly** (`PacketManager.LostIff`, `FlippedIff`, `LoggedIff`), and every fate
  that the session assumes is one it can cause (`Session.FateHasDice`).
- **Corruption, exactly**. One complemented byte is always detected (`Checksum.SingleFlipDetected`); two are missed in
  exactly the cases of `Checksum.DoubleFlipEscapes`; a changed word is missed in exactly those of
  `Checksum.WordChangeAccepted`. So a send is lost, reported damaged, or delivered unchanged
  (`Srej.ChannelTrichotomy`), as long as no bit flip is installed as a standard event; `Srej.TwoFlipsDeliverWrongData`
  shows that this is needed.
- **The server's loop does not always reach DONE** (`ServerRun.HangsIff`). In `wait_on_eof_ack` the data-ready state and
  the give-up state are both DONE, so when the retries run out the code falls into a blocking `recvfrom`. The run hangs
  exactly when the file can be opened and read to its end and as many sound frames arrive as it has chunks, all of them
  RR or SREJ and none after ten silences in a row; a silent peer makes it hang exactly when the first read returns no
  data (`ServerRun.SilentPeer`). How many retransmissions a run makes is a function of the same inputs
  (`RetransmissionsExactly`).
- **The window driver crashes exactly on a negative RR, or one above INT_MAX - W, followed by another turn**
  (`WindowDriver.CrashesIff`): the comparison is unsigned, so a negative RR empties every slot and leaves the window
  closed; a huge one does so by wrapping the upper edge. Otherwise the slots are a map
  (`FillRefines`, `AcknowledgeRefines`, `FindRefines`), and an entry is overwritten exactly when a window's worth lies
  above the floor. The bytes behind a stored entry are the newest packet's, because the window keeps the caller's
  pointer (`StoredBytesAreNewest`).
- **Framing, exactly** (`AppPdu.FramingRoundTrip`): reading the bytes of the stream until 0 gives back the messages
  written if and only if none is empty and each fits the buffer, since a return value of 0 also means that the connection
  was closed. `ReadsWritten` says what is read of any other list.
- **Command line to parsed packet, exactly** (`ChatPackets.CommandRoundTrip`): sender, handles and text come back,
  whatever the packet's memory held, if and only if the 8-bit line length does not wrap and the 8-bit index does not wrap
  before the last write. Where it wraps into the sender's name, the text overwrites that name and old memory is read as
  the text (`WrapLosesText`). On lines of any
  spacing the text sent is what follows the first n spaces (`ChatLines.ParsedTextIs`), which is the text typed if and
  only if no space is doubled (`ChatLines.TextComesBackIff`).
- **TCP checksum of whole frames** (`TcpChecksum.FrameIsVerified`, `PacketWordChange`): a frame put together from its
  fields is reported correct if its segment was filled as RFC 793 says, and a correct one stays so under a changed word
  exactly when the word is the same or the other zero.

Where comments and code disagree, the code is followed: `checksum.c` says that odd-length data must be followed by a zero
byte, but the loop mops up the odd byte itself; `PacketManager.h` says that all standard events run on each packet, but a
drop stops the list.

## Model

| member | source | states |
|---|---|---|
| Checksum.InCksum | Program3/libcpe464/checksum.c:58-86 | The accumulate-and-fold loop returns the complement of the 16-bit ones'-complement sum, for even and odd lengths, with no overflow of the 32-bit accumulator. |
| Checksum.FoldAndComplement | Program3/libcpe464/checksum.c:81-85 | Two folds are enough: the result is the complement of the sum's residue modulo 65535, with 0 kept for the sum 0 only. |
| Checksum.AccumulatorFits | Program3/libcpe464/checksum.c:60-73 | Up to 65536 bytes the word sum fits the signed 32-bit accumulator. |
| Checksum.OnesSumIsResidue | Program3/libcpe464/checksum.c:65-84 | Ones'-complement addition word by word equals the integer sum reduced modulo 65535. |
| Checksum.AcceptsIff | Program3/libcpe464/checksum.c:70-85 | The checksum is zero exactly when the word sum is positive and divisible by 65535. |
| Checksum.SingleFlipDetected | Program3/libcpe464/MsgEvents/errorFlipBits.cpp:21-26 | Complementing any one byte of an accepted buffer, odd tail and checksum field included, makes it rejected. |
| Checksum.DoubleFlipEscapes | Program3/libcpe464/MsgEvents/errorFlipBits.cpp:21-26 | Two complemented bytes go unnoticed exactly when they lie in the same half of their words and add up to 255, or in different halves and are both 0 or both 255, and the result is not all zero. |
| Checksum.WordChangeAccepted | Program3/libcpe464/checksum.c:70-85 | Replacing one aligned word keeps a buffer accepted exactly when the words are equal or are the two zeros, and the result is not all zero. |
| Checksum.ByteOrderIndependence | Program1_Trace/checksum.c:58-73 | Summing in the other byte order gives the byte-swapped sum and accepts the same buffers. |
| Checksum.ChecksumConcat | Program1_Trace/checksum.c:58-73 | Sums combine over a concatenation whose first part is even, in either byte order. |
| Bytes.ComplementIsXor | Program3/libcpe464/MsgEvents/errorFlipBits.cpp:24-24 | The corruption used in the proofs is exclusive-or with 0xFF. |
| Bytes.NetworkOrder | Program3/srej.c:45-46 | Network order puts the most significant byte first. |
| Bytes.HostOrder | Program3/rcopy.c:250-250 | A number copied from memory as it is, as an SREJ carries it, is network order turned round. |
| Codec.StampAccepted | Program3/srej.c:52-54 | Writing the checksum of a buffer into its zeroed aligned field always makes the buffer verify. |
| Codec.RoundTrip | Program3/srej.c:37-96 | Reading a built packet gives back flag, sequence number and the whole payload. |
| Codec.BuildInjective | Program3/srej.c:37-57 | Different frames never look the same on the wire. |
| Srej.CreateHeader | Program3/srej.c:37-57 | Fills header and checksum in place in front of an untouched payload, and touches nothing behind it. |
| Srej.RetrieveHeader | Program3/srej.c:78-96 | Rejects exactly the buffers that do not verify, leaving flag and number alone; otherwise delivers them and the payload length. |
| Srej.SendBuf | Program3/srej.c:20-35 | What is handed to the error library is the built packet, and the caller's packet buffer still holds it afterwards. |
| Srej.RecvBuf | Program3/srej.c:59-76 | A sound datagram's payload is copied out with its flag and number; a damaged one changes nothing. |
| Srej.ProcessSelect | Program3/srej.c:98-127 | Past the maximum number of tries it gives up without waiting; data clears the counter; silence counts one more. |
| Srej.ChannelTrichotomy | Program3/libcpe464/PacketManager.cpp:320-382 | A packet sent through the library is lost, or reported as a checksum error, or reported with exactly its payload, flag and number. |
| Srej.TwoFlipsAcceptedIff | Program3/libcpe464/PacketManager.cpp:132-189 | With two complemented bytes, when a sound packet is still taken for sound. |
| Srej.FlippedDecode | Program3/srej.c:78-96 | Two payload flips that go unnoticed deliver a payload that was never sent. |
| Srej.TwoFlipsDeliverWrongData | Program3/libcpe464/PacketManager.cpp:100-130 | With two standard bit flips installed, a concrete payload arrives changed and accepted. |
| PacketManager.AtMostOneFlip | Program3/libcpe464/network-hooks.c:181-207 | Without standard bit flips, which is all the library installs, a send is dropped, intact, or has one byte complemented. |
| PacketManager.LostIff | Program3/libcpe464/PacketManager.cpp:132-189 | Nothing arrives exactly when a standard drop event drops everything or lists the message number, or the dice pick a random one that does. |
| PacketManager.FlippedIff | Program3/libcpe464/PacketManager.cpp:100-189 | Of what arrives, whatever events are installed, a byte is complemented exactly when an odd number of the flips that ran picked it, standard ones and the random one. |
| PacketManager.RunAllCode | Program3/libcpe464/PacketManager.cpp:108-129 | The list reports a drop exactly when some event of it hits the message number, else a change exactly when it holds a bit flip. |
| PacketManager.LoggedIff | Program3/libcpe464/PacketManager.cpp:100-130 | A standard logger logs the packet's number unless a drop event in front of it hits; no other standard event changes. |
| PacketManager.RandomLoggedIff | Program3/libcpe464/PacketManager.cpp:158-178 | Of the random events only the one the dice pick runs, also when the packet was dropped already. |
| PacketManager.SendLogConserved | Program3/libcpe464/PacketManager.cpp:111-127 | With a drop list in front of the logger, over any number of sends: history is the unlisted sends in order, history plus listed equals sends, listed sends reach no wire, counts are multiplicities (32-bit counters wrap). |
| PacketManager.ErrorDrop.SetDropSpecific | Program3/libcpe464/MsgEvents/errorDrop.cpp:20-26 | Switches from dropping everything to dropping exactly the listed message numbers. |
| PacketManager.ErrorDrop.Run | Program3/libcpe464/MsgEvents/errorDrop.cpp:28-62 | Drops exactly when told to drop all or when the message number is listed. |
| PacketManager.ErrorFlipBits.Run | Program3/libcpe464/MsgEvents/errorFlipBits.cpp:9-27 | Complements the chosen byte in place and no other. |
| PacketManager.InfoSeqNo.Run | Program3/libcpe464/MsgEvents/infoSeqNo.cpp:19-38 | Appends the sequence number to the history and keeps the count map equal to its multiplicities. |
| PacketManager.PacketManager.RunMsgEvents | Program3/libcpe464/PacketManager.cpp:100-130 | Runs the events in order on the shared buffer until one drops, updating only those events that ran. |
| PacketManager.PacketManager.ProcessEvents | Program3/libcpe464/PacketManager.cpp:132-189 | Standard events, then at most one random event, which runs even after a drop; a drop by either wins; otherwise the code tells of the random event alone, if one ran. |
| PacketManager.PacketManager.SendtoErr | Program3/libcpe464/PacketManager.cpp:320-382 | Events work on a private copy: the caller's buffer is not modified, the wire carries the copy unless dropped. A dropped send is reported as complete, any other as the network reports it. |
| Windowing.Window.AddPdu | Program3/windowing.c:42-59 | Stores the entry in slot seqNum % windowsize and changes no other slot. |
| Windowing.Window.FindPdu | Lab7_Windowing/windowing.c:64-68 | Returns the slot the number maps to. |
| Windowing.Window.IsWindowEmpty | Program3/windowing.c:76-84 | True exactly when every slot is NULL. |
| Windowing.Window.ProcessRR | Lab7_Windowing/windowing.c:70-89 | NULLs exactly the entries below the RR, compared unsigned, and slides the edges; needs every slot to hold an entry. |
| Windowing.Window.ProcessRRGuarded | Program3/windowing.c:93-112 | The same with the NULL test first. |
| Windowing.Window.WindowStatus | Lab7_Windowing/windowing.c:91-96 | Open exactly when current is below the upper edge. |
| Windowing.ModInjective | Lab7_Windowing/windowing.c:30-39 | Sequence numbers less than a window apart never share a slot. |
| Windowing.OwnerSlot | Lab7_Windowing/windowing.c:30-39 | Every slot is the home of some number in any interval of window length. |
| WindowDriver.FillTracks | Lab7_Windowing/windowing_test.c:62-68 | Adding keeps the slots exactly the live numbers, each in its own slot. |
| WindowDriver.AcknowledgeTracks | Lab7_Windowing/windowing.c:70-89 | So does an RR of any value, negative ones included, that leaves the upper edge within an int. |
| WindowDriver.AcknowledgeWraps | Lab7_Windowing/windowing.c:84-88 | An RR that makes the upper edge of a closed window wrap leaves it closed, with the entry at its lower edge gone. |
| WindowDriver.ClosedIsFull | Lab7_Windowing/windowing_test.c:70-80 | A closed window has an entry in every slot, number s in slot s % W for all s in [lower, upper). |
| WindowDriver.FindRefines | Lab7_Windowing/windowing.c:64-68 | findPDU yields the entry of s exactly when s is in the map. |
| WindowDriver.FillRefines | Lab7_Windowing/windowing.c:19-40 | Adding is a map update, and evicts the oldest entry exactly when a whole window lies above the floor. |
| WindowDriver.NoUnacknowledgedOverwritten | Lab7_Windowing/windowing.c:19-40 | While no RR has passed current, adding never overwrites an entry. |
| WindowDriver.AcknowledgeRefines | Lab7_Windowing/windowing.c:70-89 | An RR that leaves the upper edge within an int removes exactly the entries below it from the map. |
| WindowDriver.CrashesIff | Lab7_Windowing/windowing_test.c:59-82 | Over every run the driver reads a slot without an entry exactly when an earlier turn took an RR on a closed window that is negative or above INT_MAX - W, where the upper edge wraps. |
| WindowDriver.ClosedHoldsWindow | Lab7_Windowing/windowing_test.c:59-82 | Over every run without such an RR, even beyond current, whenever the window is closed slot s % W holds s for all s in [lower, upper). |
| WindowDriver.DisciplinedRun | Lab7_Windowing/windowing_test.c:59-82 | Over every run whose RRs lie between 0 and current, the slots hold exactly [lower, current). |
| WindowDriver.CreatePdu | Lab7_Windowing/pdu.c:3-25 | Builds the same packet format as the transfer programs. |
| WindowDriver.Driver.constructor | Lab7_Windowing/windowing.c:4-17 | A new driver has an empty window whose slots are as the allocator left them. |
| WindowDriver.Driver.AddPduToWinBuff | Lab7_Windowing/windowing.c:19-40 | The number stored is the one read back from the packet's first four bytes. |
| WindowDriver.Driver.Iterate | Lab7_Windowing/windowing_test.c:59-82 | One turn of the loop is one turn of the model for every int RR, and keeps the window healthy unless that RR is a fatal one. |
| WindowDriver.StoredBytesAreNewest | Lab7_Windowing/windowing.c:33-39 | The bytes behind a stored entry carry the entry's own number exactly when it is the newest. |
| Rcopy.Client.HearFilenameAnswer | Program3/rcopy.c:139-168 | Any sound frame but FNAME_BAD is taken for a yes, a damaged one restarts, silence is counted. |
| Rcopy.Client.RecvDataStep | Program3/rcopy.c:185-263 | One call of recv_data: state, window, output and reply for every kind of datagram. |
| Rcopy.Client.TurnStep | Program3/rcopy.c:76-100 | One turn of the client's loop from FILENAME on. |
| Rcopy.Client.DeliverBuffered | Program3/rcopy.c:229-236 | Delivers the buffered entries below the number, in slot order. |
| Rcopy.DeliversBelow | Program3/rcopy.c:229-236 | That loop writes every entry below the number, in slot order, and counts each once. |
| Rcopy.FrameKeepsPrefix | Program3/rcopy.c:208-253 | After any genuine frame the output is the chunks below the expected number and everything buffered lies above it. |
| Rcopy.FrameNeverRetracts | Program3/rcopy.c:216-253 | The output only grows, and not at all once something is buffered. |
| Rcopy.ReceiverSafety | Program3/rcopy.c:185-263 | For any order, duplication, loss and corruption of genuine frames the output is a prefix of the chunks, and never changes while something is buffered. |
| Receiver.EarlyFrameKept | Program3/rcopy.c:248-253 | Every sound frame numbered above the expected one is in its slot afterwards, with number, length and payload, and nothing else has changed. |
| Receiver.WindowOnlyFills | Program3/rcopy.c:227-253 | In any state, nothing is ever taken out of the window: a slot keeps what it holds unless an early frame comes for it. |
| Receiver.ReceiveRefines | Program3/rcopy.c:185-263 | Each call of recv_data is a step of the plain receiver: state, slots, and the answer's flag, number and payload, or that there is none. |
| Receiver.RunRefines | Program3/rcopy.c:76-100 | So is every run of the RECV_DATA loop, for any datagrams. |
| Receiver.GapFreezes | Program3/rcopy.c:227-253 | Once a frame comes early, the output is what it was before it for ever, whatever follows. |
| Handshake.AnswerIff | Program3/rcopy.c:150-167 | The next state is FILE_OK exactly for a sound frame other than FNAME_BAD, DONE exactly for a sound FNAME_BAD or when the tries are used up, and START otherwise. |
| Handshake.BothLearn | Program3/server.c:159-171 | Over the network, the client learns whether the server could open the file exactly when the answer arrives undamaged; its output file is not touched, and the server goes on exactly if it could. |
| Handshake.RefusedNeverOpens | Program3/rcopy.c:156-160 | A client that hears of a missing file is done for good, whatever follows, and never opens its output file. |
| Handshake.AcceptedReceives | Program3/rcopy.c:170-183 | A client that hears FNAME_OK starts to receive into an empty file, or is done if it cannot open it. |
| Server.Process.FilenameStep | Program3/server.c:159-171 | Answers FNAME_OK and goes on to send, or FNAME_BAD and stops. |
| Server.Process.SendDataStep | Program3/server.c:174-202 | Sends the next chunk under the next number, or END_OF_FILE when a read returns nothing, or stops on a read error. |
| Server.Process.WaitOnAckStep | Program3/server.c:204-242 | RR and SREJ move on whatever their number, damage waits again, anything else stops. |
| Server.Process.WaitOnEofAckStep | Program3/server.c:244-275 | With tries left it waits; without, it ends up in a blocking receive. |
| Server.Process.TimeoutStep | Program3/server.c:277-287 | Offers the unchanged packet again and returns to waiting. |
| ServerRun.GoDecreases | Program3/server.c:105-137 | Every turn lowers (events to come, stage, tries left, rank), so every run stops. |
| ServerRun.HangsIff | Program3/server.c:105-137 | From the inputs alone: a run ends in DONE, except that it hangs in recvfrom exactly when the file can be opened and read to its end, exactly as many sound frames arrive as it has chunks, all RR or SREJ, and none after MAX_TRIES silences in a row. |
| ServerRun.EnduresIff | Program3/server.c:204-242 | Event by event: the acknowledgements that the transfer needs come in time, and nothing sound after them, exactly when the sound frames are counted right, all RR or SREJ, and none follows MAX_TRIES silences in a row. |
| ServerRun.RetransmissionBound | Program3/srej.c:98-127 | At most MAX_TRIES retransmissions for every datagram that arrives plus MAX_TRIES, each repeating the bytes of the packet before it. |
| ServerRun.RetransmissionsExactly | Program3/srej.c:98-127 | From the inputs alone, exactly how many retransmissions a run makes: every silence within its tries is one, and any datagram, damaged ones included, starts the count of tries again. |
| ServerRun.SilentPeer | Program3/server.c:141-287 | Against silence: FNAME_BAD alone if the file cannot be opened; else the answer, the first packet, exactly MAX_TRIES repetitions; then DONE if it was data, a hang if it was END_OF_FILE. |
| ServerRun.ProcessClient | Program3/server.c:95-139 | The loop performs exactly the run that the results above are about, and terminates. |
| Session.LibraryHasFate | Program3/libcpe464/PacketManager.cpp:320-382 | The network's fates (lost, intact, one byte complemented) cover whatever the library does to a send. |
| Session.FateHasDice | Program3/libcpe464/network-hooks.c:181-194 | Conversely, the library as sendErr_init sets it up can cause every fate. |
| Session.TransmitCases | Program3/libcpe464/PacketManager.cpp:350-379 | A sound packet arrives as itself, as a checksum error, or not at all. |
| Session.ChunksMakeFile | Program3/server.c:181-198 | The chunks that successive reads return make up the file. |
| Session.ResendBase | Program3/server.c:228-233 | Whatever packet sent before the window hands out for an SREJ, what arrives of it is still a genuine packet of the file or damaged. |
| Session.SendNextOk | Program3/server.c:174-202 | Sending keeps the server's number, its unread rest and its packet in step with the file. |
| Session.BaseKept | Program3/server.c:105-137 | Every step of either program or the network (loss, corruption, reordering, duplication), whatever an SREJ resends of the packets sent before, keeps sender, receiver and packets consistent with the file. |
| Delivery.QuietLinkKept | Program3/server.c:204-242 | With a quiet timer and packets in order and not duplicated every step keeps: the client's expected number is s-1 or s while waiting, s whenever an RR is in flight or the server is about to send; at most one packet is in flight beside FNAME_OK. |
| Delivery.OneLinkKept | Program3/server.c:204-242 | With one chunk and any timer every step keeps: an RR or END_OF_FILE follows only after the chunk was delivered. |
| Delivery.OutputIsPrefix | Program3/rcopy.c:201-226 | In every reachable state, whatever the timer does and whether packets are lost, damaged, reordered or duplicated, the output is exactly the chunks below the expected number, a prefix of the file, and no counter wraps. |
| Delivery.NeverBuffers | Program3/rcopy.c:227-253 | With a quiet timer and packets in order and not duplicated the SREJ and non-empty-window branches are never taken. |
| Delivery.CanDeliver | Program3/rcopy.c:208-226 | Under every policy some run delivers the whole file and leaves both sides done. |
| Delivery.HastyTimerLosesChunk | Program3/server.c:204-242 | For every file of two or more chunks, a timer that may fire early admits a run that finishes without the last chunk. |
| Delivery.OvertakingLosesChunk | Program3/rcopy.c:139-168 | For every non-empty file, reordering the answer and chunk 1 admits a run that finishes without chunk 1. For two or more chunks that run goes through SREJs for which the server's window hands out nothing. |
| Delivery.EchoLosesFile | Program3/rcopy.c:240-245 | For every non-empty file, a network that may duplicate FNAME_OK admits a run, without SREJ and in order, that finishes with an empty file. |
| Delivery.DependableDelivers | Program3/rcopy.c:208-226 | Under the stated conditions every run that finishes through END_OF_FILE leaves the whole file at the client. |
| Delivery.DeliversIff | Program3/rcopy.c:208-226 | The exact condition, over all policies and files: empty file, or packets in order and not duplicated and either a quiet timer or one chunk. |
| Recovery.CanStillFinish | Program3/srej.c:98-127 | From every reachable state with the client in the session and tries enough for its phase and the server's, the whole file can still be delivered, whatever is in flight. |
| Recovery.DoomedKept | Program3/srej.c:98-127 | With too few tries left, every step of either program or the network keeps it that way, and END_OF_FILE never gets to a client that could take it. |
| Recovery.CanFinishIff | Program3/srej.c:98-127 | With nothing in flight, the whole file can still be delivered if and only if the tries are enough. |
| Recovery.FreshCanFinish | Program3/server.c:159-171 | A session that has just begun can be completed, whatever became of FNAME_OK. |
| AppPdu.SendPdu | Program2_new/appPDU.c:48-72 | Appends length and data to the stream; reports 0 when the framed length is a multiple of 256. |
| AppPdu.RecvPdu | Program2_new/appPDU.c:10-46 | Takes exactly one framed message off the stream, or reports its end, or refuses its length. |
| AppPdu.ReadsFramed | Program2_new/appPDU.c:10-46 | A framed message comes off the front of any stream exactly as written and reading goes on with exactly the rest, unless its length is refused or is 0. |
| AppPdu.FramingRoundTrip | Program2_new/appPDU.c:10-72 | Reading the written bytes until 0, a reader that sees nothing but bytes finds exactly the messages, with nothing left over, if and only if none is empty and each fits the buffer. |
| AppPdu.ReadsWritten | Program2_new/appPDU.c:10-72 | Of any list written, exactly the messages in front of the first empty or oversized one are read; an oversized one ends the program and stays on the stream, an empty one is taken for the end of the connection. |
| AppPdu.ReadsCut | Program2_new/appPDU.c:37-45 | A message cut off by the end of the stream is returned as far as it came, behind all complete ones. |
| AppPdu.ReadMessages | Program2_new/myServer.c:119-140 | The receiving loop performs exactly that reading, on any stream whose length fields are sound. |
| ChatPackets.GetIndexForMessage | Program2_new/packets.c:22-33 | Returns the position behind the n-th space. |
| ChatPackets.WordStops | Program2_new/packets.c:74-77 | A word reaches as far as there is neither space nor NUL. |
| ChatPackets.TextIndexAgrees | Program2_new/packets.c:74-91 | Given n words each followed by a space, counting spaces and tokenizing find the same text exactly when no space is doubled. |
| ChatPackets.AddHandles | Program2_new/packets.c:74-85 | The strtok_r loop puts a length byte and the name for each of the first n words at an index that wraps at 256, and counts their full length. |
| ChatPackets.MessagePackets | Program2_new/packets.c:35-98 | What is sent for any line, 8-bit length and index wrapping as they do, as a function of line, sender and what the packet's memory held before. |
| ChatPackets.ComposedInReach | Program2_new/packets.c:65-93 | While the last write begins within the first 256 bytes, what is sent is flag, sender, handle count, length-prefixed names and text, whatever the memory held. |
| ChatPackets.LastByteUnwritten | Program2_new/packets.c:65-93 | Otherwise the last byte sent is one that was never written. |
| ChatPackets.WrapLosesText | Program2_new/packets.c:90-93 | Where the index has wrapped into the sender's name, the parser finds that name overwritten by the text, and old memory in place of the text. |
| ChatPackets.ReceivePacketFive | Program2_new/packets.c:214-250 | Parses sender, names in order and text of any packet whose lengths stay within it. |
| ChatPackets.MessageRoundTrip | Program2_new/packets.c:214-250 | Parsing what the format describes gives back sender, names in order and text. |
| ChatPackets.ParsedIsPacket | Program2_new/packets.c:214-250 | Conversely, only the format's own packet, up to its flag byte, parses to given parts. |
| ChatPackets.CommandRoundTrip | Program2_new/packets.c:35-98 | From typed line to parsed packet: sender, handles in order and text come back, whatever the memory held, if and only if the part behind "%M n " is at most 255 bytes and the last write begins at an index of at most 255. |
| ChatLines.ParsedTextIs | Program2_new/packets.c:87-93 | For a line of any spacing whose announced words are there, the parsed text is what follows the first n spaces of the line, doubled ones counted. |
| ChatLines.TextComesBackIff | Program2_new/packets.c:74-93 | Through surplus spaces in front of the handles, sender and handles come back; the text does exactly when no space is doubled. |
| TcpChecksum.VerifyTcpChecksum | Program1_Trace/trace.c:68-102 | Reports Correct exactly when pseudo-header and segment verify in network byte order, as section 3.1 of RFC 793 asks. |
| TcpChecksum.FindsParts | Program1_Trace/trace.c:74-92 | In every frame put together from Ethernet header, IP header with options, segment and padding, the program finds source, destination, zero, protocol and segment length, and the segment. |
| TcpChecksum.FrameIsVerified | Program1_Trace/trace.c:68-99 | Such a frame is reported as correct if its segment was filled as RFC 793 says. |
| TcpChecksum.PacketWordChange | Program1_Trace/trace.c:68-99 | Any packet reported as correct: with an aligned word of its segment changed, it is still reported so exactly when the words are equal or are the two zeros. |
| TcpChecksum.SenderIsVerified | Program1_Trace/trace.c:86-99 | A segment whose checksum field was filled as RFC 793 says is reported as correct. |
| TcpChecksum.WordChangeVerified | Program1_Trace/trace.c:94-99 | A changed aligned word of a verified segment is still reported as correct exactly when the words are equal or are the two zeros and not everything is zero. |

## Left out

- Sockets, `fork`, DNS, pcap reading, printing, signals and opening of files: input and output. A wait is an event or silence; a file is its bytes, read in chunks of the buffer size; opening or reading may fail.
- The server's window: `filename` assigns it to a by-value parameter, so `process_client` keeps a NULL pointer and every window call in it would dereference NULL. What an SREJ resends is therefore a parameter: in `Session`, nothing or any packet sent before. With a window that worked the source would resend something else: `send_data` stores a pointer to its payload buffer, so the bytes sent would have no header, and the buffer is no longer alive.
- Session.ResendBase: is about such a packet, not about headerless payload bytes.
- Server.Process.SendDataStep: leaves out the window insertion, a call on that NULL pointer.
- Server.Process.WaitOnAckStep: leaves out process_RR and the window lookup and removal, calls on that NULL pointer; the bytes an SREJ resends are part of the event.
- Parsing of the FNAME request: it indexes the wrong variable for the window size. `Session` starts when the server has answered FNAME_OK, and a client that goes back to START_STATE leaves it.
- Rcopy.Client.RecvDataStep: the slot array is taken to start out NULL, and its slots are tested for NULL before they are read; the source does neither. A stored chunk is a copy of the bytes, where the source keeps a pointer to a dead stack buffer; `Rcopy.FrameNeverRetracts` shows that no such entry is ever written out.
- Rcopy.Client.DeliverBuffered: the NULL test comes first, as the second half of the source's condition intends.
- Windowing.Window.ProcessRRGuarded: the NULL test comes first; without it the source crashes on a NULL slot.
- Datagrams shorter than a header: every sender here goes through send_buf. `Srej.RetrieveHeader` still covers them.
- Rcopy.ReceiverSafety: the expected number is an unbounded integer; `Delivery.OutputIsPrefix` bounds it by the chunk count plus one, which has to stay below 2^31.
- Delivery.OvertakingLosesChunk: where an SREJ hands out a packet after all, this run is a different one; `Delivery.DeliversIff` quantifies over both kinds.
- WindowDriver.CrashesIff: the upper edge wraps as two's complement does, which C leaves undefined; run length and RRs are bounded by the largest int, so no other int overflows.
- WindowDriver.DisciplinedRun: run length plus window size stay within an int, so that no RR up to current can wrap the upper edge.
- PacketManager.PacketManager.SendtoErr: the error rate and the seeds are choices of the caller.
- AppPdu.SendPdu: a message is at most 65533 bytes, beyond which the source writes past its buffer.
- AppPdu.RecvPdu: a length field below 2, or a single byte at the end of the stream, is a precondition; the source reads stale bytes there. `AppPdu.ReadStream` stops before such bytes.
- AppPdu.ReadMessages: the comparison of the buffer with "exit" and the echo are not modelled.
- ChatPackets.GetIndexForMessage: the buffer has to hold as many spaces as are counted; the source runs past its end.
- ChatPackets.MessagePackets: the line has to hold as many spaces as it announces handles, for the same reason; strtok_r is a function on the line rather than an in-place change of the copy. The source calls it once more after the last handle, on a copy that holds no NUL when the 8-bit length cuts the line or the text has none, and then reads past that copy; the model's search ends with the line.
- ChatPackets.ReceivePacketFive: lengths that point past the packet are a precondition; the source reads beyond its buffer. For every handle the source also writes a NUL one byte past the array that holds it, which is not modelled.
- TcpChecksum.VerifyTcpChecksum: the capture has to hold the whole segment, and TCP length plus 12 has to fit 16 bits; the source reads or writes past its buffers otherwise.
- HandleNode lookup does not advance on a match, and the IP header check of `trace.c` sums from the Ethernet header: no theorem to state.
- The other copies of the library and of the window and framing code (Lab7_SendToErr, lab3): same code or weaker variants.
