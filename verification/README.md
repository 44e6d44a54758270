# Verified model of a PIO USB host stack

This project models the protocol core of a full-speed USB host that runs on the RP2040's programmable I/O, and proves
what that core is for. Two halves fit together.

**The wire layer.** A packet's bytes become NRZI line states with stuffed bits (sections 7.1.8 and 7.1.9 of USB 2.0).
The transmit and receive programs are instruction sequences for an interpreter of the PIO instructions they use; the
transmit program drives exactly the encoding, the receive program recovers exactly the bytes. Packets carry CRC-5 and
CRC-16 (section 8.3.5); the table-driven CRC, the residue and burst detection are proved over all states and strings.
An IN data packet is judged while its bytes arrive, and an acknowledgement is loaded before the packet has ended; both
are proved to agree with the plain parser.

**The transfer layer.** Pipes alternate DATA0 and DATA1 and retry (section 8.6). The host's pipe, a conforming device
and a wire that may lose or damage anything are composed, and exactly-once in-order delivery is proved over all runs,
with the exact condition under which it fails. What each arrival and each handshake gives is stated by its bytes.
Control transfers (section 8.5.3) record every transaction on a bus, and the whole log is proved; packetisation, the
shared port state with its generations, engine lock and cancellation, the runs of its tasks under any interleaving, and
the two-slot event mailbox complete the layer.

Four class-level cores sit above: CDC-ACM discovery over length-prefixed descriptors, USBTMC responses over several
packets, AT and scan responses down to the fields of a device line and what the cuts of a stream do to them, and FTDI
serial streams and baud divisors.

## How it is modelled

* Bytes are 8-bit vectors, bits of a byte string are sequences of booleans, least significant first. Counters that the
  program keeps in 32 bits wrap explicitly; other sizes are natural numbers with the program's bounds.
* Objects whose methods update fields are classes; each method is proved against a function of the old state. The
  loops of the program are loops here.
* FIFO contents, interrupt flags, deadlines, validity checks and dropped futures are inputs: scripts of what each poll
  or attempt observes. A script that runs out is a future that is dropped.
* Asynchronous code is cut into atomic steps at its suspension points and, for the port state that interrupts share,
  between its critical sections.
* In `TxSymbol`, `K` is sent for line state J and `J` for line state K, because the names are instruction addresses.

Where the code and its comments disagree the code is followed: on the full-speed fast path the comment promises a last
FIFO drain before the acknowledgement is released, the code releases it on the bytes drained so far
(`src/pio_host/rp2040.rs:2162-2180`). `InReceive.FastPathIsGuardedIff` says that this makes a difference exactly when a
byte waits in the FIFO as the fast path ends or an error is raised after its own test, `InReceive.FastPathIgnoresLateByte`
shows one such run, and `TransferIn.ExactlyOnceFromTheWire` carries the empty FIFO as its condition.

Properties that are false of the code without a condition, each with a concrete run and the exact condition:

* The fast path hears the whole packet (`InReceive.FastPathIgnoresLateByte`; exactly when nothing is left undrained:
  `InReceive.FastPathIsGuardedIff`, `InReceive.WholePacketIff`, `TransferIn.HonestIff`).
* OUT delivery after an abandoned packet (`TransferOut.AbandonedPacketSwallowsTheNext`). `TransferOut.KeepsOrderIff`
  gives the condition in terms of what the host sends and hears: each acknowledged packet must equal every packet sent
  since the acknowledgement before that no handshake denies. Two wires are covered: one on which any handshake but an
  acknowledgement may be mistaken for another, and one on which a NAK and a STALL are believed.
* IN delivery when the transmitter does not confirm its own acknowledgement (`TransferIn.UnconfirmedAckLosesData`,
  `TransferIn.ExactlyOnceIn`). `TransferIn.KeepsPrefixIff` gives the condition in terms of what the host hears: the next
  data packet after each one dropped unconfirmed carries the same identifier, because then the device sends it again.
* What a command consumes of its response does not depend on how the stream is cut, and neither does what stays buffered.
  A parser's error gives the failing piece back whole: `ResponseCuts.SixtyFiveLettersOverflow` cuts 65 letters in two
  ways, of which one consumes nothing and the other 64 bytes. `ResponseCuts.AtConsumesTheSameIff` and
  `ResponseCuts.ScanConsumesTheSameIff` say that it holds exactly when the response does not overflow and the scan does not
  fail; the verdict itself never depends on the cut. A consequence is a client that no longer makes progress, exactly
  when what it has buffered overflows on its own (`ResponseCuts.StuckIff`, `ResponseCuts.AtStuckIff`,
  `ResponseCuts.OverflowSticks`).
* Reading into a buffer of exactly the transfer's size leaves a terminating empty packet on the pipe
  (`Packetise.ReassemblyInvertsPackets`).
* Baud rates: the accepted set is stated exactly (`FtdiBaud.AcceptedIff`). Channel number 256 overwrites a bit of the
  divisor; `FtdiBaud.DivisorIsRecoverableIff` and `FtdiBaud.SameRequestIff` say for which divisors that matters, and
  `FtdiBaud.Channel256LosesABit` shows two rates that are sent alike.
* USBTMC over packets too small for the header (`Usbtmc.SmallPacketsAreRefused`).

## Model

| member | source | states |
|---|---|---|
| Crc.MakeCrc16Table | src/pio_host/rp2040.rs:161-179 | the table built by the nested loops is the CRC table: entry i is the register after eight shifts of i |
| Crc.TableStepIsByteStep | src/pio_host/rp2040.rs:1946-1949 | for every register state and byte, the table step equals eight bitwise steps |
| Crc.ResidueIffCrc | src/usb.rs:2032-2047 | a payload followed by two bytes leaves the residue 0xb001 exactly when those bytes are its CRC, low byte first |
| Crc.RegisterIsBitwise | src/usb.rs:2032-2047 | byte by byte or bit by bit, least significant first, the register is the same |
| Crc.Shift8Injective | src/usb.rs:2032-2047 | eight shifts lose no information: different registers stay different |
| Crc.BurstIsDetected | src/usb.rs:2032-2047 | two different strings that differ only within 16 consecutive bits never have the same register |
| Crc.Crc16Data | src/usb.rs:2032-2047 | the loops compute the specified CRC-16 |
| Crc.Crc5Token | src/usb.rs:2013-2029 | the loop computes the specified CRC-5 over the 11 token bits; the next row says what code that is |
| Crc.Residue5IffCrc | src/usb.rs:2013-2029 | run over the eleven token bits and then five code bits, least significant first, the register ends at the residue 0x06 of section 8.3.5.1 exactly when the code is the token's CRC |
| Crc.ZeroToken | src/usb.rs:2161-2164 | the token of address 0 and endpoint 0 has the code 0x02 |
| Crc.SmallDamageShows | src/usb.rs:2013-2029 | one or two damaged bits of a token and its code, or any damage within five consecutive bits, leave a remainder that the code does not explain |
| Crc.SmallDamages | src/usb.rs:2013-2029 | among that damage are any one or two bits, and any pattern of five bits at any place |
| Packets.ParseIffDataBytes | src/usb.rs:1807-1879 | parsing yields data (pid, payload) exactly for the bytes that building gives, and for no others |
| Packets.DataPacketRoundTrip | src/usb.rs:1807-1879 | a data packet is built exactly for a DATA identifier and a payload within the bound, fits the packet buffer, and parses to what it was built from; every data packet within the bound is a built one |
| Packets.ParseIffTokenBytes | src/usb.rs:1835-1864 | parsing yields a token exactly for the four bytes built from its identifier and 11-bit value |
| Packets.TokenRoundTrip | src/usb.rs:1996-2005 | the four bytes of a token are SYNC, the identifier, and a field from which a device reads address and endpoint unchanged |
| Packets.IdentifierCodes | src/usb.rs:6-33 | the identifiers that parse as tokens, data and handshakes, by the codes of section 8.3.1, and which bytes are identifiers at all |
| Packets.ParseErrors | src/usb.rs:1835-1879 | each error of the parser but those of the CRCs, by the bytes that cause it and no others |
| Packets.DamagedTokenIsRejected | src/usb.rs:1835-1864 | a token with one or two damaged bits after its identifier, or damaged within five consecutive bits, is rejected with the CRC error |
| Packets.DataIffResidue | src/usb.rs:1865-1876 | a framed data packet is accepted exactly when payload and CRC leave the residue; otherwise the error is the CRC's |
| Packets.DamagedDataIsRejected | src/usb.rs:1835-1879 | a valid data packet damaged within 16 consecutive bits after its identifier is rejected with the CRC error |
| Packets.TwoDamagedBytesAreRejected | src/usb.rs:1835-1879 | any same-length packet that differs only within two adjacent payload or CRC bytes is rejected |
| Nrzi.DecodeNrzi | src/usb.rs:1661-1705 | the byte-assembling loop returns exactly what the bit-level decoder returns, errors included |
| Nrzi.DecodeEncode | src/usb.rs:1661-1705 | decoding the encoding of any bits returns the bits |
| Nrzi.DecodeIff | src/usb.rs:1661-1705 | a line is accepted with these bytes exactly when they fit and it is their encoding, up to one omitted trailing stuffed bit |
| Nrzi.RoundTrip | src/usb.rs:1895-1935 | decoding the encoded line of any packet within the decoder's capacity gives back its bytes |
| Nrzi.EncodedLineHasTransitions | src/usb.rs:1904-1935 | from the idle level on, no encoded line holds one level for eight states: seven ones in a row never appear |
| TxBuffer.EncodedPacket.Push | src/usb.rs:1948-1957 | a command is appended to the packed bytes, or the full buffer is left as it was |
| TxBuffer.EncodePacket | src/usb.rs:1895-1946 | succeeds exactly when the line and its two end commands fit 192 commands, and then holds exactly the packet's commands, padded |
| TxBuffer.TwentyBytesFit | src/usb.rs:1895-1957 | every packet of at most 20 raw bytes fits the 48-byte buffer |
| TxBuffer.PackedCommands | src/usb.rs:1948-1957 | two bits at a time from the top, the packed bytes yield the codes of the commands in order, 0 to 3 for SE0, K, release and J |
| Pio.RegisterBits | src/pio_host/rp2040.rs:475-500 | the interpreter's registers by their bits: where a sampled bit is shifted in, what a pin reads as, and the 32-bit complement |
| TxProgram.TransmitsPacket | src/pio_host/rp2040.rs:425-465 | run on any byte string, the program drives its stuffed NRZI encoding at four cycles a bit, two bit times of SE0, one of J, and parks |
| RxProgram.ReceivesPacket | src/pio_host/rp2040.rs:475-500 | on every line the batch decoder accepts, the program pushes exactly the decoded bytes |
| RxProgram.TransmitThenReceive | src/pio_host/rp2040.rs:425-500 | transmit program, sampling, receive program: the identity on byte strings within the decoder's capacity |
| InReceive.StreamMeaning | src/pio_host/rp2040.rs:1975-2024 | after any bytes, the running flag says acknowledge exactly when the parser yields data that is not rejected; the toggle flag tells new from duplicate |
| InReceive.Receiver.Drain | src/pio_host/rp2040.rs:1975-2024 | draining any FIFO contents leaves the validator in the state of all bytes drained so far, however they were split |
| InReceive.Receiver.DrainTerminal | src/pio_host/rp2040.rs:2027-2050 | the shortened drain after the end of packet reaches the same state |
| InReceive.PollPacket | src/pio_host/rp2040.rs:2161-2278 | for every sequence of polls the loop ends as the polls say, with the bytes drained by then; the ACK leaves at most once, only at the end of an acceptable packet; no other exit leaves it loaded |
| InReceive.Conclude | src/pio_host/rp2040.rs:2280-2323 | the result is the batch judgement of the drained bytes, or the transmitter failure on the ACK; an acceptable packet that ended is acknowledged, nothing else is, and no ACK stays loaded |
| InReceive.ReceiveDataPacket | src/pio_host/rp2040.rs:2125-2323 | the result is determined by polls and transmitter events as specified; the ACK is released exactly once for a packet that ended and is not rejected, never otherwise, and none stays loaded; the payload is the parsed one |
| InReceive.SilentIff | src/pio_host/rp2040.rs:2153-2278 | no response is reported exactly when within the poll budget there was no byte, no start of a packet, no end of packet and no error |
| InReceive.FastPathIgnoresLateByte | src/pio_host/rp2040.rs:2162-2180 | a run in which the fast path acknowledges the drained bytes although the whole packet is not acceptable; the guarded path does not; the general condition is the next row |
| InReceive.FastPathIsGuardedIff | src/pio_host/rp2040.rs:2162-2238 | for all polls whose flags stay raised, the fast path ends like the guarded one, on the same bytes, exactly when no byte waits in the FIFO as it ends and no decoder error was raised between its test and the general one; then result and ACK are the same |
| InReceive.WholePacketIff | src/pio_host/rp2040.rs:2161-2278 | for all polls whose flags stay raised, a reception that reached the end of packet drained a prefix of what the decoder pushed, and all of it exactly when nothing was left in the FIFO |
| InReceive.InOnce | src/pio_host/rp2040.rs:1110-1200 | the errors before the token in their order, those of the frame wait and of a receiver that does not park included, else a token for this address and endpoint and the outcome of the reception; no exit, transmitter errors included, leaves an ACK loaded, and the transmitter is restored exactly after a failure or where no ACK is sent |
| Packetise.PacketsAreExact | src/pio_host.rs:1057-1070 | the packets join to the data, all full but the last, which is empty exactly for empty data or a marked exact multiple |
| Packetise.CountIsExact | src/pio_host.rs:1057-1065 | the packet count computed in advance is the number of packets |
| Packetise.PacketByIndex | src/pio_host.rs:1067-1070 | the index arithmetic selects exactly the packets |
| Packetise.ReassemblyInvertsPackets | src/pio_host.rs:1021-1047 | one transfer taken off a stream that starts with the packets of some data is exactly that data, and stops at its end, but for a marker left by an exactly full buffer |
| TransferIn.AttemptIsReception | src/pio_host/rp2040.rs:1572-1651 | for every sequence of polls and transmitter events, the attempt of the transfer model has the outcome of the detailed reception |
| TransferIn.ArrivalDecides | src/pio_host/rp2040.rs:1572-1651 | one attempt by the bytes that arrive: silence alone is no response, `80 5a` and a confirmed duplicate are NAKs, `80 1e` is a stall, the awaited packet within the room is accepted once its ACK is confirmed, a transmitter that fails on token or ACK is a timeout, and everything else is a bad response |
| TransferIn.AckedIff | src/pio_host/rp2040.rs:2280-2323 | the ACK goes out exactly once for a whole data packet that fits, awaited or repeated, and never for anything else |
| TransferIn.RequestInOnce | src/pio_host/rp2040.rs:1572-1651 | the engine call with its receiver and transmitter: an IN token goes out exactly when nothing is refused before; the outcome is that of the attempt whose arrival is what was heard, the ACKs those of `TransferIn.AckedIff`; exactly an accepted packet is handed over and flips the toggle |
| TransferIn.HonestIff | src/pio_host/rp2040.rs:2161-2278 | if the wire carries genuine bytes, heard data is sent data when the FIFO is empty at the end of packet; for a data packet of which a prefix reads as data, only then |
| TransferIn.InStepKeeps | src/pio_host/rp2040.rs:1572-1651 | one attempt keeps the toggle count and the delivery order, or loses a packet for good, exactly when an acknowledged new packet is dropped |
| TransferIn.ExactlyOnceIn | src/pio_host.rs:918-978 | over every run: accepted packets are a prefix of those sent, at most one ahead of those acknowledged, if and only if no acknowledged new packet was dropped |
| TransferIn.KeepsPrefixIff | src/pio_host.rs:918-978 | every run that looks the same to the host, whatever tokens and ACKs arrived, delivered in order if and only if the next data packet heard after each one dropped unconfirmed has the same identifier; with the other identifier every such run has lost the packet |
| TransferIn.ExactlyOnceFromTheWire | src/pio_host.rs:918-978 | exactly-once delivery with the honest receiver replaced by genuine bytes on the wire and an empty FIFO at each end of packet |
| TransferIn.UnconfirmedAckLosesData | src/pio_host/rp2040.rs:2293-2301 | the run in which an unconfirmed ACK reaches the device loses the packet |
| TransferIn.InPipe.RequestInOnce | src/pio_host/rp2040.rs:1572-1651 | a packet is copied and the toggle flipped together, or neither; the outcome is that of the heard bytes (`TransferIn.RequestInOnce` has the receiver itself) |
| TransferIn.RequestByArrivals | src/pio_host.rs:918-978 | a whole request by what arrived: every attempt but the last was silent, a NAK or a confirmed duplicate, no 128 silent in a row; it stalls exactly when the last one heard `80 1e`, and times out exactly on the 128th silence in a row or a transmitter failure |
| TransferIn.InPipe.RequestInPacket | src/pio_host.rs:918-978 | the attempts are those of the script, each asking for a retry but the last, never 128 silent in a row; a heard STALL is the last attempt and the result; success delivers exactly one accepted packet, other endings none, but for one packet taken by a dropped or invalidated call |
| TransferIn.InPipe.Exchange | src/pio_host.rs:934-975 | one exchange is retried, delivered or failed exactly as validity, outcome and the count of silent attempts say |
| TransferIn.TransferGoesOn | src/pio_host.rs:1034-1046 | after one more packet a transfer goes on exactly when it is bulk, the packet was full and there is room; otherwise it is complete |
| TransferIn.InPipe.RequestIn | src/pio_host.rs:1021-1047 | every packet of the transfer was retried on its own script for the room left; a failure is that of the last attempt; success returns exactly the packets accepted meanwhile, and against a device that serves the packets of some data, on an honest run that lost nothing, exactly that data |
| TransferIn.BulkInIsExact | src/pio_host.rs:1021-1047 | a bulk read against a device sending the packets of some data returns exactly that data |
| TransferOut.OutStepKeeps | src/pio_host/rp2040.rs:1653-1686 | one attempt keeps toggles and order, and breaks the order exactly when a different packet is acknowledged in place of the outstanding one |
| TransferOut.ExactlyOnceOut | src/pio_host.rs:1049-1108 | over every run order is kept if and only if no acknowledged packet differs from the one the device then held; `TransferOut.KeepsOrderIff` says it without the device |
| TransferOut.KeepsOrderIff | src/pio_host.rs:1049-1108 | from any state in step: every run that looks the same to the host keeps order, whatever arrived and whatever the device answered, if and only if each acknowledged packet equals all packets sent since the last acknowledgement that no handshake denies |
| TransferOut.RetriesAreUnambiguous | src/pio_host.rs:1067-1102 | who abandons no packet meets that condition |
| TransferOut.RetriesResend | src/pio_host.rs:1067-1107 | in runs that abandon nothing the order holds, and an outstanding packet is the one being sent |
| TransferOut.AbandonedPacketSwallowsTheNext | src/pio_host.rs:1083-1098 | abandoning an unacknowledged packet makes the device discard its successor |
| OutReceive.ReceiveHandshake | src/pio_host/rp2040.rs:2415-2488 | the two polling phases end as the polls and deadlines say, and the result is the parser's on everything drained |
| OutReceive.ReceivedIff | src/pio_host/rp2040.rs:2415-2488 | a handshake is received exactly where it started in time, ended without error, and its two bytes are everything drained |
| OutReceive.HeardHandshakeWasSent | src/pio_host/rp2040.rs:2443-2488 | a handshake that is heard is byte for byte what the decoder pushed |
| OutReceive.DamagedHandshakeIsRefused | src/usb.rs:1835-1850 | a handshake with one damaged bit is never taken for a handshake |
| OutReceive.HandshakeDecides | src/pio_host/rp2040.rs:1091-1107 | one transaction by the bytes drained: `80 d2` acknowledges it, `80 5a` refuses it for now, `80 1e` is a stall, nothing at all until the deadline is no response, and everything else is a bad response |
| OutReceive.OutOnce | src/pio_host/rp2040.rs:1031-1107 | the errors before the transmission in their order, else the token for this address and endpoint and the data packet with this identifier and payload go out, and the result is the handshake's meaning |
| TransferOut.AttemptIsTransaction | src/pio_host/rp2040.rs:1653-1687 | for every sequence of polls, the attempt of the transfer model has the outcome of the detailed transaction |
| TransferOut.BytesDecide | src/pio_host/rp2040.rs:1653-1687 | one attempt by the bytes of its handshake: ACK completes it, NAK and silence ask for another one, STALL ends the request |
| TransferOut.RequestByHandshakes | src/pio_host.rs:1067-1102 | a whole request by its handshakes: every attempt but the last heard NAK or nothing, no 128 in a row nothing; it succeeds exactly on ACK, stalls exactly on STALL, and times out exactly on the 128th silence in a row or a transmitter failure |
| TransferOut.HonestFromTheWire | src/pio_host/rp2040.rs:2415-2488 | if handshakes on the wire are the device's, a heard ACK, NAK or STALL is the device's answer |
| TransferOut.PlausibleFromTheWire | src/pio_host.rs:1049-1108 | runs over such a wire are the plausible ones of `TransferOut.KeepsOrderIff`, with every handshake believed |
| TransferOut.OutPipe.SendPacket | src/pio_host.rs:1067-1102 | the attempts are those of the script, all with this packet, each asking for a retry but the last, with the same timeout rule; a heard STALL is the last attempt and the result; success is its acknowledgement |
| TransferOut.TriedSendsOnly | src/pio_host.rs:1072-1102 | the retry loop sends one packet only, and is acknowledged at most at its last attempt |
| TransferOut.OutPipe.RequestOut | src/pio_host.rs:1049-1108 | each packet of the data was sent on its own script until acknowledged, or the last attempt says why not; on an honest wire started in step success means that the device took exactly the data's packets |
| TransferOut.OutIsExact | src/pio_host.rs:1049-1108 | from a state in step, acknowledged packets are received packets, and the pair is in step again |
| ControlTransfer.ControlSetupStage | src/pio_host/rp2040.rs:971-1029 | ends exactly at an ACK, a stall, the third bad handshake, the sixteenth silence since a NAK, or the deadline, and every attempt before lets it go on; each attempt is SETUP with DATA0 and the eight bytes, and nothing else is asked of the engine |
| ControlTransfer.SetupByHandshakes | src/pio_host/rp2040.rs:971-1029 | the stage by its attempts, counted as sets: it goes on while fewer than 3 answers were bad and fewer than 16 attempts silent since the last NAK, and how each last attempt ends it |
| ControlTransfer.PollData | src/pio_host/rp2040.rs:1385-1411 | polls over NAKs, duplicates and silence until a packet, an error or the deadline, and returns what that poll says; a heard STALL is the last poll and the result; each poll is one IN transaction with this identifier and room |
| ControlTransfer.PollingByArrivals | src/pio_host/rp2040.rs:1385-1411 | a polling by what arrived: repeated over silence, `80 5a` and confirmed duplicates while time is left, it succeeds exactly on the awaited packet and with its payload, stalls exactly on `80 1e`, and times out exactly on the deadline or a transmitter failure |
| ControlTransfer.PolledPacket | src/pio_host/rp2040.rs:1385-1425 | a successful polling accepts exactly the packet it returns, loses none, and flips the toggle |
| ControlTransfer.ReadData | src/pio_host/rp2040.rs:1378-1429 | the data stage ends exactly at a short packet or at wLength, with the accepted packets in the buffer; a packet beyond wLength or a failed poll fails it; the engine is asked for exactly these polls |
| ControlTransfer.ReadLogAt | src/pio_host/rp2040.rs:1378-1429 | which IN transaction comes when: the j-th poll for the i-th packet expects DATA1 for even i, DATA0 for odd i |
| ControlTransfer.ReadIsExact | src/pio_host/rp2040.rs:1378-1429 | whoever took one transfer of at most wLength off a conforming response has the response |
| ControlTransfer.ControlIn | src/pio_host/rp2040.rs:1339-1464 | the result is that of the three stages on their scripts; on the bus are SETUP with DATA0, the polls, and an empty OUT/DATA1 packet that waits for a frame only when repeated, and nothing else; against a conforming device success returns exactly its response, whatever was retried; contract and size errors ask the engine for nothing |
| ControlTransfer.SendData | src/pio_host/rp2040.rs:1507-1534 | one packet is sent until acknowledged, refused or out of time, and the result says which; each attempt is one OUT transaction with this identifier and payload |
| ControlTransfer.SendingByHandshakes | src/pio_host/rp2040.rs:1507-1534 | a sending by its handshakes: repeated over NAK and silence while time is left, it succeeds exactly on ACK, stalls exactly on STALL, and times out exactly on the deadline or a transmitter failure |
| ControlTransfer.SentPacket | src/pio_host/rp2040.rs:1506-1535 | a successful sending acknowledges exactly this packet, abandons none, and flips the toggle |
| ControlTransfer.ChunksAreExact | src/pio_host/rp2040.rs:1506 | the packets of a data stage by their lengths: they join to the data, none is empty, all but the last are full, and there are none for no data and else (length + size - 1) / size |
| ControlTransfer.WriteData | src/pio_host/rp2040.rs:1504-1535 | exactly these packets are sent, each until acknowledged, or the last attempt says why not; without data nothing is sent and the stage succeeds |
| ControlTransfer.WriteLogAt | src/pio_host/rp2040.rs:1504-1535 | which OUT transaction comes when: the j-th attempt at the i-th packet carries that packet, with DATA1 for even i and DATA0 for odd i |
| ControlTransfer.WriteIsExact | src/pio_host/rp2040.rs:1504-1535 | after an acknowledged SETUP the device took exactly the packets written |
| ControlTransfer.StatusIsEmpty | src/pio_host/rp2040.rs:1537-1570 | the status stage accepts only an empty packet |
| ControlTransfer.ControlOut | src/pio_host/rp2040.rs:1466-1570 | the result is that of the three stages on their scripts; on the bus are SETUP with DATA0, the packets of the data, and IN transactions for an empty DATA1 packet, and nothing else, so that without data the status stage follows SETUP directly; on an honest wire success means that the device took exactly the data, in order and once |
| ControlTransfer.NoDataStage | src/pio_host/rp2040.rs:1504-1570 | on the bus, a write without data is its SETUP attempts and its status attempts, and nothing between them |
| HostState.PioHostState.FinishAttach | src/pio_host.rs:518-543 | an attachment is published, with its event and its wake-up, only if the generation is the one captured; a lost device is reported; the reset flag is cleared on every exit |
| HostState.PioHostState.ReportDisconnectedIfNotResetting | src/pio_host.rs:586-600 | while a reset is in progress every pipe keeps its validity and nothing is woken; otherwise it is a detach report with all its consequences |
| HostState.PioHostState.ReportDisconnected | src/pio_host.rs:571-578 | every pipe that was valid fails now and after any reattachment; a drain ends without a device; an undelivered overcurrent comes first; the consumer is woken |
| HostState.PioHostState.MarkBusReset | src/pio_host.rs:634-642 | a reset mark changes the reset generation alone, by one modulo 2^32, and spares exactly the address-zero pipes |
| HostState.NextKeeps | src/pio_host.rs:465-685 | every action of every task, critical section by critical section, keeps the generations numbered, the engine owned by at most one task, and the reset flag tied to a resetting owner |
| HostState.JournalIsGood | src/pio_host.rs:889-978 | over every interleaving: engine calls start only for current pipes, no reset falls into one, a successful call saw no connection change and, when addressed, no reset up to its last check after giving the engine back, and an attachment is published only if nothing changed since its reset call began |
| HostState.StalePipeIsInvalid | src/pio_host.rs:889-898 | a pipe of an earlier connection, or of an addressed device reset since, by the numbers of its generations, fails every check; an address-zero pipe of this connection passes; `HostRuns.PipeValidIff` says it by what happened |
| HostState.ResetsMoveUnderTheLock | src/pio_host.rs:510-543 | reset generations change only in steps of the task that alone holds the engine |
| HostState.ResetFlag | src/pio_host.rs:448-458 | the reset flag is set exactly while a resetter that raised it owns the engine; completion, error and cancellation clear it; a guarded detach meanwhile changes nothing |
| HostState.ResetSparesAddressZero | src/pio_host.rs:351-385 | a reset spares exactly the address-zero pipes; no pipe survives a detach or a reconnection |
| HostState.OneController | src/pio_host.rs:485-502 | over every run the first caller, and nobody else, gets the controller |
| HostState.MailboxFollowsThePort | src/pio_host.rs:510-610 | over every run mailbox, delivered events and port move together: the mailbox is that of the reports made, and the port is as the last report says |
| HostState.DrainingShowsThePort | src/pio_host.rs:387-428 | after every run, what was taken and what a drain still delivers end with a Connected of the port's speed exactly while the port that the validity checks read is connected |
| HostState.NextEventIsCurrent | src/pio_host.rs:401-427 | a Connected taken next carries the speed of a port connected now and comes after every detach reported before; a pending Overcurrent is what comes next |
| HostState.NoLostWakeup | src/pio_host.rs:567-669 | over every run a parked consumer with pending work has a wake-up set or in flight |
| HostRuns.TaskStep | src/pio_host.rs:465-685 | no task changes but in the listed ways: which action of which task, from what, and under which check or lock |
| HostRuns.ConnectionStep | src/pio_host.rs:361-385 | the connection generation changes exactly in steps that report the device gone or publish a connection |
| HostRuns.ResetStep | src/pio_host.rs:361-385 | the reset generation goes up by one, modulo 2^32, exactly when a task takes the engine to reset the bus or a connection is published |
| HostRuns.PipeValidIff | src/pio_host.rs:889-898 | after any interleaving a pipe is valid exactly when since its allocation nothing reported the device gone, no connection was published and, for an addressed device, no task took the engine to reset the bus, with fewer than 2^32 changes in between |
| HostRuns.ResetsAreMarked | src/pio_host.rs:510-519 | in every run a task that begins to drive a reset, for an attachment or for the controller, took the engine at an earlier step with a new reset generation, and has held it alone with that generation since |
| HostRuns.StaleAfterReset | src/pio_host.rs:671-685 | an addressed pipe older than a reset that was driven never passes a check again |
| HostRuns.EngineCallIsFresh | src/pio_host.rs:918-978 | in every run an engine call is for a pipe allocated before, and since its allocation nothing reported the device gone, no connection was published and, for an addressed device, no reset began |
| HostRuns.CallGoesThrough | src/pio_host.rs:918-978 | a valid call that finds the engine free gets it, gives it back, and returns its success |
| HostRuns.AttachBegins | src/pio_host.rs:510-519 | an attachment marks the reset and raises the flag, with the generation captured at its start, before it drives |
| HostRuns.AttachEnds | src/pio_host.rs:518-543 | from any state the end of an attachment leaves port, mailbox and flag as `HostState.PioHostState.FinishAttach` does, and frees the engine |
| HostRuns.ResetBegins | src/pio_host.rs:671-678 | a controller reset of a connected port marks the reset and raises the flag before it drives; without a device it changes nothing |
| HostRuns.ResetEnds | src/pio_host.rs:678-685 | from any state the end of a controller reset leaves the shared state as `HostState.PioHostState.FinishControllerReset` does, and frees the engine |
| HostRuns.FrameGoesThrough | src/pio_host.rs:546-565 | an idle frame is serviced exactly when the engine is free and a low- or full-speed device is connected |
| HostRuns.SignalsArePaid | src/pio_host.rs:567-610 | every report owes the consumer one signal, and every signal given pays one |
| HostRuns.CallLooks | src/pio_host.rs:660-669 | a consumer that calls gets the event that is due, or parks |
| HostRuns.Beginning | src/pio_host.rs:429-446 | in the beginning nothing is connected, nobody does anything and nothing is due |
| HostRuns.ParkedConsumerGetsItsEvent | src/pio_host.rs:660-669 | after any interleaving a parked consumer with an event due gets it once the signal owed is given |
| Mailbox.PushRefines | src/pio_host.rs:401-421 | pushing keeps the two slots the summary of the unbounded log |
| Mailbox.TakeRefines | src/pio_host.rs:423-427 | taking delivers one event that stands for a stretch of the log and leaves the summary of the rest |
| Mailbox.MailboxRefinesLog | src/pio_host.rs:387-428 | over every history the delivered events stand, in order, for consecutive stretches of everything pushed |
| Mailbox.DrainingShowsTheLog | src/pio_host.rs:387-428 | draining brings the consumer's view to what the last event ever pushed says |
| Mailbox.NextEvent | src/pio_host.rs:401-427 | a Connected to be taken is the last event pushed and comes after every detach before it; a pending Overcurrent is what comes next |
| Descriptors.FramesTile | src/usb.rs:718-744 | the yielded descriptors tile a prefix of the configuration, and the error says what is wrong with the length field that stops them |
| Descriptors.FramesUnique | src/usb.rs:718-744 | descriptors that carry their own lengths are cut apart in only one way, without error |
| Descriptors.DescriptorIter.Next | src/usb.rs:721-743 | each call yields the next descriptor, or the one error, or nothing for ever after |
| Descriptors.HeaderLayout | src/usb.rs:660-692 | a configuration header is read exactly from nine bytes of the layout of table 9-10 with a nonzero value and one of four attribute bytes |
| Descriptors.HeaderErrors | src/usb.rs:660-680 | otherwise the error is that of the first thing wrong |
| Descriptors.InterfaceLayout | src/usb.rs:836-855 | an interface descriptor is read exactly from nine bytes of the layout of table 9-12, and which ones are ACM control interfaces |
| Descriptors.EndpointLayout | src/usb.rs:768-788 | an endpoint descriptor is read exactly from seven bytes of the layout of table 9-13, with number 1 to 15 and packet size 1 to 2047 |
| Descriptors.EndpointKinds | src/usb.rs:790-802 | supported bulk endpoints have attribute 2 and a bulk packet size; supported notification endpoints are polled interrupt IN of at most 64 bytes |
| CdcAcm.WalkDescriptors | src/usb.rs:1311-1416 | walking the iterator gives the result of the pass over all descriptors, first error first |
| CdcAcm.PassIff | src/usb.rs:1314-1335 | a pass succeeds exactly when no alternate-zero descriptor of the interface is malformed or repeated and what belongs to it collects |
| CdcAcm.DataPassErrors | src/usb.rs:1499-1548 | a pass for a data interface fails at its first bad descriptor, with the error of an interface or of an endpoint, whichever that is |
| CdcAcm.DataAtIff | src/usb.rs:1492-1582 | a data interface is found exactly when it is the one CDC data interface with that number, declaring and having one bulk IN and one bulk OUT endpoint |
| CdcAcm.DataErrors | src/usb.rs:1553-1577 | an interface with well-formed bulk endpoints that is no data interface: which are passed over, and which error the others give, in order |
| CdcAcm.DataFilters | src/usb.rs:1525-1548 | a data search takes exactly the endpoint descriptors after an alternate-zero interface descriptor with its number |
| CdcAcm.DataByBytes | src/usb.rs:1492-1582 | a data interface that is found has an OUT endpoint numbered 1 to 15 and an IN endpoint, both bulk and of a bulk packet size, from the two endpoint descriptors of the interface |
| CdcDiscovery.PartsCollect | src/usb.rs:1336-1413 | the parts of a control interface collect exactly when they are well made, to what they say |
| CdcDiscovery.ControlPassErrors | src/usb.rs:1314-1413 | a pass for a control interface fails at its first bad descriptor, with the error of an interface, a functional descriptor or an endpoint, whichever that is |
| CdcDiscovery.ExistsIff | src/usb.rs:1584-1609 | an interface exists exactly when a well-formed alternate-zero descriptor comes before any malformed one |
| CdcDiscovery.SubordinatesIff | src/usb.rs:1437-1447 | the union's interfaces pass exactly when they are distinct, existing and not the control interface |
| CdcDiscovery.SelectIff | src/usb.rs:1462-1471 | one interface is selected exactly when it is the only data interface among them |
| CdcDiscovery.CandidateIff | src/usb.rs:1296-1490 | strict discovery accepts exactly the functions that meet the declarative definition |
| CdcDiscovery.CandidateErrors | src/usb.rs:1415-1435 | which missing part of an otherwise well-formed candidate is reported: the first of interface, endpoint count, header, ACM and union descriptors |
| CdcDiscovery.BulkEndpointsBelong | src/usb.rs:1449-1489 | the bulk endpoints are those of the alternate-zero CDC data interface named in the function's Union descriptor |
| CdcDiscovery.FunctionalKinds | src/usb.rs:1336-1386 | header, call management, ACM and union descriptors, by type 0x24 and subtypes 0, 1, 2 and 6 |
| CdcDiscovery.ControlFilters | src/usb.rs:1336-1413 | a control search takes exactly functional and endpoint descriptors after an alternate-zero ACM control interface with its number |
| CdcDiscovery.InterfaceKinds | src/usb.rs:1584-1609 | the descriptors that open alternate setting zero of an interface, and those that make the search for it fail |
| CdcDiscovery.CallManagement | src/usb.rs:1363-1374 | call management capabilities are 0, 1 or 3, and only 3 names the data interface |
| CdcSearch.DiscoverCandidate | src/usb.rs:1296-1490 | the walks and loops compute the specified result |
| CdcSearch.DiscoverControlInterface | src/usb.rs:1287-1294 | explicit selection checks the framing and returns the specified candidate |
| CdcSearch.CdcAcmFunctions.MarkSeen | src/usb.rs:1196-1202 | the 256-bit set in eight words adds exactly this interface and tells whether it was there |
| CdcSearch.CdcAcmFunctions.Next | src/usb.rs:1205-1248 | the iterator yields the specified items, one for each announced control interface |
| CdcSearch.AnnouncesIff | src/usb.rs:1213-1240 | a descriptor announces a control interface exactly when its class, subclass and alternate fields say so, whether or not it is well formed |
| CdcSearch.Discover | src/usb.rs:1266-1280 | the search returns the first good item, else the first error |
| CdcSearch.FirstGoodIff | src/usb.rs:1205-1280 | the set of interfaces already tried only ever hides invalid ones |
| CdcSearch.DiscoverIff | src/usb.rs:1266-1280 | discovery returns a function exactly when it is the first valid one in descriptor order |
| CdcSearch.DiscoverSucceedsIff | src/usb.rs:1266-1294 | discovery succeeds exactly when some control interface passes explicit selection |
| Usbtmc.CommandRoundTrip | src/usbtmc.rs:410-428 | a framed command is read back unchanged, in a whole number of four-byte words |
| Usbtmc.NoPacketOfPadding | src/usbtmc.rs:463-505 | alignment bytes never get a packet of their own |
| Usbtmc.ResponseRoundTrip | src/usbtmc.rs:438-505 | any payload framed with the request's tag and split into packets is read exactly, and the transfer is consumed to its end |
| Usbtmc.ReadSound | src/usbtmc.rs:438-505 | a successful read took packets that are a response for the tag announcing exactly the returned payload, with at most three more bytes, ending in a short packet |
| Usbtmc.FirstErrors | src/usbtmc.rs:438-461 | why a response is refused, by the bytes of its first packet: no header, another tag, a size beyond the buffer, or a pipe that fails |
| Usbtmc.SmallPacketsAreRefused | src/usbtmc.rs:438-453 | packets that cannot hold the header are never read as a response, whatever they carry |
| Usbtmc.UsbtmcHost.ReadResponse | src/usbtmc.rs:438-505 | the reading loop computes the specified result and leaves the specified packets |
| Usbtmc.UsbtmcHost.Write | src/usbtmc.rs:410-428 | succeeds exactly when the command fits and the pipe takes it, then sends the framed command of `Usbtmc.CommandIsCommand` with the next tag; a tag is spent on a failing pipe too |
| Usbtmc.UsbtmcHost.Read | src/usbtmc.rs:431-436 | sends the request of `Usbtmc.RequestIsRequest` with the next tag and the buffer size, and reads under that tag: an instrument that frames any payload that fits with the tag found in the packet just sent is read exactly |
| Usbtmc.RequestIsRequest | src/usbtmc.rs:525-532 | the request by its twelve bytes: message identifier 2, the tag, its complement, zero, the requested size capped at 32 bits and low byte first, and zero attributes |
| Usbtmc.LittleEndian | src/usbtmc.rs:525-532 | in a size field the first byte counts ones and the fourth 256 cubed |
| Usbtmc.CommandIsCommand | src/usbtmc.rs:410-428 | the command by its bytes: message identifier 1, the tag, its complement, zero, the length low byte first, the end-of-message bit, the command, and zeros up to a multiple of four |
| Usbtmc.UsbtmcHost.TakeTag | src/usbtmc.rs:507-511 | tags run from 1 to 255, are never zero and never repeat at once |
| AtResponse.JudgeIff | examples/bleuio/protocol.rs:337-382 | the verdict is the shortest prefix within 64 bytes that ends in an exact OK or ERROR line, or overflow when there is none |
| AtResponse.TerminalLines | examples/bleuio/protocol.rs:352-382 | a response ends where its last line, all of it or after a line feed, is OK or ERROR with carriage return and line feed, in characters |
| AtResponse.VerdictIsStable | examples/bleuio/protocol.rs:337-343 | a verdict does not change with what follows |
| AtResponse.CutDoesNotMatter | examples/bleuio/protocol.rs:327-382 | the verdict, overflow included, is the same for every fragmentation; what is consumed is the matter of `ResponseCuts.AtConsumesTheSameIff` |
| AtResponse.AtResponseAccumulator.PushWithConsumed | examples/bleuio/protocol.rs:337-382 | the accumulator reaches that verdict on all bytes so far, consumes up to it, and gives a piece back on overflow |
| ScanResponse.LinesDecide | examples/bleuio/protocol.rs:499-543 | for any reading of lines, a transcript of any lines is judged by its lines in order, the first device kept; `DeviceLine.Classify` is the program's reading |
| ScanResponse.CompleteIff | examples/bleuio/protocol.rs:499-543 | lines complete a scan with a device exactly when one of them ends it, every line before can be read, is no error and names a device only after a scanning line, and the device is the first that they name |
| ScanResponse.UnendedLine | examples/bleuio/protocol.rs:533-540 | bytes without a line end are kept up to 128 of them, and the next one is an overflow |
| ScanResponse.CutDoesNotMatter | examples/bleuio/protocol.rs:499-543 | piece by piece or at once, the transcript's bytes lead to the same parser state; what the pushes consume is the matter of `ResponseCuts.ScanFed` |
| ScanResponse.ScanAccumulator.PushWithConsumed | examples/bleuio/protocol.rs:499-543 | the accumulator is the specified parser on everything consumed so far; after an error it has the progress from before the failing byte and the line unless it was read |
| DeviceLine.DeviceLineIff | examples/bleuio/protocol.rs:573-658 | sound and complete: a line is a device with these fields exactly where they are written in it; it is malformed exactly when it has the shape of a device line and no fields |
| DeviceLine.RssiIff | examples/bleuio/protocol.rs:634-650 | a signal strength is read exactly where spaces, its name, spaces and an eight-bit number are written before a space, a bracket or the end |
| DeviceLine.AddressIff | examples/bleuio/protocol.rs:617-632 | an address is read exactly where six octets of two hexadecimal digits stand with colons between them |
| DeviceLine.ParseDecimalU8 | examples/bleuio/protocol.rs:660-672 | the loop with checked arithmetic yields the value of a nonempty digit string that fits eight bits, else nothing |
| DeviceLine.ParseLeadingI8 | examples/bleuio/protocol.rs:690-714 | the loop in sixteen checked bits yields the signed number at the start that fits eight bits and its length, else nothing |
| NumberText.DecimalRoundTrip | examples/bleuio/protocol.rs:660-672 | a number in decimal digits is read back if it fits eight bits, and refused otherwise |
| NumberText.SignedRoundTrip | examples/bleuio/protocol.rs:690-714 | a number written with a minus, a plus or no sign, before anything but a digit, is read back with its length if it fits eight signed bits |
| NumberText.OctetIff | examples/bleuio/protocol.rs:674-688 | an octet is read exactly from the characters of its two hexadecimal digits, in either case, the high one first |
| DeviceLine.ClassifyScanLine | examples/bleuio/protocol.rs:573-598 | the parsers together read a line as specified |
| DeviceLine.Words | examples/bleuio/protocol.rs:573-650 | the words and marks of a transcript, in characters |
| DeviceLine.FixedLines | examples/bleuio/protocol.rs:573-583 | scanning, completion and failure are exactly the lines SCANNING..., SCAN COMPLETE and ERROR |
| BleuIo.BleuIo.ConsumeBuffered | examples/bleuio/protocol.rs:146-152 | consumed bytes move from the buffer to the consumed ones, in order |
| BleuIo.BleuIo.ReadResponse | examples/bleuio/protocol.rs:186-230 | bytes received are those the reads delivered, and are bytes consumed followed by bytes buffered, over all commands; result, bytes eaten, bytes left and number of reads are exactly those of parsing all that is buffered until the parser ends, reading only when nothing is |
| BleuIo.BasicCommandAnswer | examples/bleuio/protocol.rs:248-260 | a basic command's answer is the verdict on the bytes it consumed, up to its terminal line and no further |
| BleuIo.ParseAtResponse | examples/bleuio/protocol.rs:403-418 | as a response parser the AT accumulator answers what the parser function of these statements says |
| BleuIo.ParseScan | examples/bleuio/protocol.rs:557-571 | as a response parser the scan accumulator answers what the parser function of these statements says |
| BleuIo.ScanAnswer | examples/bleuio/protocol.rs:557-571 | a scan's answer is the device that the transcript of the consumed bytes ends with, and nothing beyond its last line is consumed |
| ResponseCuts.AtFed | examples/bleuio/protocol.rs:337-382 | pushing any pieces consumes up to the terminal line, or everything while there is none; an overflow consumes the pieces before the one with byte 65, which is given back |
| ResponseCuts.AtConsumesTheSameIff | examples/bleuio/protocol.rs:337-382 | all cuts of a response have the same outcome, and consume the same exactly when it does not overflow |
| ResponseCuts.OverflowDependsOnTheCut | examples/bleuio/protocol.rs:348-351 | every overflowing response has one cut that consumes nothing and one that consumes 64 bytes |
| ResponseCuts.SixtyFiveLettersOverflow | examples/bleuio/protocol.rs:348-351 | 65 letters are such a response |
| ResponseCuts.ScanFed | examples/bleuio/protocol.rs:499-543 | pushing any pieces of a scan consumes up to its last line, or everything while there is none; an error consumes the pieces before the one with the failing byte |
| ResponseCuts.ScanConsumesTheSameIff | examples/bleuio/protocol.rs:499-543 | all cuts of a scan have the same outcome, and consume the same exactly when it does not fail |
| ResponseCuts.BasicCommandConsumes | examples/bleuio/protocol.rs:186-260 | what a basic command eats of any cut of what is buffered and read, and that an overflow leaves the failing piece whole |
| ResponseCuts.ScanConsumes | examples/bleuio/protocol.rs:186-230 | the same for a scan: up to its last line, or the pieces before the failing one, which stays whole |
| ResponseCuts.ClientIsItsPushes | examples/bleuio/protocol.rs:186-230 | for any parser that takes all its input while incomplete, a command has the outcome of pushing what is buffered and read, and keeps the rest in order |
| ResponseCuts.StuckIff | examples/bleuio/protocol.rs:194-206 | a command fails at once, reading and consuming nothing, exactly where its parser refuses what is buffered |
| ResponseCuts.OverflowSticks | examples/bleuio/protocol.rs:186-260 | once what is buffered overflows, every later basic command fails with the overflow, and nothing is read or consumed any more |
| ResponseCuts.SameAtAnswer | examples/bleuio/protocol.rs:248-260 | any two commands that complete on the same stream give the same status and eat the same bytes |
| ResponseCuts.SameScanAnswer | examples/bleuio/protocol.rs:557-571 | any two scans that complete on the same stream give the same device and eat the same bytes |
| SerialStreams.CdcAcmHost.Read | src/cdc_acm.rs:590-619 | reads of any sizes together deliver the packets' bytes in order, empty packets skipped |
| SerialStreams.ReceiveBuffer.CopyBuffered | src/cdc_acm.rs:657-666 | what is copied and what stays are the buffered bytes, in order |
| SerialStreams.FtdiHost.Read | src/ftdi.rs:684-714 | reads of any sizes together deliver each packet's bytes after its two status bytes; the status is the last received |
| SerialStreams.PlainStream | src/cdc_acm.rs:590-619 | without status bytes the stream is the packets joined |
| SerialStreams.StreamConcat | src/ftdi.rs:684-714 | the stream of two lists of packets is their streams one after the other |
| FtdiBaud.UncappedIsClose | src/ftdi.rs:862-867 | a divisor that is not capped gives a rate within five percent |
| FtdiBaud.FastClockUncapped | src/ftdi.rs:828-830 | the 120 MHz path never reaches the divisor cap |
| FtdiBaud.AcceptedIff | src/ftdi.rs:618-632 | a rate is within five percent exactly when it lies in the stated ranges, for each kind of chip |
| FtdiBaud.FtdiSettings.SetBaudRate | src/ftdi.rs:618-632 | accepts exactly these rates when the control request succeeds; sends value and index for each; keeps the actual rate only when the chip took it |
| FtdiBaud.FitsIn32Bits | src/ftdi.rs:822-868 | no product or encoding leaves 32 bits |
| FtdiBaud.SentRunsAt | src/ftdi.rs:822-868 | read by the chip, the value and the index that are sent select the fast clock exactly for the rates it serves, give the rate that is returned, and name the channel |
| FtdiBaud.ChipKinds | src/ftdi.rs:840-849 | which chips number their channels, have the fast clock and share the index with the channel |
| FtdiBaud.SlowestDivisor | src/ftdi.rs:862-868 | below 183 baud the divisor is capped at seventeen ones |
| FtdiBaud.DivisorIsRecoverableIff | src/ftdi.rs:837-849 | below the special rates, for every chip and channel number, the divisor can be read back exactly when the channel is below 256, the index is not shared, or the divisor has 3, 5, 6 or 7 eighths |
| FtdiBaud.SameRequestIff | src/ftdi.rs:837-849 | on channel 256 two divisors are sent alike, to any reader, exactly when only the top bit of their codes differs |
| FtdiBaud.Channel256LosesABit | src/ftdi.rs:558-564 | channel number 256, reached with interface number 255, sends one request for two different rates |

## Left out

- Registers, GPIO, DMA, clock dividers, program images, VBUS, LEDs and the applications: hardware plumbing and user interface.
- The edge and end-of-packet detector program (`src/pio_host/rp2040.rs:503-531`): analog resampling; one trigger per bit is assumed.
- The transmit FIFO running dry inside a packet: the shift register is refilled before the next test while bytes remain.
- Electrical timing, poll budgets and deadlines as durations: they are inputs that may strike at any point.
- InReceive.ReceiveDataPacket: the statement is about the bytes drained, because on the full-speed fast path the code does not drain again before releasing the acknowledgement; `InReceive.WholePacketIff` says when they are the whole packet.
- InReceive.InOnce: an acknowledgement that the transmitter does not confirm is reported as a failure although it may have been sent; `TransferIn.ExactlyOnceIn` says what follows.
- TransferIn.ExactlyOnceIn: isochronous endpoints have no handshake and are not part of the model, and neither is a toggle reset at the wrong time or a device that does not conform.
- TransferIn.InPipe.RequestIn: an empty buffer succeeds without a validity check, as in the program.
- Undetected damage: a damaged packet that still has a valid CRC is outside the wire model; `Crc.BurstIsDetected` says which damage is always detected.
- ControlTransfer.ControlOut: the check that the status packet is empty cannot fail, because no room is given for a longer one (`ControlTransfer.StatusIsEmpty`), and is not repeated.
- ControlTransfer.ControlIn: wLength zero has no data stage and no statement about a response; diagnostics counters are left out.
- The device's view of a control transfer's status stage beyond what the host hears.
- HostState.JournalIsGood: equal generations mean equal connections only within 2^32 changes.
- Per-speed endpoint validation of new pipes, and pipe scheduling delays: thin checks and timing.
- HID discovery: the same iterator and the same kind of filter as CDC-ACM discovery, it would repeat these proofs.
- FtdiBaud.AcceptedIff: the rounding tables of the oldest chip (`src/ftdi.rs:870-903`) are not modelled.
- Usbtmc.ResponseRoundTrip: packet size 8 has no round trip, because the first packet must hold the 12-byte header (`Usbtmc.SmallPacketsAreRefused`).
- Usbtmc.UsbtmcHost.ReadResponse: the minimum-length check after the loop cannot fail there and is not repeated.
- BleuIo.BleuIo.ReadResponse: parsers are functions of their state and input, not objects; `BleuIo.ParseAtResponse` and `BleuIo.ParseScan` tie them to the accumulators.
- FTDI reset, purge and line settings, which discard buffered data; setup-request serialisers; the attach debouncer.
