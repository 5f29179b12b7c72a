# A verified model of the algorithms in a network programming library

The repository collects the support code and example servers of a Unix network
programming text. Most of it calls the system and prints; this project models the
parts that compute or coordinate, and proves what they are for.

| file | subject |
|---|---|
| `Inet4.dfy`, `Inet6.dfy`, `Inet6Text.dfy` | addresses as text: inet_pton, inet_ntop, inet_aton |
| `Inet6Language.dfy` | which texts inet_pton6 accepts |
| `Checksum.dfy`, `UdpWrite.dfy` | the Internet checksum, and a UDP datagram built around it |
| `ThreadPool.dfy` | the prethreaded server: a ring of descriptors, one producer, many consumers |
| `BoundedBuffer.dfy` | producer and consumer with two condition variables |
| `SigioEcho.dfy` | a ring shared by a main loop and a signal handler |
| `Dispatcher.dfy` | a parent that passes descriptors to preforked children |
| `SelectServer.dfy` | the table of clients of a server around select |
| `Relay.dfy` | the nonblocking two-way relay of str_cli |
| `Readline.dfy` | line input with and without a buffer of its own |
| `Rtt.dfy`, `DgSendRecv.dfy` | round trip estimation, and reliable request and reply over UDP |
| `AddrInfo.dfy` | the list of addresses that getaddrinfo builds, clones and frees |
| `Runs.dfy`, `Common.dfy` | runs of a step function; shared types |

`dafny verify dfyconfig.toml` checks everything.

**How programs are modelled.** Code that works in place is a method over arrays or a
class whose fields are the source's variables; its contract ties it to a function on
values, and lemmas say what that function is worth. Concurrent and event-driven
programs are state machines: a `State`, a function `Step` with a program counter per
thread, process or handler, and one step per statement that others can observe. The
classes `Server`, `Buffer` and `Client` run one step per method call and are proved
to follow `Step`; results "in every run" are proved for every sequence of events.
History (what was accepted, sent or received) is recorded in fields of the state that
no step reads, and proved to be what the events of the run say. System calls are nondeterministic: read and write may be short, block,
fail or be interrupted; accept returns any descriptor not in use; condition variables
have Mesa semantics with spurious wakeups; malloc may fail.

The methods `ManyByByte`, `ManyBuffered` and `ManyReentrant` stand for any caller of the
three readers of lines; they have no counterpart in the source.

**Where the code and its documentation differ** the model follows the code.

- inet_pton.c promises 1 exactly for a valid address. It also accepts texts with a
  single colon at the end, with words of more than four digits, and with "::" beside
  eight words, and no others (`Inet6Language.BeyondRfc4291`).
- Its comment says "::" in a full address is ignored. It is not: the bytes after it
  become 0 (`Inet6Text.FullAddressLosesItsTail`, `Inet6Language.FullGapIsIgnoredIff`).
- inet_aton takes empty fields for 0 and counts fields too long for `u_long` by their
  low bits (`Inet4.AtonIsParts`).
- inet_ntop4 compares the length without the null character, so for 7 to 15 it can
  write one character past `size` (`Inet4.Ntop4SafeSizes`).
- in_cksum is right exactly up to 65537 words (`Checksum.CorrectLengths`).
- readline returns one more than it stored when it stops for want of room; the
  versions in server/ also do when end of file ends a line
  (`Readline.CountIsLength`). server/readline.c treats an interrupted read as an error.
- str_cli returns at end of file on the socket without flushing what it holds for
  standard output, or for the socket (`Relay.OutputAtReturn`, `Relay.LossExample`,
  `Relay.UnsentExample`).
- sig_io gives up with a free slot if the signal comes between `++iget` and `nqueue--`
  (`SigioEcho.GivesUpFullUnlessBetween`).
- The timeout is clamped when it is measured and not when it is doubled
  (`Rtt.InBoundsAfter`, `DgSendRecv.LongestCall`).

## Model

The paths are relative to the root of the repository.

| member | source | states |
|---|---|---|
| `Inet4.InetPton4` | week5/unpv13e/libfree/inet_pton.c:86-125 | the loop over characters decides exactly Pton4 and writes four bytes at `dst`; on rejection `dst` is unchanged; `tp` never leaves `tmp` |
| `Inet4.Pton4IsDottedQuad` | week5/unpv13e/libfree/inet_pton.c:95-124 | a string is accepted if and only if it is four nonempty decimal fields of value at most 255 separated by single dots, and the bytes stored are their values |
| `Inet4.InetAton` | week5/unpv13e/libfree/inet_aton.c:22-75 | the do-while loop decides exactly Aton, whose language Inet4.AtonIsParts gives, and yields its four network-order bytes, for either width of `u_long` |
| `Inet4.AtonIsParts` | week5/unpv13e/libfree/inet_aton.c:25-74 | a string is accepted if and only if it is one to four decimal fields, empty ones allowed, separated by single dots, each at most 255 when cut to the width of `u_long`; the fields are the first bytes of the address and the others are 0 |
| `Inet4.AtonExtendsPton4` | week5/unpv13e/libfree/inet_aton.c:25-74 | every string inet_pton4 accepts is accepted by inet_aton with the same address |
| `Inet4.InetNtop4` | week5/unpv13e/libfree/inet_ntop.c:85-101 | returns the dotted text followed by a null character and changes nothing else, or fails and changes nothing; the failure test is on the text alone |
| `Inet4.Ntop4SafeSizes` | week5/unpv13e/libfree/inet_ntop.c:94-99 | for which `size` a string returned always fits with its null character: exactly below 7 (none is returned) and from 16 on |
| `Inet4.RoundTrip4` | week5/unpv13e/libfree/inet_ntop.c:91-100 | both parsers recover every address from the text the printer gives |
| `Inet4.RoundTrip4At` | week5/unpv13e/libfree/inet_pton.c:191-195 | the same at the end of a longer string, as the embedded form needs it |
| `Inet4.DigitsByIndex` | week5/unpv13e/libfree/inet_pton.c:91-102 | a character is a digit exactly if it is among "0123456789", and counts by its index there, in both directions |
| `Inet6.InetPton6` | week5/unpv13e/libfree/inet_pton.c:140-224 | decides exactly Pton6, whose language Inet6Language.Pton6IsReference gives; stores sixteen bytes at `dst` when it returns 1 and leaves `dst` alone otherwise; no write outside `tmp` |
| `Inet6.ScanLoop` | week5/unpv13e/libfree/inet_pton.c:159-204 | the token loop accepts exactly what Scan6 accepts, leaves its bytes in `tmp[..tp]` and zeros above, and `colonp` where "::" stood |
| `Inet6.ShiftTail` | week5/unpv13e/libfree/inet_pton.c:205-218 | the overlapping in-place shift: prefix and suffix with the gap zeroed, over all sixteen bytes |
| `Inet6.ShiftExpandsUnlessFull` | week5/unpv13e/libfree/inet_pton.c:205-218 | the shift is the expansion of "::" if and only if there is a gap (`tp < endp`) or the bytes after "::" are zero anyway |
| `Inet6.Deliver` | week5/unpv13e/libfree/inet_pton.c:205-223 | after the shift, `dst` changes only if sixteen bytes are there |
| `Inet6.BestRunIsLeftmostLongest` | week5/unpv13e/libfree/inet_ntop.c:135-156 | the run compressed is the leftmost among the longest zero runs and has at least two words; without such a run there is none (RFC 5952, section 4.2) |
| `Inet6.LeftmostLongestUnique` | week5/unpv13e/libfree/inet_ntop.c:135-156 | that description determines the run |
| `Inet6.ScanRunsInvariant` | week5/unpv13e/libfree/inet_ntop.c:137-150 | after each word, `cur` is the run ending there and `best` the leftmost longest among those closed |
| `Inet6.CloseRun` | week5/unpv13e/libfree/inet_ntop.c:144-154 | closing a run keeps the earlier of two equally long ones |
| `Inet6Text.InetNtop6` | week5/unpv13e/libfree/inet_ntop.c:109-198 | prints Ntop6 and a null character if both fit in `size`, and else fails without touching `dst` |
| `Inet6Text.Preprocess` | week5/unpv13e/libfree/inet_ntop.c:132-156 | the two loops compute the eight words and the run to compress |
| `Inet6Text.Format` | week5/unpv13e/libfree/inet_ntop.c:161-186 | the formatting loop writes exactly the text, inside the 46 characters of `tmp` |
| `Inet6Text.Ntop6Length` | week5/unpv13e/libfree/inet_ntop.c:122-195 | the text of every address has at most 39 characters |
| `Inet6Text.RoundTrip6` | week5/unpv13e/libfree/inet_pton.c:152-223 | for every sixteen bytes, inet_pton6 accepts the text inet_ntop6 prints and returns those bytes |
| `Inet6Text.Ntop6Injective` | week5/unpv13e/libfree/inet_ntop.c:132-187 | different addresses have different texts |
| `Inet6Text.TextOmitsRun` | week5/unpv13e/libfree/inet_ntop.c:135-187 | read back, the text gives every byte but those of the leftmost longest zero run of at least two words and has "::" in its place, or gives all bytes if there is no such run |
| `Inet6Text.TextForm` | week5/unpv13e/libfree/inet_ntop.c:162-183 | the text is lower-case digits, colons and dots, with dots exactly for the addresses that hold an IPv4 address |
| `Inet6Text.EmbedsIpv4` | week5/unpv13e/libfree/inet_ntop.c:173-180 | those are the addresses with twelve zero bytes in front of a nonzero pair, or ten and then 0xffff |
| `Inet6Text.HexIsText` | week5/unpv13e/libfree/inet_ntop.c:181-182 | a word is printed without leading zeros |
| `Inet6Text.ReadPlain` | week5/unpv13e/libfree/inet_pton.c:162-198 | the round trip for texts of hexadecimal words, with no run or one at the front, in the middle or at the end |
| `Inet6Text.ReadEmbedded` | week5/unpv13e/libfree/inet_pton.c:191-195 | the round trip for both forms that end in a dotted quad |
| `Inet6Text.ReadPieces` | week5/unpv13e/libfree/inet_pton.c:162-190 | parser and printer advance together, word by word |
| `Inet6Text.FillRun` | week5/unpv13e/libfree/inet_pton.c:205-218 | expanding "::" restores the zero words the printer left out |
| `Inet6Text.FullAddressLosesItsTail` | week5/unpv13e/libfree/inet_pton.c:134-218 | "::" in a full address is not ignored, against the comment: for every text like 1:2:3:4:5:6:7::8 the last word becomes 0 |
| `Inet6Language.Pton6IsReference` | week5/unpv13e/libfree/inet_pton.c:152-223 | for every string: accepted if and only if it is words of value at most 0xffff separated by single colons, with at most one "::", possibly a dotted quad at the end or a colon after the last word, giving sixteen bytes or, with "::", at most sixteen; and the address returned is what those denote |
| `Inet6Language.TakesRfc4291` | week5/unpv13e/libfree/inet_pton.c:127-132 | every text of section 2.2 of RFC 4291 is accepted with the address it denotes |
| `Inet6Language.BeyondRfc4291` | week5/unpv13e/libfree/inet_pton.c:131-131 | an accepted string is no such text if and only if it ends with a single colon, has a word of more than four digits, or has "::" beside eight words |
| `Inet6Language.ExactOtherwise` | week5/unpv13e/libfree/inet_pton.c:127-132 | for all strings without these three marks the promise holds: 1 with the address for a valid one, 0 for any other |
| `Inet6Language.TrailingColonTaken` | week5/unpv13e/libfree/inet_pton.c:175-189 | "::1:" is accepted and is no address |
| `Inet6Language.LongWordTaken` | week5/unpv13e/libfree/inet_pton.c:165-173 | "::00001" is accepted and is no address |
| `Inet6Language.FullGapIsIgnoredIff` | week5/unpv13e/libfree/inet_pton.c:134-218 | the promise that "::" in a full address is ignored is kept by every string except those accepted with "::" beside eight words and something other than zeros behind it |
| `Inet6Language.FullGapIsFull` | week5/unpv13e/libfree/inet_pton.c:205-218 | "::" meets sixteen bytes exactly if the string has eight items between its colons, a dotted quad counting as two |
| `Inet6Language.ScanList` | week5/unpv13e/libfree/inet_pton.c:162-204 | from the start of a token on, the loop reads the list of items up to the end and nothing else |
| `Inet6Language.ScanBefore` | week5/unpv13e/libfree/inet_pton.c:175-190 | up to the first "::" it reads the words before it |
| `Inet6Language.CharacterCounts` | week5/unpv13e/libfree/inet_pton.c:145-174 | a character continues a word exactly if it stands in one of the two alphabets, and counts by its index there; any other but a colon or a dot is refused |
| `Inet6Language.WordDenotes` | week5/unpv13e/libfree/inet_pton.c:165-204 | digits of any number and either case behind "::" denote their number in base 16, high byte first, and are refused if it exceeds 0xffff |
| `Inet6Language.CaseDoesNotMatter` | week5/unpv13e/libfree/inet_pton.c:145-166 | texts that differ only in the case of letters have the same result |
| `Checksum.InCksum` | week5/unpv13e/libfree/in_cksum.c:3-32 | the loop, the odd byte and the folds compute Cksum of the first `len` bytes; up to 131074 bytes that is the complement of the residue of the bytes weighted 256 and 1 in turn, byte-swapped on a little-endian host |
| `Checksum.CksumOfBytes` | week5/unpv13e/libfree/in_cksum.c:16-31 | the same for every buffer, in terms of its bytes alone |
| `Checksum.ZeroPadding` | week5/unpv13e/libfree/in_cksum.c:21-25 | an odd buffer has the checksum it has with a zero byte behind it, as RFC 1071 asks |
| `Checksum.StoreOfLoad` | week5/unpv13e/libfree/in_cksum.c:16-17 | what a word of memory is worth on hosts of either byte order |
| `Checksum.CksumIsRfc1071` | week5/unpv13e/libfree/in_cksum.c:16-31 | up to 65537 words the deferred-carry sum in 32 bits is the one's-complement checksum of section 2 of RFC 1071 |
| `Checksum.CorrectLengths` | week5/unpv13e/libfree/in_cksum.c:7-24 | it is right for all buffers of n words if and only if n is at most 65537 |
| `Checksum.FoldIsCanonical` | week5/unpv13e/libfree/in_cksum.c:28-30 | two folds are enough for every 32-bit sum |
| `Checksum.NoOverflow` | week5/unpv13e/libfree/in_cksum.c:16-25 | the accumulator does not wrap within that length |
| `Checksum.FieldVerifies` | week5/unpv13e/libfree/in_cksum.c:16-31 | storing the checksum in a zeroed even-offset field makes the checksum of the whole 0; 0xffff in place of 0 does too |
| `Checksum.ByteOrderIndependent` | week5/unpv13e/libfree/in_cksum.c:16-31 | with byte-swapped loads the result is byte-swapped, odd lengths included, so the stored bytes are the same |
| `UdpWrite.UdpWrite` | week5/unpv13e/udpcksum/udpwrite.c:29-70 | fills the 28 header bytes in place with the right value in every field, leaving the datagram Datagram describes and everything after it as it was |
| `UdpWrite.DatagramHasFields` | week5/unpv13e/udpcksum/udpwrite.c:37-70 | the fields byte by byte: version and lengths, addresses, ports and data each in their place |
| `UdpWrite.DatagramVerifies` | week5/unpv13e/udpcksum/udpwrite.c:37-56 | the receiver's sum over pseudo-header and datagram (RFC 768) is right on hosts of either byte order, and the field is 0 exactly when `zerosum` is set |
| `UdpWrite.FieldCompletes` | week5/unpv13e/udpcksum/udpwrite.c:49-52 | the substituted checksum is never 0 and still verifies |
| `UdpWrite.SameSum` | week5/unpv13e/udpcksum/udpwrite.c:37-48 | the zeroed overlay has the same sum as the pseudo-header and datagram a receiver sees |
| `UdpWrite.FillOverlay` | week5/unpv13e/udpcksum/udpwrite.c:37-48 | the fields that precede the checksum |
| `UdpWrite.FillSum` | week5/unpv13e/udpcksum/udpwrite.c:49-56 | only the two bytes of the checksum field change |
| `UdpWrite.FillIp` | week5/unpv13e/udpcksum/udpwrite.c:60-70 | the rest of the IP header, which overwrites bytes the checksum took as zero |
| `ThreadPool.NoLostWakeup` | week5/unpv13e/server/pthread08.c:20-29 | whenever the mutex is free and a thread is still asleep, at least as many threads are awake and on their way as descriptors are queued; any number of threads, any schedule, spurious wakeups included |
| `ThreadPool.PoolMoves` | week5/unpv13e/server/pthread08.c:20-29 | as long as something is queued and main is not in its critical section, some thread of the pool can move |
| `ThreadPool.ServedInOrder` | week5/unpv13e/server/pthread08.c:20-32 | the descriptors taken are, in order and once each, a prefix of those accepted; each `thread_count` is the number that thread took, and it serves the one it took last |
| `ThreadPool.QuitsExactlyWhenFull` | week5/unpv13e/server/serv08.c:39-46 | the test `iput == iget` after a put succeeds exactly when 32 descriptors are queued: no entry is overwritten and no run is ended early |
| `ThreadPool.AcceptedAsTold` | week5/unpv13e/server/serv08.c:37-37 | the descriptors accepted are those accept returned, by the events alone |
| `ThreadPool.MainEnabled` | week5/unpv13e/server/serv08.c:35-47 | main can always move, unless it has quit or waits for the mutex |
| `ThreadPool.ThreadEnabled` | week5/unpv13e/server/pthread08.c:20-32 | so can every thread, unless it sleeps or waits for the mutex |
| `ThreadPool.MainRound` | week5/unpv13e/server/serv08.c:39-46 | undisturbed, main puts its descriptor in the ring, wakes a sleeper if there is one, frees the mutex and is back at accept |
| `ThreadPool.ThreadRound` | week5/unpv13e/server/pthread08.c:21-31 | undisturbed, a thread takes the descriptor at the head of the ring, frees the mutex, counts, serves and starts again |
| `ThreadPool.ThreadSleeps` | week5/unpv13e/server/pthread08.c:21-23 | with nothing queued it goes to sleep and frees the mutex |
| `ThreadPool.InvStep` | week5/unpv13e/server/serv08.c:35-47 | one step of main or of any thread keeps mutual exclusion, the ring, the history, the counts and the wakeup bound |
| `ThreadPool.RingStep` | week5/unpv13e/server/serv08.c:40-42 | one step keeps the ring equal to the descriptors accepted and not yet taken |
| `ThreadPool.WakeupStep` | week5/unpv13e/server/pthread08.c:21-27 | one step keeps the wakeup bound |
| `ThreadPool.CountStep` | week5/unpv13e/server/pthread08.c:24-28 | one step keeps counts and ownership |
| `ThreadPool.Server.constructor` | week5/unpv13e/server/serv08.c:25-31 | the initial state |
| `ThreadPool.Server.MainMove` | week5/unpv13e/server/serv08.c:35-47 | main's next statement does what the transition relation says, and nothing else |
| `ThreadPool.Server.ThreadMove` | week5/unpv13e/server/pthread08.c:20-32 | the same for a thread of the pool |
| `BoundedBuffer.ConsumedInOrder` | week5/unpv13e/threads/example03.c:62-104 | for any number of turns the values consumed are a prefix of those produced, the count stays in 0..BUFFSIZE and is the difference when the mutex is free, and the threads are never both asleep |
| `BoundedBuffer.SomeoneMoves` | week5/unpv13e/threads/example03.c:65-101 | no deadlock: until both are done one of them can move |
| `BoundedBuffer.RunsAreShort` | week5/unpv13e/threads/example03.c:106-130 | termination: a run of n turns has at most 20n + 20 steps and three more per spurious wakeup, however it is scheduled |
| `BoundedBuffer.CompleteWhenDone` | week5/unpv13e/threads/example03.c:106-130 | at the end the values consumed are those produced, 0 to n - 1 |
| `BoundedBuffer.InvStep` | week5/unpv13e/threads/example03.c:62-104 | one step keeps control, ring, history and the reasons for sleeping |
| `BoundedBuffer.MeasureStep` | week5/unpv13e/threads/example03.c:62-104 | every step that is not a spurious wakeup makes progress |
| `BoundedBuffer.Buffer.constructor` | week5/unpv13e/threads/example03.c:27-35 | the initial state |
| `BoundedBuffer.Buffer.ProducerMove` | week5/unpv13e/threads/example03.c:62-80 | the producer's next statement does what the transition relation says |
| `BoundedBuffer.Buffer.ConsumerMove` | week5/unpv13e/threads/example03.c:82-104 | the same for the consumer |
| `SigioEcho.IndicesAgree` | week5/unpv13e/sigio/dgecho01.c:56-73 | with SIGIO at any unmasked step, `iput` is `iget + nqueue` mod 8, one off only between `++iget` and `nqueue--`; no update of `nqueue` is lost; outside the handler it is at most 7, and the process gives up when it is 8 |
| `SigioEcho.GivesUpFullUnlessBetween` | week5/unpv13e/sigio/dgecho01.c:86-87 | when the process gives up, all eight slots hold datagrams if and only if main is not between `++iget` and `nqueue--`; else seven do |
| `SigioEcho.GivesUpWithSeven` | week5/unpv13e/sigio/dgecho01.c:67-87 | a run that gives up with seven datagrams queued and a slot free |
| `SigioEcho.EchoedInOrder` | week5/unpv13e/sigio/dgecho01.c:61-72 | the handler never writes to the slot being sent, and the datagrams echoed (data, length, sender) are a prefix of those received |
| `SigioEcho.HistogramComplete` | week5/unpv13e/sigio/dgecho01.c:85-107 | the histogram accounts for every datagram, and its index stays in the array |
| `SigioEcho.ReceivedAsTold` | week5/unpv13e/sigio/dgecho01.c:91-99 | the datagrams received are those recvfrom returned, by the events alone |
| `SigioEcho.SomeoneMoves` | week5/unpv13e/sigio/dgecho01.c:56-107 | until the process gives up, the handler can move while it runs and main while it does not |
| `SigioEcho.MainTurn` | week5/unpv13e/sigio/dgecho01.c:58-72 | an undisturbed turn of the main loop echoes the datagram at `iget` and takes it off the queue |
| `SigioEcho.MainKeeps` | week5/unpv13e/sigio/dgecho01.c:56-73 | a step of the main loop keeps queue, ring and histogram |
| `SigioEcho.HandlerKeeps` | week5/unpv13e/sigio/dgecho01.c:78-108 | a step of the handler does too |
| `SigioEcho.FreeSlot` | week5/unpv13e/sigio/dgecho01.c:89-99 | the slot at `iput` holds nothing still to be sent |
| `SigioEcho.Server.constructor` | week5/unpv13e/sigio/dgecho01.c:35-43 | the initial state |
| `SigioEcho.Server.MainMove` | week5/unpv13e/sigio/dgecho01.c:56-73 | the main loop's next statement does what the transition relation says |
| `SigioEcho.Server.HandlerMove` | week5/unpv13e/sigio/dgecho01.c:78-108 | the same for the handler |
| `Dispatcher.BookkeepingAgrees` | week5/unpv13e/server/serv05.c:43-80 | over all interleavings `navail` is the number of children with status 0; a busy child has exactly one of a descriptor on the way, a request, a ready byte, and an idle child none; "no available children" and end of file on a pipe are unreachable; a finished pass has freed every child select reported |
| `Dispatcher.DescriptorsConserved` | week5/unpv13e/server/serv05.c:50-65 | every accepted descriptor goes to exactly one child and arrives there in order; each `child_count` is what the child was given and they add up to the accepts |
| `Dispatcher.NeverStuck` | week5/unpv13e/server/serv05.c:43-80 | with a connection pending and at least one child, parent or child can always move |
| `Dispatcher.SearchSucceeds` | week5/unpv13e/server/serv05.c:54-59 | the search for an idle child ends at one |
| `Dispatcher.AcceptedAsTold` | week5/unpv13e/server/serv05.c:50-52 | the descriptors accepted are those accept returned, by the events alone |
| `Dispatcher.Dispatched` | week5/unpv13e/server/serv05.c:50-67 | undisturbed, a connection goes to the first idle child, which is marked and counted, with the descriptor in its pipe |
| `Dispatcher.Freed` | week5/unpv13e/server/serv05.c:71-80 | undisturbed, a ready byte makes its child idle again |
| `Dispatcher.ChildRound` | week5/unpv13e/server/child05.c:40-50 | undisturbed, a child takes the descriptor at the head of its pipe, serves it, says it is ready and waits again |
| `Dispatcher.InvStep` | week5/unpv13e/server/child05.c:40-50 | one step of the parent or of any child keeps all of it |
| `Dispatcher.PassParent` | week5/unpv13e/server/serv05.c:66-80 | `nsel` always counts what select reported and nobody has dealt with, so the early exits skip nothing |
| `Dispatcher.Server.constructor` | week5/unpv13e/server/serv05.c:30-39 | the initial state |
| `Dispatcher.Server.ParentMove` | week5/unpv13e/server/serv05.c:43-81 | the parent's next statement does what the transition relation says |
| `Dispatcher.Server.ChildMove` | week5/unpv13e/server/child05.c:40-50 | the same for a child |
| `SelectServer.AlwaysConsistent` | week5/unpv13e/tcpcliserv/tcpservselect01.c:26-82 | at every select `allset` is the listening descriptor and those in `client[]`, the entries are distinct, everything above `maxi` is -1, and `maxfd` bounds the set |
| `SelectServer.Server.Turn` | week5/unpv13e/tcpcliserv/tcpservselect01.c:35-82 | an iteration reads every connection select reported, each once, and no other (not the one just accepted), despite the early exits; the table then holds the old connections and the one accepted, without those at end of file; it fails exactly if a connection finds no free entry |
| `SelectServer.Server.Accept` | week5/unpv13e/tcpcliserv/tcpservselect01.c:39-60 | the first free entry and no other becomes the new descriptor, which joins the set; fails exactly if every entry is taken |
| `SelectServer.AdmitTakesFirst` | week5/unpv13e/tcpcliserv/tcpservselect01.c:48-60 | the same of the function on values, with the two bounds |
| `SelectServer.WatchesOpenConnections` | week5/unpv13e/tcpcliserv/tcpservselect01.c:35-82 | at every select the set is the listening descriptor and the connections accepted and not found closed, by the events alone |
| `SelectServer.StepConnections` | week5/unpv13e/tcpcliserv/tcpservselect01.c:39-74 | one turn adds the connection accepted and removes those at end of file |
| `SelectServer.Server.ServeClients` | week5/unpv13e/tcpcliserv/tcpservselect01.c:66-81 | the scan that stops after `nready` descriptors serves the whole report and drops exactly the closed ones |
| `SelectServer.Server.constructor` | week5/unpv13e/tcpcliserv/tcpservselect01.c:26-31 | the initial table |
| `SelectServer.AdmitKeeps` | week5/unpv13e/tcpcliserv/tcpservselect01.c:48-60 | accepting keeps the table consistent |
| `SelectServer.DropKeeps` | week5/unpv13e/tcpcliserv/tcpservselect01.c:70-74 | closing does too |
| `Relay.RelayedAsTold` | week5/unpv13e/nonblock/strclinonb.c:42-122 | by the system calls alone: what was sent is the first part of what the reads of standard input delivered, as long as the writes to the socket say; what was printed is that of what the reads of the socket delivered; and the FIN, end of file and the way the function ends are as the calls say |
| `Relay.TurnHistory` | week5/unpv13e/nonblock/strclinonb.c:42-122 | one turn takes in and gives out exactly what its calls say |
| `Relay.NoEmptyTransfers` | week5/unpv13e/nonblock/strclinonb.c:30-37 | no read is asked for zero bytes or after end of file, and nothing is reported writable without a byte to write |
| `Relay.BytesConserved` | week5/unpv13e/nonblock/strclinonb.c:42-122 | for every schedule of partial reads and writes, what came in is what went out followed by what the buffer holds, in both directions; the FIN is sent at most once, and has been sent exactly if standard input is at its end and all of it has gone out |
| `Relay.AlwaysWatched` | week5/unpv13e/nonblock/strclinonb.c:27-39 | each unfinished direction has a descriptor in the sets of select: a full buffer is never an empty one |
| `Relay.OutputAtReturn` | week5/unpv13e/nonblock/strclinonb.c:64-76 | the output is always a prefix of what arrived and what was sent a prefix of what was typed, complete exactly if the buffer is empty; at return, all of the input was sent exactly if the FIN was |
| `Relay.LossExample` | week5/unpv13e/nonblock/strclinonb.c:69-74 | two turns after which the function has returned and a byte that arrived was never printed |
| `Relay.UnsentExample` | week5/unpv13e/nonblock/strclinonb.c:69-74 | two turns after which it has returned and a byte that was typed was never sent |
| `Relay.StepKeeps` | week5/unpv13e/nonblock/strclinonb.c:42-122 | one turn keeps both buffers (equal pointers only at the base) and the FIN rule |
| `Relay.Client.constructor` | week5/unpv13e/nonblock/strclinonb.c:22-24 | the initial state |
| `Relay.Client.Move` | week5/unpv13e/nonblock/strclinonb.c:27-123 | a turn of the loop does what the transition relation says |
| `Relay.Client.ReadStdin` | week5/unpv13e/nonblock/strclinonb.c:42-62 | its first part |
| `Relay.Client.ReadSocket` | week5/unpv13e/nonblock/strclinonb.c:64-86 | its second part |
| `Relay.Client.WriteStdout` | week5/unpv13e/nonblock/strclinonb.c:89-103 | its third part |
| `Relay.Client.WriteSocket` | week5/unpv13e/nonblock/strclinonb.c:105-122 | its fourth part |
| `Readline.ReadlineByByte` | week5/unpv13e/server/readline.c:4-27 | for every way read behaves: stores the next line of the stream and its null byte (nothing at end of file), takes exactly that line off the stream and leaves the rest of the buffer alone; on an error the bytes taken are in the buffer |
| `Readline.LineBuffer.Readline` | week5/unpv13e/lib/readline.c:28-49 | the same line for every size of the reads and any finite number of interrupts, off the unread bytes followed by the rest of the input |
| `Readline.LineBuffer.ReadlineR` | week5/unpv13e/server/readline_r.c:38-61 | the same, with the return values of server/readline.c |
| `Readline.LineBuffer.MyRead` | week5/unpv13e/lib/readline.c:8-26 | one byte off the front of that stream, end of file only when it is empty |
| `Readline.LineBuffer.Fill` | week5/unpv13e/server/readline_r.c:8-20 | refilling the buffer changes where the bytes are, not which come next |
| `Readline.LineBuffer.constructor` | week5/unpv13e/server/readline_r.c:27-36 | an empty buffer: the stream is the input |
| `Readline.LineBuffer.Readlinebuf` | week5/unpv13e/lib/readline.c:51-57 | exactly the unread bytes |
| `Readline.LineLength` | week5/unpv13e/server/readline.c:11-23 | a line ends at a newline, for want of room or at the end of the stream, and has no newline before |
| `Readline.ManyByByte` | week5/unpv13e/server/readline.c:4-27 | for any list of sizes and any behaviour of read, the lines stored and the stream left are Lines and Rest of the stream at the start, unless a read failed or was interrupted |
| `Readline.ManyBuffered` | week5/unpv13e/lib/readline.c:28-49 | the same for the buffered reader, whatever sizes its reads come in and however often they are interrupted; it can only fail if the descriptor does |
| `Readline.ManyReentrant` | week5/unpv13e/server/readline_r.c:38-61 | and for the reentrant one: the three agree call after call |
| `Readline.LinesPartition` | week5/unpv13e/lib/readline.c:28-49 | those lines, then what is left, make up the stream: nothing is lost, repeated or reordered |
| `Readline.CountIsLength` | week5/unpv13e/lib/readline.c:35-48 | when the count returned is the number of bytes stored, and when the two versions disagree, each as an equivalence; none is off by more than one |
| `Readline.ZeroIsEof` | week5/unpv13e/server/readline.c:16-18 | a result of 0 means end of file and only that, if there is room for a byte |
| `Readline.ReachesEof` | week5/unpv13e/lib/readline.c:35-48 | calling until 0 comes to the end after at most one call per byte |
| `Rtt.RttInfo.RttInit` | week5/unpv13e/lib/rtt.c:22-35 | the initial estimates and a timeout of 3 seconds |
| `Rtt.RttInfo.RttTs` | week5/unpv13e/lib/rtt.c:45-54 | 32 bits of the milliseconds since rtt_init |
| `Rtt.RttInfo.RttNewpack` | week5/unpv13e/lib/rtt.c:56-60 | the retransmission count, and only that, is reset |
| `Rtt.RttInfo.RttStart` | week5/unpv13e/lib/rtt.c:62-67 | the timeout to the nearest second, halves up |
| `Rtt.RttInfo.RttStop` | week5/unpv13e/lib/rtt.c:80-102 | the new estimates and the clamped timeout |
| `Rtt.StopIsUpdate` | week5/unpv13e/lib/rtt.c:85-101 | the update of section 2 of RFC 6298, for a round trip above the estimate and for one below, with the timeout clamped to 2..60 |
| `Rtt.TsIsElapsed` | week5/unpv13e/lib/rtt.c:52-53 | for the first 2^32 milliseconds a timestamp is the time since rtt_init |
| `Rtt.RttInfo.RttTimeout` | week5/unpv13e/lib/rtt.c:111-119 | the doubled timeout, and -1 after more than 3 retransmissions |
| `Rtt.RttInfo.RttMinmax` | week5/unpv13e/lib/rtt.c:12-20 | the value itself within 2..60, else the nearer bound |
| `Rtt.SamplesStayBounded` | week5/unpv13e/lib/rtt.c:79-102 | with measurements of at most R seconds `srtt` stays in 0..R, `rttvar` in 0..max(0.75, R) and the timeout in 2..60 |
| `Rtt.ConstantConverges` | week5/unpv13e/lib/rtt.c:93-99 | for a constant round trip time r, after n measurements the error of `srtt` is r (7/8)^n and `rttvar` is at most max(0.75, 2r) (7/8)^n |
| `Rtt.TimeoutConverges` | week5/unpv13e/lib/rtt.c:101-101 | and the timeout is within (4 max(0.75, 2r) + r) (7/8)^n of r clamped to 2..60 |
| `Rtt.BackOff` | week5/unpv13e/lib/rtt.c:111-119 | n expiries multiply the timeout by 2^n, with no upper bound |
| `Rtt.InBoundsAfter` | week5/unpv13e/lib/rtt.c:111-119 | after n expiries the timeout is within a bound exactly if the one it started from was within the bound divided by 2^n; it never falls below 2 seconds from one that was not |
| `Rtt.Elapsed` | week5/unpv13e/rtt/dg_send_recv.c:90-90 | the unsigned difference of two timestamps with one base is the time between them |
| `DgSendRecv.OwnEcho` | week5/unpv13e/rtt/dg_send_recv.c:32-92 | over a network that loses, duplicates, delays and reorders, in any run of at most 2^32 calls a call that succeeds has the echo of its own request, cut to the buffer, and measures the time since the very transmission echoed |
| `DgSendRecv.EchoOfCongruentCall` | week5/unpv13e/rtt/dg_send_recv.c:81-86 | without the bound: the echo of a request a multiple of 2^32 calls away |
| `DgSendRecv.SequenceNumberWraps` | week5/unpv13e/rtt/dg_send_recv.c:32-32 | the bound is tight: a run in which call 2^32 + 1 takes a delayed reply to the first call for its own |
| `DgSendRecv.EffortIsBounded` | week5/unpv13e/rtt/dg_send_recv.c:56-79 | a call sends at most 4 datagrams and sets the alarm for at most 900 seconds in all; it gives up only after 4 datagrams and at least 30 seconds |
| `DgSendRecv.SendsAreTold` | week5/unpv13e/rtt/dg_send_recv.c:60-61 | the numbers of datagrams in the outcomes add up to the datagrams sent in the run |
| `DgSendRecv.LongestCall` | week5/unpv13e/rtt/dg_send_recv.c:56-79 | those 900 seconds are reached: a run whose third call sets the alarm to 60, 120, 240 and 480 seconds and gives up |
| `DgSendRecv.FirstTimeout` | week5/unpv13e/rtt/dg_send_recv.c:26-63 | every call starts with a timeout of 2 to 60 seconds although doubling is not clamped |
| `DgSendRecv.StepKeepsInv` | week5/unpv13e/rtt/dg_send_recv.c:32-92 | one step, the expiry of the alarm between match and alarm(0) included, keeps sequence numbers, timer, match and outcomes |
| `DgSendRecv.StepKeepsTimer` | week5/unpv13e/lib/rtt.c:111-119 | datagrams sent, expiries and timeout stay in step |
| `DgSendRecv.FinishOutcome` | week5/unpv13e/rtt/dg_send_recv.c:86-92 | the reply that ends the loop makes a right outcome |
| `DgSendRecv.Client.constructor` | week5/unpv13e/rtt/dg_send_recv.c:7-13 | the initial state |
| `DgSendRecv.Client.DgSendRecv` | week5/unpv13e/rtt/dg_send_recv.c:18-93 | the whole function is a run of the transition relation that adds one outcome to the log and returns what that outcome says |
| `DgSendRecv.Client.Begin` | week5/unpv13e/rtt/dg_send_recv.c:26-54 | a new sequence number, and a fresh estimator after a failure |
| `DgSendRecv.Client.SendAgain` | week5/unpv13e/rtt/dg_send_recv.c:56-63 | a new timestamp, a datagram sent, the alarm set |
| `DgSendRecv.Client.Await` | week5/unpv13e/rtt/dg_send_recv.c:81-86 | the receive loop ends with a matching reply or the alarm, and runs the transition relation |
| `DgSendRecv.Client.Recvmsg` | week5/unpv13e/rtt/dg_send_recv.c:82-86 | short datagrams and other sequence numbers are passed over |
| `DgSendRecv.Client.Expired` | week5/unpv13e/rtt/dg_send_recv.c:68-79 | retransmit or give up |
| `DgSendRecv.Client.Stop` | week5/unpv13e/rtt/dg_send_recv.c:88-92 | the measurement uses the timestamp echoed |
| `AddrInfo.GaPort` | week5/unpv13e/libgai/ga_port.c:29-65 | the walk over the growing list ends, returns the hits, and leaves each original with its clone and port, each other entry of the kind with its port, and the rest as they were; every node still has an address of its own; -1 exactly if an allocation failed, with a list that can be freed |
| `AddrInfo.PassIsPassed` | week5/unpv13e/libgai/ga_port.c:37-63 | one pass, field by field and place by place: the port is stored exactly for a hit or a clone, with the host kept |
| `AddrInfo.GaClone` | week5/unpv13e/libgai/ga_clone.c:8-30 | the copy is linked behind the original without AI_CLONE and with an address of its own; NULL exactly if an allocation failed, and if it was the one for the address the node is in the list without one |
| `AddrInfo.CloneBehind` | week5/unpv13e/libgai/ga_clone.c:13-29 | cloning keeps links, ownership and all other entries |
| `AddrInfo.Turn` | week5/unpv13e/libgai/ga_port.c:37-63 | one turn of the loop: clone and fill, fill, or pass over; the walk goes on behind the clone, and stops exactly if a clone was needed and an allocation failed |
| `AddrInfo.FillIn` | week5/unpv13e/libgai/ga_port.c:47-62 | the kind of socket is stored, the port too for IPv4 and IPv6, and nothing else of this or any other entry changes |
| `AddrInfo.PassesGroup` | week5/unpv13e/libgai/ga_port.c:8-26 | after passes for k different nonzero kinds of socket t1..tk every original is a run t1, tk, ..., t2, each entry with the host of the original and the port of its own pass, and every pass found each original once |
| `AddrInfo.Group` | week5/unpv13e/libgai/ga_port.c:13-17 | what such a run is, entry by entry |
| `AddrInfo.GroupGrows` | week5/unpv13e/libgai/ga_port.c:20-25 | a pass for one more kind takes a run to the longer run, with one hit |
| `AddrInfo.PassAppend` | week5/unpv13e/libgai/ga_port.c:37-63 | a pass treats the parts of a list independently |
| `AddrInfo.GaServ` | week5/unpv13e/libgai/ga_serv.c:8-57 | makes the passes the service calls for, and returns 0 if they found anything, EAI_NONAME or EAI_SERVICE if not, EAI_MEMORY exactly if an allocation failed |
| `AddrInfo.ServiceGroups` | week5/unpv13e/libgai/ga_serv.c:16-55 | for a list as ga_aistruct makes it: nothing is found exactly if the service has no port for the kind asked for, and otherwise every address has its run |
| `AddrInfo.PortsOfService` | week5/unpv13e/libgai/ga_serv.c:16-48 | exactly which kinds of socket get which port: a number is the port of both kinds or of the one named, a name has the ports looked up for TCP and for UDP; TCP comes first |
| `AddrInfo.GaAistruct` | week5/unpv13e/libgai/ga_aistruct.c:8-88 | appends the new entry (AI_CLONE exactly if no kind of socket was named); EAI_MEMORY exactly if an allocation failed, with a list that can be freed |
| `AddrInfo.Append` | week5/unpv13e/libgai/ga_aistruct.c:16-19 | linking at the end through the pointer to the last link, or to the head of an empty list |
| `AddrInfo.Freeaddrinfo` | week5/unpv13e/libgai/freeaddrinfo.c:4-19 | frees every node, address and name of the list, each once, uses nothing after it is freed, and frees nothing else |
| `AddrInfo.Getaddrinfo` | week5/unpv13e/libgai/getaddrinfo.c:132-166 | end to end, node by node: every address found, for every kind of socket of the service, with that kind's port, in memory only the list owns; or the right error with nothing left allocated; EAI_MEMORY exactly if an allocation failed |
| `AddrInfo.AnswerFields` | week5/unpv13e/libgai/getaddrinfo.c:132-161 | family, host, protocol, kind of socket and port of every entry of the answer |
| `AddrInfo.AddAll` | week5/unpv13e/libgai/getaddrinfo.c:132-137 | one entry per address, in order; EAI_MEMORY exactly if an allocation failed |

## Left out

- Rtt: C's float and double are real numbers, so rounding is not modelled.
- DgSendRecv: the alarm is set for at least two seconds, so it is taken not to expire
  before sigsetjmp; the debug output is left out; the server echoes whole datagrams and
  nobody else sends a datagram of eight bytes or more to the socket.
- Readline: the static buffer of lib/readline.c is shared by all descriptors; the model
  binds it to one. Text written to a file behind the reader's back is not modelled.
- Readline.LineBuffer.ReadlineR: the buffer and size that readline_rinit saves are
  parameters of each call.
- AddrInfo: canonical names are freed but never set, the Unix-domain branch and the
  lookup of names, addresses and services are left out (their results are parameters);
  a numeric service too large for an int, undefined in C, is read as its low 16 bits.
- AddrInfo.Getaddrinfo: starts after the checks of hints and after the host's addresses
  are known, all of them IPv4 or IPv6; when it fails, the copy of a canonical name made
  before is not part of the memory accounted for.
- UdpWrite: the layout of struct udpiphdr and struct ip comes from system headers that
  are not part of the repository; it is the 28-byte layout of RFC 791 and RFC 768. The
  Solaris branch and sendto are left out.
- ThreadPool: creating threads, the SIGINT summary, and the inside of web_child.
- Dispatcher: forking, children that end, descriptors that fail to pass, and the SIGINT
  handler.
- SelectServer: descriptors of FD_SETSIZE and above (undefined for fd_set), short writes
  of the echo, and errors of system calls.
- SigioEcho: datagrams longer than a buffer, errors other than EWOULDBLOCK, and SIGHUP.
- Relay: signals, and errors of system calls beyond ending the program.
- BoundedBuffer: the printing, and errors of the thread library.
- Inet4, Inet6: the dispatch on the address family.
- Programs not modelled: the remaining clients, servers, multicast, SCTP, raw-socket,
  XTI and routing examples and the weekly exercises are system calls and printing; the
  natural claims about threads/web03.c, tcpservpoll01.c and icmpd do not hold of them.
