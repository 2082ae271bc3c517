# Verified models of the Inferno runtime

Inferno is an operating system that can run hosted on another one.  Its Dis virtual machine is compiled
to native code, its processes talk over typed channels, its resources are reached by the 9P protocol, and a
small C library underneath does locking, buffered I/O, text and graphics.  This project models twelve of these
pieces in Dafny and proves what each is for.

| files | what is modelled | what is proved |
|---|---|---|
| `Codes`, `HashChains`, `MatchWindow`, `Compressor`, `BlockLoader` | the sliding-window image compressor and the loader of compressed blocks | every image that is written decodes to itself, and the codes of a block are those of the greedy longest match |
| `Arm64`, `Dis`, `DisEffects`, `Jit`, `JitOperands`, `JitSimulation`, `JitRuns`, `JitSched` | the two-pass compiler from Dis to ARM64, with an instruction-level ARM64 machine | the native code does every run of the program, each instruction with its effect in plain numbers, whatever quanta the scheduler deals out and whatever registers it resumes with, and gives the processor back in time |
| `CaseTables` | the jump tables those two passes mark, relocate and restore | every shared table is relocated exactly once and nothing else changes |
| `Locks` | queued and reader/writer locks, one atomic step at a time, any number of processes | exclusion, no lost wakeup, first come first served and no deadlock on every interleaving; a try fails only when it must, and a free lock is had |
| `ChannelQueues`, `Alts`, `AltRuns`, `AltCases`, `AltLedger`, `AltCode` | channel queues and `alt` | an alt that lists no channel on both sides is the one send or receive it picks; on any run that follows no nil pointer no queue has a stale or missing entry, no partner is missed, and what is sent is received or still in the buffer; it is said exactly when a step follows one |
| `NineFields`, `NineP`, `NineCodec`, `NineDecode`, `NineStat`, `NineLayout` | the 9P message and directory codecs, in place on byte arrays | every field stands at its byte, the decoder accepts exactly the messages the format allows, and undoes the encoder |
| `BioRead`, `BioWrite` | buffered input and output | what is delivered is the file and all of it that could be read, what goes out is what was written, in order |
| `CleanName` | path cleaning, in place | the result names the same place, is a fixed point, is no longer unless the name was empty, and names a device exactly if the name stayed inside one |
| `Qsort` | the quicksort, in place | a sorted permutation, whatever the comparison does when it is no order |
| `Runes` | UTF-8 | encoding and decoding undo each other exactly on valid text |
| `Tokenize`, `Quote`, `QuoteTokens` | quoting and splitting of fields | splitting undoes quoting, and how far a printed size is from the predicted one |
| `FontCache` | the hashed character cache of a font | a slot handed out holds its character with its width, the width of a string is that of its glyphs, and nothing moves under a caller; it is said exactly when it does not show the glyph, and exactly when the search for one does not end |

Code that changes state is a class or a method over arrays, proved against a function of its inputs; the
properties are lemmas about that function.  `dafny verify dfyconfig.toml` covers everything.

## Findings

Properties the source was expected to have and has not.  Each row names an input for which it fails and the exact
condition under which it holds.

| source | what fails | input | it holds exactly when | members |
|---|---|---|---|---|
| libinterp/alt.c:103-158, libinterp/alt.c:215-276 | The ways counted while marking and the ways counted when one is picked are the same ways, so an alt takes a way that was ready before it began. | An alt that sends and receives on channel 0, on which program 7 waits to receive, and receives on channel 1, on which program 9 waits to send; the alt then receives from itself. The situation is one the channels can be in. | no channel stands on both sides of the alt | `AltRuns.TalksToItself`, `AltRuns.EchoGood`, `AltRuns.EchoIffBothSides`, `Alts.CountsAgree` |
| libinterp/alt.c:164-209, libinterp/alt.c:292-320, libinterp/xec.c:938-956 | Taking the marks of an alt back leaves every queue with a node. | Two. An alt that does not block and receives twice on one channel nobody waits on. And an alt that receives twice on channel 0 and once on channel 1, where program 2 waits in an alt that sends on 1 and receives on 0: program 2 leaves channel 0 as it is woken. | with an error, or with nothing ready and no blocking: no queue nobody waits on got two marks. If it parks: always. If it takes a way: it has two marks left on no queue where nobody waits but the partner it meets, and that partner's own alt has two left on no queue where only the partner stands and the alt has no mark. If a parked alt is woken: it has two marks left on no queue where it stands alone. In particular always, while no alt lists a channel twice on one side. | `AltRuns.XecaltCrashes`, `AltRuns.WakeCrashes`, `AltRuns.CrashesFromStart`, `AltRuns.TwiceCrashes`, `AltRuns.PartnerLeaves`, `AltRuns.OnceNever` |
| libbio/brdline.c:5-87 | A call that finds no line moves past nothing. | A buffer of one byte, any file of two or more bytes without the delimiter, two reads and two put-backs: the call loses a byte. | the bytes in the buffer are at most `bsize`; otherwise what is lost is their number less `bsize` | `BioRead.LosesByte`, `BioRead.Biobuf.Brdline` |
| libbio/bwrite.c:5-42 | A call that fails leaves what the caller had put where it was. | A buffer of one byte that holds one, and a write of two bytes, of which the descriptor takes one byte and then none. | what is written fits in the room left, where the call does not fail; or the buffer is inactive, or the descriptor takes nothing at the first request | `BioWrite.Displaced`, `BioWrite.Biobuf.Bwrite` |
| libinterp/comp-aarch64.c:855-882 | Undoing the marks of a failed compilation gives back the module's data. | A case table whose count is -1: it comes back as 0. | no case table had a negative count | `CaseTables.NegativeCountLost`, `CaseTables.UndoneIff` |
| lib9/cleanname.c:8-62 | The cleaned name fits where the name was. | The empty string, which becomes "." and needs two bytes of storage where one held it. | the name is not empty | `CleanName.CleanShorter` |
| lib9/rune.c:129-148 | `runenlen` predicts what `runetochar` writes. | The rune 0x110000: four are counted and three written. | no rune is above 0x10FFFF | `Runes.CountsTooMany`, `Runes.BeyondIff` |
| lib9/fmtquote.c:31-178 | The size predicted for a string is the size printed, quoted or not. | The bytes 20 80 61 61 61 print two longer than predicted in quotes, and 80 61 61 61 two longer without; the bytes 20 E2 print one shorter. | two more bytes for every bad byte printed are as many as the cost of what is broken off at a truncated end; in particular for valid UTF-8 | `Quote.LongerThanPredicted`, `Quote.LongerUnquoted`, `Quote.ShorterThanPredicted`, `Quote.PrintedSize` |
| libdraw/font.c:182-275 | The search for the glyph of a character ends. | A font of one line, for the runes 0 to 10, with an offset of 1 and an empty subfont, and rune 5. | the search does not come to rune 0, or there is no line for rune 0, or the first one has no subfont to be had, or has a glyph for rune 0, or an offset of 0. Then it ends in two rounds. | `FontCache.SearchLoops`, `FontCache.Font.SpinsIff`, `FontCache.Font.EndsSoon`, `FontCache.Font.EndsAlways` |
| libdraw/font.c:291-315 | A slot shows the character it is marked with. | A new font of 69 slots: slot 17 is loaded with rune 1, and later the display refuses to draw rune 65 over it. | the draw is not refused, or the slot was unused or already held that glyph | `FontCache.ClaimedNotDrawn`, `FontCache.Font.Draw`, `FontCache.Font.LoadChar` |
| libdraw/font.c:276-288, libdraw/font.c:346-366 | A glyph drawn into a slot is in the image. | 69 slots of width 5; the image for a glyph of width 10 is refused, but the width is raised all the same. A glyph of width 8 is then drawn into slot 51, behind the edge. | the slot's number times the width, plus the glyph's width, is no more than the width of the image; so always while no request for an image has been refused | `FontCache.PastTheEdge`, `FontCache.Font.Draw`, `FontCache.Font.Fit`, `FontCache.Font.LoadChar` |
| lib9/convM2S.c:6-22 | A caller reading a decoded string up to its terminator sees the string that was sent. | A string with a zero byte inside. | the string has no zero byte | `NineDecode.SeenWhole` |

## Model

| member | source | states |
|---|---|---|
| Codes.DecodeLiteral | libdraw/writeimage.c:119-128 | A run of 1 to 128 bytes behind its length code decodes to those bytes. |
| Codes.DecodeCopy | libdraw/writeimage.c:139-143 | The two bytes of a copy decode to that length at that distance, for every length and distance in range. |
| Codes.RepeatMatch | libdraw/writeimage.c:96-143 | Copying from an equal stretch further back gives the data, overlapping or not. |
| Codes.TwiddleCompressed | libdraw/computil.c:10-25 | In place, exactly the bytes of literal runs are complemented. |
| Codes.TwiddleComplements | libdraw/computil.c:10-25 | Twiddled codes decode to the complement of the image, with complemented history. |
| Codes.DecodedIsWhole | libdraw/computil.c:10-25 | Codes that decode consist of whole runs, as twiddling needs. |
| BlockLoader.CloadMemImage | libmemdraw/cload.c:6-67 | The loader, with its 1024-byte ring, uses just the codes that fill the given lines, and answers -1 exactly if the codes end before or one crosses the end of a line. Where the codes used decode, it yields the decoded pixels, and a complete block is used up. |
| HashChains.Evict | libdraw/writeimage.c:146-147 | Unlinking the slot about to be reused leaves every hash chain linked through just the younger positions. |
| HashChains.Push | libdraw/writeimage.c:148-153 | Linking a free slot in front of a list leaves every chain in order of age and both link directions consistent. |
| MatchWindow.Window.Search | libdraw/writeimage.c:94-117 | The search of one chain, with its tail-first comparison, returns the best match of the chain, up to the longest allowed. |
| MatchWindow.Window.File | libdraw/writeimage.c:145-155 | Filing a position keeps the chains equal to the last 1024 positions by hash. |
| Compressor.HashForgets | libdraw/writeimage.c:83-84 | The rolling hash depends on the last three bytes alone. |
| Compressor.HashRolls | libdraw/writeimage.c:156-157 | One update moves the hash from one position to the next. |
| Compressor.ChainIsEnough | libdraw/writeimage.c:94-117 | A match of three bytes or more lies on the chain searched, so no longer one is missed in the window. |
| Compressor.Encoder.Choose | libdraw/writeimage.c:90-117 | The match coded lies in the window, equals the data, and no position of the window has a longer one, when it is three bytes or more. |
| Compressor.Encoder.Pick | libdraw/writeimage.c:90-144 | What is coded next is a longest match or one literal byte, never past the line; a literal only where there is no match of three bytes or more. |
| Compressor.Output.Emit | libdraw/writeimage.c:118-144 | What is buffered and emitted always decodes to the data consumed and is the greedy choice throughout, or the buffer cannot take a worst-case line. |
| Compressor.Encoder.EncodeLine | libdraw/writeimage.c:87-169 | A line is coded whole within the bound, or the codes of the lines before it are untouched. |
| Compressor.Encoder.EncodeBlock | libdraw/writeimage.c:78-178 | A block holds whole lines, always at least one, stops only when another worst-case line would not fit, and decodes to its lines from an empty window. Read from the front, each copy in it is a longest match within window and line, and no byte is literal that begins a match of three bytes. |
| Compressor.LineFits | libdraw/computil.c:28-37 | The block size is enough for the worst coding of one line. |
| Compressor.WriteImage | libdraw/writeimage.c:69-185 | Writing ends, does not fail, and its blocks restore the image with no line lost, repeated or out of order. |
| Compressor.RoundTrip | libdraw/writeimage.c:77-179 | Decoding the blocks one by one gives back the stretch of the image they cover. |
| Compressor.WholeImage | libdraw/writeimage.c:77-179 | Decoding all blocks gives back the whole image. |
| Compressor.BlockLoads | libmemdraw/cload.c:6-67 | Every block written meets what the loader asks of its codes. |
| Arm64.CompareMeans | libinterp/comp-aarch64.c:710-717 | After a 32-bit compare the six condition codes are the signed and equality relations of the operands. |
| DisEffects.ExecuteMeans | libinterp/xec.c:47-103 | Each instruction of the interpreter has the effect stated byte by byte: the word at the destination is middle + source, middle - source and so on modulo 2^32, or bit by bit, and every other byte is as it was; a branch goes by the signed comparison of source and middle. |
| DisEffects.EffectDetermines | libinterp/xec.c:47-103 | What has that effect agrees with the interpreter in every register and byte. |
| Jit.SameLength | libinterp/comp-aarch64.c:1501-1597 | The code of an instruction has the same length whatever destinations and position are patched in, so both passes agree. |
| Jit.Compile | libinterp/comp-aarch64.c:1501-1597 | The two passes never disagree on the size, each instruction's code stands at the address recorded in the first pass, and the result is the whole code. |
| Jit.CodeEncodable | libinterp/comp-aarch64.c:1162-1436 | In a module of at most 0x40000 native instructions every field of every instruction emitted fits its encoding. |
| JitOperands.ConLoads | libinterp/comp-aarch64.c:337-343 | The four-instruction constant puts any 64-bit value in the register and changes nothing else. |
| JitOperands.LoadLoads | libinterp/comp-aarch64.c:362-413 | A load at any displacement, by any of the addressing forms, loads from that address. |
| JitOperands.StoreStores | libinterp/comp-aarch64.c:362-413 | A store at any displacement stores there and changes no register but the scratch one. |
| JitOperands.OpxLoads | libinterp/comp-aarch64.c:440-472 | The code for a source operand loads the interpreter's value of it. |
| JitOperands.OpxStores | libinterp/comp-aarch64.c:440-472 | The code for a destination stores at the interpreter's address of it. |
| JitOperands.MidLoads | libinterp/comp-aarch64.c:488-509 | The code for the middle operand loads the interpreter's value of it, the destination's when there is none. |
| JitSimulation.MovSimulates | libinterp/comp-aarch64.c:1162-1436 | The code of a word move does what the interpreter does: in the machine's memory the word at the destination is the source, and no other byte outside the virtual machine's registers has changed. |
| JitSimulation.ArithSimulates | libinterp/comp-aarch64.c:969-975 | The code of word add, subtract, and, or, exclusive or and multiply does what the interpreter does: in the machine's memory the word at the destination is the sum, difference (middle less source), product or bitwise result modulo 2^32, and no other byte outside the virtual machine's registers has changed. |
| JitSimulation.CompareSimulates | libinterp/comp-aarch64.c:710-717 | The code of a word comparison sets flags on which the branch goes just when the source stands in that relation to the middle operand, as signed numbers. |
| JitSimulation.CheckPasses | libinterp/comp-aarch64.c:610-618 | With a counter above one the check counts one down and goes on. |
| JitSimulation.CheckYields | libinterp/comp-aarch64.c:610-618 | Otherwise the check reaches the reschedule macro with the address after the check in the link register. |
| JitRuns.Simulates | libinterp/comp-aarch64.c:1162-1436 | From the code of any instruction of the subset the machine reaches the code of the instruction the interpreter does next, with its memory and registers. |
| JitRuns.Resumes | libinterp/comp-aarch64.c:620-633 | Going on behind the check does the branch itself. |
| JitSched.Yields | libinterp/comp-aarch64.c:559-633 | A yield leaves the branch undone, saves the frame pointer and resumption address, restores the caller's registers and returns to the address in R.xpc. |
| JitSched.Resumed | libinterp/comp-aarch64.c:1442-1468 | Dispatching a parked program, from any registers, brings the machine behind the check with the interpreter's state and the new quantum, and keeps what the dispatcher is owed. |
| JitSched.InterpreterRuns | libinterp/xec.c:47-103 | The interpreter's own runs are such runs. |
| JitSched.CompiledRuns | libinterp/comp-aarch64.c:1501-1597 | For every program, every sequence of quanta and dispatcher registers, and every run in which each instruction has its effect, the compiled module can be found after any number of instructions at the code of the next one, with the run's registers and memory, having passed through the scheduler any number of times. |
| JitSched.ReturnsInTime | libinterp/comp-aarch64.c:610-633 | With counter ic > 0 the machine returns to the scheduler after at most ic times the program's length, less the position, Dis instructions, parked at a backward branch with all before it done. |
| CaseTables.Compiler.ComCase | libinterp/comp-aarch64.c:761-842 | The first pass marks a count once; the second restores it and relocates exactly the destinations, only if it is marked. |
| CaseTables.Compiler.ComGoto | libinterp/comp-aarch64.c:745-758 | The second pass relocates as many destinations as the count says and sets the count to 0. |
| CaseTables.Compiler.First | libinterp/comp-aarch64.c:1516-1525 | The first pass ends with the count of each case table marked, however many instructions share it, and nothing else changed. |
| CaseTables.RelocatedFresh | libinterp/comp-aarch64.c:745-842 | At the first instruction of a table the relocated part grows by that table. |
| CaseTables.RelocatedAgain | libinterp/comp-aarch64.c:745-842 | At another instruction of a table seen before it stands as it is. |
| CaseTables.Compiler.Comp | libinterp/comp-aarch64.c:745-842 | One instruction of the second pass takes the tables of the first k instructions to those of k + 1. |
| CaseTables.Compiler.Second | libinterp/comp-aarch64.c:1545-1561 | The second pass from marked tables ends with all of them relocated. |
| CaseTables.Compiler.Uncase | libinterp/comp-aarch64.c:855-882 | Each case count that is negative is complemented and nothing else changes. |
| CaseTables.Compiler.Compile | libinterp/comp-aarch64.c:1501-1597 | Compiling relocates all tables, or fails and leaves the module's data as it was. |
| CaseTables.TableDone | libinterp/comp-aarch64.c:745-842 | After compiling, a case count is back, a goto count is 0, and each destination is the native address of its instruction, relocated once. |
| CaseTables.TableWords | libinterp/comp-aarch64.c:745-842 | In numbers: with n entries the words at + 3 + 3i and at + 1 + 3n, or at + 6 + 6i and at + 2 + 6n, or the n words of a goto, are relocated once. |
| CaseTables.NothingElse | libinterp/comp-aarch64.c:745-842 | After compiling, every word that is no destination and no goto count is unchanged. |
| CaseTables.UndoneIff | libinterp/comp-aarch64.c:855-882 | Undoing the marks restores the data if and only if no count was negative. |
| CaseTables.NegativeCountLost | libinterp/comp-aarch64.c:855-882 | A count of -1 comes back as 0. |
| Locks.KeepsInv | lib9/lock.c:41-141 | Every atomic step of every process keeps the invariant of the three queued locks, the reader count and the wakeups. |
| Locks.Starts | lib9/lock.c:41-141 | The invariant holds before anybody has done anything. |
| Locks.RunsKeep | lib9/lock.c:41-141 | It holds after every interleaving. |
| Locks.Exclusion | lib9/lock.c:96-141 | On every interleaving of any number of processes a writer is alone, and the plain lock has one owner at most. |
| Locks.WriterAlone | lib9/lock.c:130-141 | While one process writes no other reads or writes. |
| Locks.KeptForReaders | lib9/lock.c:96-127 | Outside the counter's critical section the write lock is held for the readers exactly while there are some, and the counter is their number. |
| Locks.TriesAlone | lib9/lock.c:108-118 | When a reader tries the write lock nobody else uses its spin lock. |
| Locks.TriesK | lib9/lock.c:108-118 | So that try fails only if it should: exactly when other readers are in. |
| Locks.TriesXM | lib9/lock.c:62-75 | A try on the writers' or the plain lock fails exactly if another process is in the lock's critical section at the try, or has the lock at the test; otherwise the caller has it. |
| Locks.TakesFree | lib9/lock.c:41-135 | Every routine that takes a lock, blocking or not, called on a free one while nobody else moves, comes back with it: reading, writing or owning. |
| Locks.TryFails | lib9/lock.c:62-116 | A try on a lock that is taken, or in use, comes back with nothing. |
| Locks.OneOwner | lib9/lock.c:41-93 | A queued lock has at most one owner, hand-offs under way included. |
| Locks.NoneLost | lib9/lock.c:41-93 | A process that has gone to sleep is on the queue of a held lock, or has been made its owner and has its wakeup, posted or in the hands of one waker. |
| Locks.UnlockedEmpty | lib9/lock.c:77-93 | A free lock has nobody waiting. |
| Locks.InTurn | lib9/lock.c:41-93 | A new owner is the first of the queue, or takes a lock on which nobody waited. |
| Locks.FirstComeFirstServed | lib9/lock.c:41-93 | On every run those handed the lock, followed by those still waiting, are those who waited at first followed by those who came, in order. |
| Locks.ServedInOrder | lib9/lock.c:41-93 | From the start, the lock is handed on in the order of arrival. |
| Locks.AuxiliaryOnly | lib9/lock.c:41-141 | The owner, queue and grant fields added for the proofs never influence a step. |
| Locks.UnblockedMoves | lib9/lock.c:41-141 | A busy process stands still exactly when it is at a taken spin lock or an empty semaphore. |
| Locks.NoDeadlock | lib9/lock.c:41-141 | Whenever some process is busy, some busy process can move, whatever the others do. |
| ChannelQueues.Added | libinterp/xec.c:907-923 | Adding puts a program behind all that wait. |
| ChannelQueues.Removed | libinterp/xec.c:925-936 | Deleting takes the first of those that wait. |
| ChannelQueues.Dropped | libinterp/xec.c:938-956 | Deleting by program removes all its entries, and leaves no node at all exactly when two or more nodes were all its own. |
| Alts.Marked | libinterp/alt.c:46-67 | Marking adds the program to the end of each queue as often as the alt lists it there. |
| Alts.MarkedOnly | libinterp/alt.c:46-67 | It touches no other queue, and no buffer. |
| Alts.Unmarked | libinterp/alt.c:73-96 | Unmarking leaves each queue listed without the program, each other queue alone. |
| Alts.ReadyAfter | libinterp/alt.c:103-158 | The marks make a channel ready for the alt's own receives exactly where it also sends. |
| Alts.CountsAgree | libinterp/alt.c:103-158 | The ways counted while marking are the ways counted afterwards exactly when no such channel was not ready before. |
| Alts.Crashes | libinterp/alt.c:164-209 | Unmarking follows a nil pointer exactly when some listed queue is two or more nodes of the program alone. |
| AltRuns.NthPicked | libinterp/alt.c:215-276 | The way picked is the one with that many ready ways before it, and there is one exactly below the count. |
| AltRuns.WakeCrashes | libinterp/alt.c:164-209 | Waking the first program of a queue follows a nil pointer exactly when that program is in an alt with two marks left on a queue where it stands alone. |
| AltRuns.WakeKeeps | libinterp/xec.c:957-1032 | Otherwise the world is good after it: every queue has just the programs that stand on it, and no partner is missed. |
| AltRuns.CommKeeps | libinterp/xec.c:957-1032 | A send or receive keeps the world good: queues, states and buffers agree, and no program waits where it could go on. It follows a nil pointer exactly if it wakes a partner whose wakeup does. |
| AltRuns.PartnerTold | libinterp/alt.c:164-209 | A program woken out of any alt, unless a nil pointer is followed, learns one of its own entries, for that channel and side, and is on no queue any more. |
| AltRuns.Restored | libinterp/alt.c:103-209 | For every alt, marking and then unmarking gives back every queue, or follows a nil pointer, exactly when a quiet queue was marked twice. |
| AltRuns.AltIsComm | libinterp/alt.c:292-320 | An alt that lists no channel on both sides, and finds a way ready, is the plain send or receive on one way that was ready before, in its effect on every program and channel, where neither follows a nil pointer; channels listed twice on one side included. |
| AltCases.CasesNumbered | libinterp/alt.c:164-209 | The ways of an alt are exactly its entries that are no nil, sends first, each under its own number, elements of an array each at its index. |
| AltCases.CasesDiffer | libinterp/alt.c:164-209 | Ways of different entries have different numbers. |
| AltCases.MissedMeans | libinterp/alt.c:300-314 | An alt that does not block and finds nothing ready is told the number of its entries, which is above the number of every way. |
| AltCases.TookMeans | libinterp/alt.c:215-276 | An alt that takes a way takes the one with as many ready ways before it as the random number says, and is told the number of its entry. |
| AltCases.AnyWay | libinterp/alt.c:316-318 | Each ready way of an alt with disjoint sides is taken for some random number. |
| AltCases.ErrorMeans | libinterp/alt.c:103-158 | An alt fails exactly if an entry is nil or sends where the alt itself is the first to receive; which error is told is that of the last wrong send entry. |
| AltLedger.StepLedger | libinterp/xec.c:957-1032 | A step adds to a channel's buffer what it sends less what it receives, partners included. |
| AltLedger.RunLedger | libinterp/xec.c:957-1032 | On every run, alts included, a buffer holds what has been sent and not received, never more than it can; without a buffer as much has been received as sent. |
| AltRuns.ParkKeeps | libinterp/alt.c:292-320 | Any alt that finds nothing ready and blocks parks, and the world stays good. |
| AltRuns.XecaltCrashes | libinterp/alt.c:292-320 | In every good world every alt follows a nil pointer exactly under the condition given above, with an error, without a way, parked, or with a way taken; and the way counted is always found. |
| AltRuns.TakenKeeps | libinterp/alt.c:292-320 | An alt that takes a way and follows no nil pointer, one that talks to itself included, keeps the world good. |
| AltRuns.StepKeeps | libinterp/alt.c:292-320 | Every send, receive and alt, whatever it lists, keeps the world good or follows a nil pointer, exactly under the condition stated. |
| AltRuns.RunsKeep | libinterp/alt.c:292-320 | Every state of every run of any programs is good, as long as no nil pointer is followed. |
| AltRuns.OnceNever | libinterp/alt.c:292-320 | While no alt lists a channel twice on one side no step ever follows a nil pointer. |
| AltRuns.Fresh | libinterp/xec.c:895-904 | Channels just made, buffered or not, are a good world. |
| AltRuns.EchoIffBothSides | libinterp/alt.c:103-158 | The counts of an alt agree exactly when it receives on no channel it sends on. |
| AltRuns.EchoGood | libinterp/alt.c:292-320 | The channels of the echo example belong to a good world. |
| AltRuns.TalksToItself | libinterp/alt.c:215-276 | In it the second way picked receives from the alt itself. |
| AltRuns.MadeListed | libinterp/alt.c:103-158 | The marks made are at most those listed, and all of them when there is no error. |
| AltRuns.CrashesFromStart | libinterp/alt.c:103-209 | Taking the marks back right after making them, on the error path too, crashes exactly when some side of a channel nobody waits on was marked twice; without an error, listed twice. |
| AltRuns.TwiceCrashes | libinterp/alt.c:164-209 | Receiving twice on one quiet channel crashes if the alt does not block, and parks if it does. |
| AltRuns.PartnerLeaves | libinterp/alt.c:292-320 | In a good world an alt that receives twice on a channel where somebody waits takes its third way and crashes, as the partner it wakes there was the one who waited. |
| AltCode.Scheduler.CqAdd | libinterp/xec.c:907-923 | The loop over nodes adds behind the last one, or fills the empty one. |
| AltCode.Scheduler.CqDelP | libinterp/xec.c:938-956 | The loop over nodes unlinks every node of the program. |
| AltCode.Scheduler.AltMark | libinterp/alt.c:46-67 | The loop over an array of channels marks them all and counts the ready ones. |
| AltCode.Scheduler.AltRdy | libinterp/alt.c:103-158 | The two marking loops give the marked channels, the count and the error; on an error the marks are taken back. |
| AltCode.Scheduler.AltUnmark | libinterp/alt.c:73-96 | The loop unmarks each channel and tells the program the first entry that matches. |
| AltCode.Scheduler.AltDone | libinterp/alt.c:164-209 | All marks are taken back and the chosen entry is told. |
| AltCode.Scheduler.AltComm | libinterp/alt.c:215-276 | The loops find the way with that number, and communicate on it. |
| AltCode.Scheduler.Isend | libinterp/xec.c:957-990 | Sending is the send side of the communication the run theorems are about. |
| AltCode.Scheduler.Irecv | libinterp/xec.c:992-1032 | Receiving is its receive side. |
| AltCode.Scheduler.Xecalt | libinterp/alt.c:292-320 | The whole operation is the alt step the run theorems are about. |
| NineFields.FieldAt | lib9/convM2S.c:50-314 | A field of each kind stands at a place exactly if reading that kind there gives it. |
| NineFields.AllAt | lib9/convM2S.c:50-314 | So do lists of fields. |
| NineP.ShapeOf | include/fcall.h:8-61 | Each message type has one list of field kinds. |
| NineP.FieldsDetermine | include/fcall.h:8-61 | Type and fields determine the message. |
| NineLayout.MessageLaid | lib9/convS2M.c:193-385 | For every message type: size, type number, tag and each field stand at their bytes, little-endian, strings behind their lengths. |
| NineP.ParsesExactly | lib9/convM2S.c:50-314 | Parsing a buffer gives a message if and only if the message is well formed and its encoding is how the buffer begins. |
| NineP.NoConfusion | lib9/convS2M.c:193-385 | No encoded message is a prefix of another, and no two messages have one encoding. |
| NineCodec.SizeS2M | lib9/convS2M.c:48-190 | The size announced is the length of the encoding, for every message type. |
| NineCodec.Writer.PString | lib9/convS2M.c:6-22 | A string goes out as its length and bytes, a nil one as empty. |
| NineCodec.Writer.PQid | lib9/convS2M.c:26-35 | A qid goes out as its thirteen bytes. |
| NineCodec.ConvS2M | lib9/convS2M.c:193-385 | Into any buffer: the encoding and nothing behind it, or 0 and an untouched buffer if it does not fit, or 0 for too many names. |
| NineDecode.Reader.GString | lib9/convM2S.c:6-22 | A string is accepted exactly if it ends within the buffer, moved down over its count and ended with a zero, with nothing before it changed. |
| NineDecode.Reader.GQid | lib9/convM2S.c:26-37 | A qid is read exactly if thirteen bytes are left. |
| NineDecode.ConvM2S | lib9/convM2S.c:50-314 | In place, the decoder fails exactly if the buffer parses to nothing, and otherwise returns the parsed message with every string whole and ended. |
| NineDecode.SeenWhole | lib9/convM2S.c:6-22 | A reader up to the first zero sees the string sent exactly if it has no zero byte. |
| NineDecode.RoundTrip | lib9/convS2M.c:193-385 | The encoding of a well-formed message, whatever follows it, parses to that message. |
| NineDecode.EncodeDecode | lib9/convM2S.c:50-314 | Encoding into a buffer and decoding in that buffer gives back the message. |
| NineStat.SizeD2M | lib9/convD2M.c:5-21 | The size announced for a directory entry is the length of its encoding. |
| NineLayout.StatLaid | lib9/convD2M.c:24-94 | Each field of a directory entry stands at its bytes: type at 2, device at 4, qid at 8, mode at 21, times at 25 and 29, length at 33, the four strings from 41 on. |
| NineStat.ConvD2M | lib9/convD2M.c:24-94 | The entry is written whole; into a short buffer only its count goes, and nothing into one of less than two bytes. |
| NineStat.StatCheck | lib9/convM2D.c:5-27 | The loop over four strings computes the check on the buffer. |
| NineStat.ChecksExactly | lib9/convM2D.c:5-27 | The check passes if and only if the buffer is exactly the encoding of some directory entry. |
| NineStat.ConvM2D | lib9/convM2D.c:32-93 | The decoder fails exactly if the buffer does not parse, and otherwise gives all fields, the strings ended in the caller's storage if there is one. |
| NineStat.StatRoundTrip | lib9/convM2D.c:32-93 | An encoded directory entry passes the check and decodes to itself. |
| BioRead.Biobuf.Refill | libbio/bgetc.c:12-34 | Reading more keeps the position and leaves room for the put-backs there was room for, five at most. |
| BioRead.Biobuf.Bgetc | libbio/bgetc.c:5-41 | The byte at the position is delivered and the position advances exactly if one is buffered or the next read gives some; otherwise the position stands, and a buffer that has told the end of the file may be read again. |
| BioRead.Biobuf.Bungetc | libbio/bgetc.c:44-53 | While there is room a put-back moves the position one back. |
| BioRead.Biobuf.Bread | libbio/bread.c:5-47 | The bytes delivered are the file's from the position on, none repeated or skipped; fewer than asked for only when a read gives no more; at least one if one is buffered; -1 means none and an error. |
| BioRead.Biobuf.Brdline | libbio/brdline.c:5-87 | A line returned is the file from the position through its first delimiter, and one is returned whenever a delimiter is buffered. Nil is returned only if a read gives no more, or the buffer is full and has no delimiter, and moves the position by the bytes buffered beyond `bsize` and no more. |
| BioRead.Biobuf.FirstTry | libbio/brdline.c:24-34 | The buffered bytes are searched first, and hold no delimiter if that fails. |
| BioRead.Biobuf.Append | libbio/brdline.c:43-86 | Reading behind them finds the first delimiter, or keeps all bytes for the next call, and gives up only when a read gives nothing or the buffer is full without a delimiter. |
| BioRead.Biobuf.Boffset | libbio/boffset.c:5-25 | The offset told is the position, -1 on an inactive buffer. |
| BioRead.Lines | libbio/brdline.c:5-87 | Lines read one after another are exactly the file up to the position, each with one delimiter, its last byte; reading stops only where no line can be had. |
| BioRead.LosesByte | libbio/brdline.c:5-87 | For every file of two bytes or more: from a new buffer, two reads, two put-backs and a search for a delimiter that is not there lose a byte. |
| BioWrite.Biobuf.Bflush | libbio/bflush.c:5-33 | A flush sends everything put so far, or makes the buffer inactive having sent a prefix of it. |
| BioWrite.Biobuf.Bputc | libbio/bputc.c:5-20 | A byte put goes behind all that was put, sent or not; while there is room it cannot fail and sends nothing. |
| BioWrite.Biobuf.Bwrite | libbio/bwrite.c:5-42 | It succeeds exactly if each buffer filled on the way is taken whole, so always if there is room, and then everything goes behind all that was put; after a failure a prefix has been sent, and what was put stands exactly if the buffer was inactive or the first request took nothing. |
| BioWrite.Displaced | libbio/bwrite.c:5-42 | A write of two bytes into a full buffer of one, of which one byte goes out before the failure, displaces the byte put before. |
| BioWrite.Biobuf.Boffset | libbio/boffset.c:5-25 | The offset told is the number of bytes put. |
| CleanName.OutcomeNormal | lib9/cleanname.c:24-51 | The elements that stay are no dots, no empty ones, and dot-dots only in front of a relative name. |
| CleanName.RenderElements | lib9/cleanname.c:52-60 | The cleaned text has exactly those elements. |
| CleanName.CleanTwice | lib9/cleanname.c:8-62 | Cleaning a cleaned name changes nothing. |
| CleanName.SamePlace | lib9/cleanname.c:8-62 | Walking the cleaned name from anywhere ends where walking the name does. |
| CleanName.CleanShorter | lib9/cleanname.c:8-62 | The cleaned name is no longer exactly if the name was not empty. |
| CleanName.NoNewDevice | lib9/cleanname.c:55-60 | It begins with a hash sign if and only if the name did and its elements never lead back out of the first one. |
| CleanName.GuardedIff | lib9/cleanname.c:25-60 | It begins with "./" exactly if it is relative, is not to name a device, and its first element begins with a hash sign. |
| CleanName.Backtrack | lib9/cleanname.c:33-35 | The scan back for a slash stops where the last element begins. |
| CleanName.DotDot | lib9/cleanname.c:31-44 | A dot-dot removes the last element, is dropped at the root, or is kept in front. |
| CleanName.Real | lib9/cleanname.c:45-50 | An element is copied down behind a slash without overtaking what is unread. |
| CleanName.Rewrite | lib9/cleanname.c:23-51 | The loop turns the name in place into the text of its outcome. |
| CleanName.CleanName | lib9/cleanname.c:8-62 | The array then holds the cleaned name and nothing behind both is touched. |
| Qsort.Sorter.Pivot | lib9/qsort.c:44-68 | The pivot is the median of three fixed elements, if the comparison is an order. |
| Qsort.Sorter.Scan | lib9/qsort.c:88-93 | The two scans stay in range for any comparison, and stop at elements on the wrong side. |
| Qsort.Sorter.Partition | lib9/qsort.c:78-98 | One round rearranges its range so that all before the pivot are at most it and all behind at least. |
| Qsort.Sorter.Qsorts | lib9/qsort.c:71-110 | The range is sorted and rearranged, the rest untouched; it ends for every comparison. |
| Qsort.Sorter.Qsort | lib9/qsort.c:113-123 | The array is a permutation of itself for any comparison, and sorted if it is an order. |
| Qsort.StaysPlaced | lib9/qsort.c:99-108 | Rearranging one side of a pivot leaves both sides on their side. |
| Qsort.SwapRearranges | lib9/qsort.c:15-41 | A swap inside a range rearranges it and nothing else. |
| Runes.FullRuneOf | lib9/rune.c:151-165 | Whether enough bytes are there for the rune the first one announces. |
| Runes.CharToRune | lib9/rune.c:26-72 | The loop over byte classes decodes by RFC 3629: shortest forms, no surrogates, no more than 0x10FFFF, one bad byte at a time. |
| Runes.RuneToChar | lib9/rune.c:75-116 | The loop writes the rune's encoding, that of the error rune for what is none, and nothing behind it. |
| Runes.EncodeTable | lib9/rune.c:75-116 | The bytes of a scalar value are those of the table of RFC 3629. |
| Runes.DecodeEncode | lib9/rune.c:75-116 | Every scalar value encoded decodes to itself and its length. |
| Runes.EncodeDecode | lib9/rune.c:26-72 | Every sequence decoded as good is the encoding of its rune, so there is no other. |
| Runes.FullRuneEnough | lib9/rune.c:151-165 | Bytes behind a full rune do not change what it decodes to. |
| Runes.FullRuneNeeded | lib9/rune.c:151-165 | A prefix of an encoding is full exactly if it is all of it. |
| Runes.DecodeEncodeAll | lib9/rune.c:26-116 | Decoding an encoded string of scalar values gives it back. |
| Runes.IdentityIffValid | lib9/rune.c:26-116 | Encoding a decoded byte string gives it back exactly if it is valid UTF-8. |
| Runes.RuneNLen | lib9/rune.c:129-148 | The count is the length of the encoding plus one for each rune beyond the last one. |
| Runes.BeyondIff | lib9/rune.c:129-148 | It is right exactly if there is none. |
| Runes.CountsTooMany | lib9/rune.c:129-148 | For 0x110000 it is not. |
| Tokenize.QToken | lib9/tokenize.c:6-41 | In place, a token ends up without its quotes, doubled ones single, what follows it unread. |
| Tokenize.Tokenize | lib9/tokenize.c:92-106 | The arguments are the tokens of the line, at most as many as asked for, each ended where it stands. |
| Quote.QuoteSetup | lib9/fmtquote.c:31-104 | The longest front that fits is measured exactly, and is to be quoted if one of its runes needs it, it is empty, or quotes are asked for. |
| Quote.FormIff | lib9/fmtquote.c:31-104 | A string is printed as it is exactly if it is not empty, no quotes are asked for, and none of its runes is a blank, a control character, a quote or one the caller wants quoted. |
| Quote.Fmt.PutRune | lib9/fmtdef.h:81-98 | A rune is printed whole or not at all. |
| Quote.Fmt.QStrFmt | lib9/fmtquote.c:107-178 | The loop prints the measured runes between quotes, quotes doubled, up to a truncated end. |
| Quote.Fmt.Quotestrfmt | lib9/fmtquote.c:181-218 | For valid text what is printed has the size predicted, and is the quoted form of the whole string if that fits. |
| Quote.PrintedSize | lib9/fmtquote.c:107-178 | For any bytes, quoted or not: how far the printed size is from the predicted one, and exactly when they are the same. |
| Quote.LongerThanPredicted | lib9/fmtquote.c:107-178 | With a bad byte in quotes two bytes more are printed than predicted. |
| Quote.LongerUnquoted | lib9/fmtquote.c:107-178 | So without quotes. |
| Quote.ShorterThanPredicted | lib9/fmtquote.c:107-178 | With a truncated end one byte less is printed. |
| QuoteTokens.FormQuotes | lib9/fmtquote.c:31-178 | What is printed for valid text is a quoted or plain word for it, as the tokenizer reads words. |
| QuoteTokens.WordsTokenize | lib9/tokenize.c:6-41 | Words of bare and quoted pieces in any order, with spaces, tabs, carriage returns or newlines between, tokenize to what they mean. |
| QuoteTokens.QuoteThenTokenize | lib9/tokenize.c:92-106 | Any strings of valid text, quoted and put on a line with any blanks between, tokenize to those strings. |
| FontCache.RenormalOrder | libdraw/font.c:106-146 | Scaling ages down keeps their order and which are 0. |
| FontCache.Font.constructor | libdraw/buildfont.c:28-56 | A new font has 64 + 5 clear slots and shows what it claims. |
| FontCache.Font.AgeFont | libdraw/font.c:106-146 | The clock advances, wrapping before 65536 by scaling every age, and stays above all of them. |
| FontCache.Font.Attach | libdraw/font.c:196-267 | A subfont is present afterwards if it is found, and only one that is the oldest and old enough may go for it; the result and the cached subfonts are those of the specification the search theorems are about. |
| FontCache.Font.GlyphNumbered | libdraw/font.c:269-275 | The k-th rune of a line has the glyph numbered offset + k, if there is one and it has a width. |
| FontCache.Font.FontResize | libdraw/font.c:346-400 | The cache is cleared and of the new size or the old one, and its image is new if all requests were granted. |
| FontCache.Font.SpinsIff | libdraw/font.c:182-275 | For every character, font and cache of subfonts: the search is still going on after any number of rounds exactly if it comes to rune 0, its first line's subfont is there, has no glyph for it, and the offset is not 0. |
| FontCache.Font.EndsSoon | libdraw/font.c:182-275 | A search that ends does so within two rounds. |
| FontCache.Font.EndsAlways | libdraw/font.c:182-275 | For a character whose own line has its glyph, or in a font with a glyph for rune 0 or an offset of 0, it ends whatever subfonts are cached. |
| FontCache.SearchLoops | libdraw/font.c:182-275 | On a concrete font it does not end. |
| FontCache.Font.Seek | libdraw/font.c:182-275 | A search that ends finds a glyph of the character, if its line has one, or of rune 0, or none; it falls back to rune 0 only if the character has no glyph or its subfont cannot be named. |
| FontCache.Font.Fit | libdraw/font.c:276-289 | The width is raised to fit a wider glyph before the image is asked for, and stays so when that is refused; afterwards all slots lie in the image if they did and nothing was refused. |
| FontCache.Font.Draw | libdraw/font.c:291-315 | A slot drawn shows its character exactly if it lies in the image with its glyph, as all slots do unless an image was refused; a refused draw leaves a false claim exactly if the slot was in use and held another glyph. |
| FontCache.Font.LoadChar | libdraw/font.c:173-316 | Loading into a slot leaves all others as they were or wipes the cache whole, which the first character of a batch alone may do; the slot shows its character exactly under the conditions of Draw. The width stored is that of the glyph found, and every slot in use keeps the width of its character. |
| FontCache.PastTheEdge | libdraw/font.c:276-315 | After one refused image a glyph is loaded, reported as loaded, and not in the image. |
| FontCache.ClaimedNotDrawn | libdraw/font.c:291-315 | After one refused draw a slot in use claims a character and shows another. |
| FontCache.Font.Probe | libdraw/font.c:43-52 | A hit is a slot in the window of the character that holds it, and there is a hit if there is such a slot. |
| FontCache.Font.Oldest | libdraw/font.c:54-68 | The slot replaced is the oldest of the window. |
| FontCache.Font.SlotFor | libdraw/font.c:43-89 | A character that is in its window is found there without a request. Otherwise the oldest slot goes, unused or old enough unless the cache cannot grow. The slot holds the character with its width, no slot used in this batch is touched, and every slot shows what it claims unless a request was refused or an earlier image was too narrow; it is told apart exactly. |
| FontCache.Font.CacheChars | libdraw/font.c:10-103 | The slots of a batch hold their characters in order, each width is that of its character's glyph and their sum is told; they show what they claim unless a request was refused or an earlier image was too narrow. If the display grants everything all are loaded and the width told is the sum of the glyphs' widths, and a batch stuck at its first character doubles the cache. |

## Left out

- Compressor.WriteImage: the header and the writes to the file descriptor, and allocation that fails; three readable bytes behind the image are asked for, because the source reads that far behind its buffer for a narrow last line.
- Codes.TwiddleCompressed: complementing is for decoded codes; on other bytes the source may run past the end, which is not modelled.
- libdraw/cloadimage.c, which sends the blocks to a display.
- JitRuns.Simulates: covers word moves, word arithmetic, word branches and jumps; byte, big, real, shift and pointer instructions, calls, returns and the instructions left to the interpreter are not part of this model, nor are the other macros.
- JitSched.CompiledRuns: other programs that change memory during a yield; code memory is apart from data memory, and the instruction cache is not modelled.
- CaseTables.Compiler.Compile: `casel` and `casec` are one kind of table, as their layouts agree; native addresses are given as a sequence, and the tables of entry points and links are not modelled.
- Locks.NoDeadlock: fairness and time: a process may be overtaken for ever at a spin lock.
- AltRuns.AltIsComm: for alts that list no channel on both sides, since the others may pick a way that was not ready; what those do is stated by AltRuns.EchoIffBothSides, AltRuns.XecaltCrashes and AltRuns.TakenKeeps. Where the plain send or receive would follow a nil pointer in its partner's alt, the alt may not, as its own marks keep a queue from being empty.
- AltCode.Scheduler.Xecalt: the values sent, their types and reference counts; killing a program that waits (`altgone`).
- NineCodec.ConvS2M: the total size is below 4 GiB, where the source computes in 32 bits; a walk with more names than the array holds is refused here as there, but the reads beyond the array that precede it are not modelled.
- NineDecode.ConvM2S: data of reads and writes is a place in the buffer, as in the source.
- BlockLoader.CloadMemImage: the pixels where a copy reaches before the start of its block, which are whatever the ring held.
- BioRead.Biobuf.Bgetc: seeking, `Brdstr` and formatted input are not part of this model; the file does not change while it is read.
- BioWrite.Biobuf.Boffset: says nothing of the value once a write has failed and the descriptor was made active again.
- Runes.CharToRune: shifts and masks are written as multiplication, division and remainder.
- Quote.Fmt.Quotestrfmt: precision, width, rune strings as input and output, and a flush that fails or makes room for less than a rune.
- Tokenize.Tokenize: `gettokens` and `etoken`.
- Qsort.Sorter.Qsort: elements are values and a swap exchanges two of them; the byte and word loops of the swap, and the depth of the recursion, are not modelled.
- FontCache.Font.Seek: asks that the search for this character ends, and FontCache.Font.CacheChars that those of its batch do, as the source does not come back otherwise; FontCache.Font.SpinsIff says exactly when.
- FontCache.Font.CacheChars: shades and depth of the image, the decoding of its input, the release of subfont objects and the ascent of a subfont.
- CleanName.CleanName: asks for two bytes of storage, which matters for the empty name alone; CleanName.CleanShorter says so.
- Allocation that fails, in all components except the fonts.
