# munx, modelled and proved

A Dafny model of munx — its bytecode compiler, interpreter and pipe hub, and the passes
around them — and of what holds of it.

**The bytecode compiler and its interpreter.** `syntax.dfy` and `semantics.dfy` give the
language a meaning (big steps with fuel); `machine.dfy` is the interpreter as a transition
function over frames, operand stacks and monitor handlers. `emitter.dfy` is the code
generator in its own imperative form: a string table, a byte buffer with placeholders that
are patched later, lists of pending `break` jumps, and the loop unroller. What it leaves in
the buffer is the listing of `listing.dfy`, encoded as in `encoding.dfy`; `simulation.dfy`
proves that code laid out so (`layout.dfy`) does what the source means, through faults,
handlers left behind by `break`, and calls. `scoping.dfy` tells where a written name goes
and what calls, branches, loops and operators do with it, without the functions that do it.
`unrolling.dfy`, `converse.dfy` and `escapes.dfy` say when unrolling a loop keeps its
meaning, `limits.dfy` where it does not. `codeformat.dfy` says which bytes are which
instruction. `package.dfy` and `endtoend.dfy` put these together: bytes behave as source;
`counts.dfy` says when an error is reported instead, and `sample.dfy` takes one package all
the way. `calling.dfy` is the parameter prologue and the loader's scan for it.

**The pipe hub.** `hub.dfy` is the broker as a state machine with a log of everything sent,
taken in and handed on. `membership.dfy`, `delivery.dfy`, `handshake.dfy` and `fairness.dfy`
prove what holds after every run; `admission.dfy` tells the hub's answers, lists and backlog
from the history of messages alone. `protocol.dfy`, `wire.dfy` and `framing.dfy` are the
wire format and the reassembly of frames, `wireformat.dfy` the bytes of each message and
value; `daemon.dfy` is the daemon as a class that updates its tables in place, every method
of which does exactly what the state machine says.

**Around them.** `payload.dfy` is the encoding of values that travel through pipes.
`image.dfy`, `imagewriter.dfy` and `imageloader.dfy` are the `.mxb` file: how it is laid out
in place and how the loader reads it back; `build.dfy` goes from the source of a program to
the image and back. `debug.dfy` is the map from code to source positions, which the code
generator fills. `loading.dfy` says, byte by byte (`words.dfy`), which files are images and
what is in them.

**In front of them.** `grammar.dfy` and `parser.dfy` are the expression parser: a grammar as
a function of the tokens, the writing of trees with as few parentheses as possible, and the
recursive-descent class; `precedence.dfy` tells which tree a chain of operators is, without
the grammar's strengths. `generics.dfy`, `expansion.dfy`, `requests.dfy` and `expander.dfy`
are the expansion of generic functions, and `bindings.dfy` tells which types their
parameters stand for. `folding.dfy` is the folding of field constraints by the type checker
against the check the compiler emits; `arithmetic.dfy` tells rounding, division and what
operators fold and run to. `depths.dfy` and `stack.dfy` follow the operand stack and the
handlers through every run of compiled code.

Writing to a live client always succeeds in the hub model, and losing a client is a step of
its own. Client ids are never 0 (a descriptor of 0 would read as "no peer" at
`include/pipe_hub_daemon.hpp:403`). Strings are byte strings.

Some things the code does are not what one would expect, and are proved as they are: a
`break` inside an unrolled body leaves the surrounding loop or program
(`Escapes.BreakExactly`, `Limits.BreakEscapes`); the counter of an unrolled loop is never
assigned (`Limits.CounterReadExactly`, `Limits.ResetExactly`); bounds beyond 2^53 are
compared after rounding (`Escapes.RoundsExactly`, `Limits.BoundRounds`); an offer whose
client detaches is never answered (`Handshake.DisciplineExactly`,
`Handshake.OfferForgotten`); detaching from a name in one mode takes a client off all its
lists, so a reader is refused although a writer is attached (`Admission.RefusedExactly`,
`Admission.LapsedRun`); a third client's payload can be left behind in a channel between two
(`Delivery.ChannelExactly`, `Delivery.StrangerRun`); a `<` may be taken for type arguments
by a far-away `>` (`Grammar.ParsesExactly`, `Grammar.LessMisread`); copies of generic
functions may collide, or depend on who asks first (`Generics.MangleCollides`,
`Requests.CopiesExactly`, `Expanding.FirstAskerDecides`); and a folded constraint may
disagree with its run-time check (`Folding.SoundExactly` and what follows it).

## Model

| member | source | states |
|---|---|---|
| Machine.CallsAlwaysWithin | include/vm.hpp:2588-2612 | however long a program runs, and whatever faults unwind, no more calls are open than the depth limit allows: the call that would go beyond is refused |
| Machine.DropStale | include/vm.hpp:418-440 | what is dropped from the handler stack does not cover the faulting pc, and what is left on top does: the first live handler is found |
| Machine.RunsAgree | include/vm.hpp:2695-3145 | the machine is deterministic: two runs from one state that both stop end alike |
| Simulation.CompilerCorrect | include/bytecode_compiler.hpp:557-855 | code laid out as the generator does ends in a given way exactly when the source does, with the same result or fault, globals and heap; so it also diverges exactly when the source does; what the source does with names, calls and operators is told by Scoping |
| Simulation.SimStmt | include/bytecode_compiler.hpp:557-855 | running a statement's code: same outcome and variables (Scoping says which), the stack extended by junk that is empty if no `break` crosses a `match`, only stale handlers added, faults outside protected regions |
| Simulation.SimExpr | include/bytecode_compiler.hpp:1001-1247 | running an expression's code pushes exactly its value, or faults inside it with the state the source has |
| Simulation.SimLogical | include/bytecode_compiler.hpp:1478-1517 | `&&` and `||` leave the deciding operand's value and skip the other side |
| Simulation.SimMatch | include/bytecode_compiler.hpp:820-841 | a match runs the first equal arm and pops the scrutinee, except when a `break` leaves it |
| Simulation.SimLoop | include/bytecode_compiler.hpp:795-818 | a loop with back-patched exits runs as its source, `break` included |
| Simulation.SimMonitor | include/bytecode_compiler.hpp:843-855 | a monitor runs its body and, on a fault in it, its handler with the exception bound |
| Simulation.TrapReachesHandler | include/vm.hpp:418-440 | a fault anywhere in a monitor's body, whatever stale handlers lie above, reaches that monitor's own handler with the stack as it was on entry plus the exception |
| Simulation.DropStaleAll | include/vm.hpp:323-333 | handlers that do not cover the pc of a fault are all dropped, however many lie above; that those left behind by `break`s do not cover a pc outside their regions is part of SimStmt and of Stack.Dispatched |
| Simulation.PrologueRuns | include/bytecode_compiler.hpp:464-482 | the prologue, run from a call's frame, ends with an empty stack and every parameter bound locally to its argument, whatever globals exist |
| Simulation.SimBody | include/vm.hpp:2586-2619 | a called function returns what its source returns, or its fault surfaces at the call instruction |
| Calling.ScanParameters | include/vm.hpp:73-95 | the loader's loop computes the names stored by the leading instructions, reversed |
| Calling.ParametersRecovered | include/vm.hpp:73-95 | from the bytes of any compiled function the scan recovers exactly the declared parameters, because no body begins with a store |
| Calling.BlockNoStore | include/bytecode_compiler.hpp:464-482 | no statement list is compiled to code that begins with a store |
| Emitter.StringTable.Intern | include/bytecode_compiler.hpp:305-328 | interning gives an offset at which the text stands; all earlier references stay valid |
| Emitter.CodeBuilder.Jump | include/bytecode_compiler.hpp:349-356 | a jump is appended with a zero placeholder whose offset is returned |
| Emitter.CodeBuilder.Patch | include/bytecode_compiler.hpp:358-362 | exactly the four placeholder bytes are overwritten by the target |
| Emitter.CodeEmitter.Patch | include/bytecode_compiler.hpp:358-362 | a pending jump, patched once, becomes the jump to the place it was waiting for; nothing else changes |
| Emitter.CodeEmitter.EmitExpr | include/bytecode_compiler.hpp:1001-1247 | appends exactly the code listing of the expression with counters of unrolled loops replaced, and leaves no placeholder |
| Emitter.CodeEmitter.EmitShortcut | include/bytecode_compiler.hpp:1478-1517 | the test of a short-circuit form, its jump still waiting for the end |
| Emitter.CodeEmitter.EmitStmt | include/bytecode_compiler.hpp:557-680 | appends exactly the code listing of the statement; every jump is patched except `break`s, which wait in the innermost list |
| Emitter.CodeEmitter.EmitAssign | include/bytecode_compiler.hpp:689-745 | assignment, `+=` and destructuring |
| Emitter.CodeEmitter.EmitIf | include/bytecode_compiler.hpp:758-793 | an if-chain: each arm jumps to the common end, patched when it is known |
| Emitter.CodeEmitter.EmitLoop | include/bytecode_compiler.hpp:795-818 | a loop: exit and `break` jumps are patched to the end, and the break list is popped |
| Emitter.CodeEmitter.EmitMatch | include/bytecode_compiler.hpp:820-841 | a match: arms in order, all leaving for the final pop |
| Emitter.CodeEmitter.EmitMonitor | include/bytecode_compiler.hpp:843-855 | a monitor: handler operand and skip jump are patched to where the handler begins and ends |
| Emitter.CodeEmitter.EmitBreak | include/bytecode_compiler.hpp:586-595 | a `break` is parked in the innermost loop's list, or among the strays |
| Emitter.CodeEmitter.EmitUnrolled | include/bytecode_compiler.hpp:1403-1436 | a counted loop is emitted as its copies, each with the counter as a constant; the constant bindings are restored |
| Emitter.CodeEmitter.EmitUnrolledBody | include/bytecode_compiler.hpp:1465-1476 | the body without its increment, statement by statement |
| Emitter.CodeEmitter.EmitBlock | include/bytecode_compiler.hpp:516-544 | a statement list, counted pairs unrolled |
| Emitter.CodeEmitter.EmitNext | include/bytecode_compiler.hpp:518-541 | one step over a statement list: the code is anchored at the statement's position where it begins, then comes the statement or the unrolled pair; anchors recorded within belong to code behind |
| Emitter.CodeEmitter.EmitDebugAnchor | include/bytecode_compiler.hpp:430-450 | the code that comes next is anchored unless the position is unknown or has just been recorded; the map stays sorted and ends at the code reached |
| Emitter.CodeEmitter.EmitCall | include/bytecode_compiler.hpp:1081-1120 | a call; more than 255 arguments are reported |
| Emitter.CodeEmitter.EmitType | include/bytecode_compiler.hpp:1521-1564 | a type operand in its recursive encoding |
| Emitter.CodeEmitter.EmitFunctionCode | include/bytecode_compiler.hpp:464-482 | prologue, body, implicit null return; stray breaks go to the end; no placeholder is left and every jump lands on an instruction |
| Emitter.CodeEmitter.EmitToplevel | include/bytecode_compiler.hpp:485-491 | top-level statements ended by a halt, likewise complete |
| Blobs.EmitOk | include/bytecode_compiler.hpp:332-372 | appending an instruction keeps every recorded instruction readable and in place |
| Blobs.PatchOk | include/bytecode_compiler.hpp:358-362 | patching keeps every other recorded instruction, and the patched one reads back with its target |
| Blobs.CompleteListed | include/bytecode_compiler.hpp:332-372 | a blob with nothing pending decodes, instruction by instruction, to exactly what was emitted |
| Listing.TopListed | include/bytecode_compiler.hpp:485-491 | the listing of a package is laid out as the interpreter theorem requires |
| Listing.FunctionListed | include/bytecode_compiler.hpp:464-482 | the listing of a function is laid out as the interpreter theorem requires |
| Lowering.MatchedExactly | include/bytecode_compiler.hpp:1308-1401 | a loop is unrolled exactly if its counter starts at a literal just before, is compared with a literal and is counted up last of all, and runs 1 to 32 times |
| Lowering.LowerBlockWf | include/bytecode_compiler.hpp:1403-1436 | unrolling keeps programs well formed |
| Encoding.DecodeEncoded | include/bytecode_decoder.hpp:386-477 | decoding inverts encoding for every instruction, type operands and interned strings included, wherever it stands in the blob |
| Encoding.ReadBackType | include/bytecode_decoder.hpp:479-539 | a type operand of any nesting reads back and its reader stops right behind it |
| Disassembler.DecodeCode | include/bytecode_decoder.hpp:350-384 | at most one list of instructions covers a blob; the linear walk finds it, and fails exactly if there is none |
| Disassembler.BlobWellFormed | include/bytecode_compiler.hpp:546-553 | an emitted blob is covered by its instructions and every jump in it goes to the start of one of them |
| Package.CompilePackage | include/bytecode_compiler.hpp:1638-1662 | an error is reported exactly if some call has more than 255 arguments or some assignment more than 255 targets; otherwise, and as long as code and text take less than 4 GiB, every blob of the package is exactly the code of its function or top level, read against the shared string table; every blob has a sorted debug map that stays within it and begins with its first statement |
| Counts.FunctionCounts | include/bytecode_compiler.hpp:1081-1084 | the code of a function has a count that does not fit its byte exactly if the source has: what unrolling drops has no calls, and some copy is always made |
| Blobs.FailedExactly | include/bytecode_compiler.hpp:332-372 | in a finished blob an error has been reported exactly if it holds an instruction whose count does not fit |
| Building.BuildImage | include/bytecode_compiler.hpp:1600-1619 | several packages compiled against one growing string table and laid out: an error is reported exactly if some list is too long; otherwise, if sizes and positions fit their fields, loading the image gives back every package, and the interpreter finds in it the code of each of its functions |
| Building.BuildAndLoad | include/bytecode_compiler.hpp:1600-1619 | so does the loader's own walk over the image |
| Building.ImageFollowsSource | include/vm.hpp:2695-3145 | a package that was built, laid out and loaded again ends, run from the image, as its source does, up to counters of unrolled loops; the source's variables are those Scoping tells |
| Package.HeldCode | include/bytecode_compiler.hpp:305-328 | code emitted before the string table grew still decodes to the same instructions |
| Unrolling.BlockLowered | include/bytecode_compiler.hpp:1308-1436 | a program and its unrolled form, when the counters are the loops' own, go through the same outcomes and agree on every variable but those counters |
| Unrolling.PairLowered | include/bytecode_compiler.hpp:1403-1436 | one counted loop and its copies end alike |
| Unrolling.SmallBoundsExact | include/bytecode_compiler.hpp:1308-1401 | bounds within 2^53 are compared exactly |
| Unrolling.ExactEnds | include/vm.hpp:2395-2428 | the test counts as the generator did exactly if it holds on the last value and fails on the next |
| Values.ToDoubleOrder | include/vm.hpp:2395-2428 | converting 64-bit integers to doubles may merge two of them but never swaps them |
| Values.ToDoubleExact | include/vm.hpp:2395-2428 | within 2^53 the conversion is exact |
| Converse.BlockEnds | include/bytecode_compiler.hpp:1308-1436 | if the unrolled program ends, so does the source, and alike |
| Escapes.BreakExactly | include/bytecode_compiler.hpp:1465-1476 | a counted loop and its copies end alike exactly if no iteration that is run breaks; if one does, the source goes on behind the loop and the copies are left by a foreign `break` |
| Escapes.RoundsExactly | include/bytecode_compiler.hpp:1308-1401 | the source runs as many rounds as the generator counted exactly if the rounded comparison is over where the generator says |
| Limits.BreakEscapes | include/bytecode_compiler.hpp:1465-1476 | a program whose `break`, unrolled, ends the whole program |
| Limits.CounterReadExactly | include/bytecode_compiler.hpp:1465-1476 | reading the counter behind the loop gives, once unrolled, what the source gives exactly if a global of that name happens to hold it before; without such a global it faults |
| Limits.ResetExactly | include/bytecode_compiler.hpp:1465-1476 | of a body that assigns the counter: the copy always ends, the source exactly if the counter is not taken back below the bound |
| Limits.BoundRounds | include/vm.hpp:2395-2428 | a loop at 2^53 that does not run, and does once unrolled |
| Fuel.ExecBlockMore | include/vm.hpp:2695-3145 | more fuel does not change an outcome |
| Breaks.BlockNeverBroke | include/bytecode_compiler.hpp:586-595 | a block without an escaping `break` never ends in one |
| EndToEnd.TableRecovered | include/vm.hpp:202-270 | the function table read off the blobs is the declared one |
| EndToEnd.BytesFollowSource | include/bytecode_compiler.hpp:557-855 | if the source package ends, the machine on its compiled bytes ends the same, up to globals that are counters of unrolled loops; Scoping.AssignmentPlaces and what follows it tell what the source does |
| EndToEnd.SourceFollowsBytes | include/vm.hpp:2695-3145 | if the machine on the compiled bytes ends, the source ends the same, up to those counters; Scoping tells how |
| Sample.CompileSample | include/bytecode_compiler.hpp:1638-1662 | compiling a package with a counted loop reports no error and gives faithful bytes: every condition of the end-to-end theorems can be met at once |
| Sample.SampleRuns | include/bytecode_compiler.hpp:1403-1436 | and those bytes come to an end, with the variables the source ends with, from any world |
| Hub.ErasedInPlace | include/pipe_hub_daemon.hpp:65-73 | erasing a client works on every part of a list alike: all others keep their order and number, and there is no gap |
| Hub.OthersInPlace | include/pipe_hub_daemon.hpp:333-353 | the live peers other than the publisher, in slot order and as often as they have a slot |
| Membership.MembersAlways | include/pipe_hub_daemon.hpp:120-164 | after every run each id in a channel's lists and slots is a live client holding that attachment, with at most two peers |
| Membership.CloseForgets | include/pipe_hub_daemon.hpp:65-89 | a closed client is in no list and no slot of any channel |
| Membership.FreshStart | include/pipe_hub_daemon.hpp:120-143 | a descriptor that is used again inherits nothing |
| Delivery.PipeDelivery | include/pipe_hub_daemon.hpp:131-176 | after every run that uses a name only as a pipe: taken in = handed on, then pending, in order; no backlog while a reader is attached; at most 4096 pending |
| Delivery.ChannelExactly | include/pipe_hub_daemon.hpp:327-386 | a step keeps a channel in order (everything accounted for, no backlog while two peers are attached) exactly if nobody attaches as a writer (being in order includes having no writer) and nobody else publishes to a pair |
| Delivery.ChannelRunExactly | include/pipe_hub_daemon.hpp:327-386 | over every run: the channel was in order throughout if and only if every step was of that kind |
| Delivery.ChannelDelivery | include/pipe_hub_daemon.hpp:327-386 | such runs keep accepted = handed on, then pending, in order |
| Delivery.PairDelivery | include/pipe_hub_daemon.hpp:327-386 | a payload published to a pair is sent to exactly the other peer, once |
| Delivery.StrangerRun | include/pipe_hub_daemon.hpp:327-386 | a run in which a third client's payload stays behind although two peers are attached |
| Delivery.BacklogToFirstReady | include/pipe_hub_daemon.hpp:476-491 | a lone peer's payload goes to whoever joins or is ready first, its own publisher included |
| Handshake.OffersSettled | include/pipe_hub_daemon.hpp:415-492 | on every disciplined run the waiting client is exactly the parked one, and every other offer has got exactly one answer |
| Handshake.HandExactly | include/pipe_hub_daemon.hpp:415-492 | a step keeps that exactly if no waiting client offers again or detaches |
| Handshake.DisciplineExactly | include/pipe_hub_daemon.hpp:415-492 | over every run: the handshake was in order throughout if and only if the clients kept the discipline |
| Handshake.OneWaits | include/pipe_hub_client.hpp:229-254 | at most one client waits on a channel |
| Handshake.OfferForgotten | include/pipe_hub_daemon.hpp:311-325 | a run after which an offer is open for ever |
| Handshake.OfferTwice | include/pipe_hub_daemon.hpp:415-457 | a run in which a second offer breaks the bookkeeping |
| Fairness.DispatchSends | include/pipe_hub_daemon.hpp:208-239 | one dispatch sends one copy per broadcast attachment and one to the queue readers, nothing else |
| Fairness.BatchQueues | include/pipe_hub_daemon.hpp:226-239 | payload k of a batch goes to the reader k turns behind the cursor, and the queue readers get nothing else |
| Fairness.FairShare | include/pipe_hub_daemon.hpp:226-239 | of a batch of m payloads a client holding k of n queue slots gets between k times m/n rounded down and rounded up |
| Protocol.MessageRoundTrip | include/pipe_hub_protocol.hpp:322-366 | decoding any encoder's body, whatever follows it, gives the message back |
| Protocol.BodyInjective | include/pipe_hub_protocol.hpp:229-309 | different messages have different bodies |
| Wire.EncodeAttach | include/pipe_hub_protocol.hpp:246-254 | builds the frame of the message byte by byte |
| Wire.EncodePublish | include/pipe_hub_protocol.hpp:266-274 | builds the frame of the message byte by byte |
| Wire.EncodeDeliver | include/pipe_hub_protocol.hpp:276-286 | builds the frame of the message byte by byte |
| Wire.EncodeHello | include/pipe_hub_protocol.hpp:229-237 | builds the frame of the message byte by byte |
| Wire.EncodeChannelOp | include/pipe_hub_protocol.hpp:303-309 | builds the frame of the message byte by byte |
| Wire.EncodeBye | include/pipe_hub_protocol.hpp:239-244 | builds the frame of the message byte by byte |
| Wire.EncodeDetach | include/pipe_hub_protocol.hpp:256-264 | builds the frame of the message byte by byte |
| Wire.EncodeAck | include/pipe_hub_protocol.hpp:288-293 | builds the frame of the message byte by byte |
| Wire.EncodeError | include/pipe_hub_protocol.hpp:295-301 | builds the frame of the message byte by byte |
| Wire.DecodeMessage | include/pipe_hub_protocol.hpp:322-366 | the cursor-driven decoder computes the decoding function, failing exactly when the body is truncated |
| Framing.SplitStream | include/pipe_hub_protocol.hpp:215-227 | cutting inverts framing, for any bodies below 2^32 bytes |
| Framing.StreamSplit | include/pipe_hub_daemon.hpp:535-575 | the frames cut off and the rest are the stream: nothing is lost or invented |
| Framing.ChunksDoNotMatter | include/pipe_hub_daemon.hpp:577-582 | the state reached and the bytes left over do not depend on how a stream is cut into chunks |
| Framing.MessagesArrive | include/pipe_hub_daemon.hpp:535-582 | framed messages, however they are cut up, are answered once each and in order, with no byte left over |
| Daemons.Daemon.DeliverToReaders | include/pipe_hub_daemon.hpp:208-239 | in place, does exactly the dispatch step |
| Daemons.Daemon.FlushPending | include/pipe_hub_daemon.hpp:166-176 | in place, hands the whole backlog on, oldest first |
| Daemons.Daemon.RegisterAttachment | include/pipe_hub_daemon.hpp:241-309 | in place, does exactly the attach step; accepted exactly if the name has a publisher for a reader and a free end for a peer; then one Ack, the seat and the whole backlog follow, else one error and nothing changes |
| Daemons.Daemon.UnregisterAttachment | include/pipe_hub_daemon.hpp:311-325 | in place, does exactly the detach step, which Admission.DetachTold tells |
| Daemons.Daemon.CloseClient | include/pipe_hub_daemon.hpp:146-164 | in place, does exactly the close step and forgets the input |
| Daemons.Daemon.PublishMessage | include/pipe_hub_daemon.hpp:327-401 | in place, does exactly the publish step, which Admission.PublishTold tells |
| Daemons.Daemon.HandleChannelOffer | include/pipe_hub_daemon.hpp:415-457 | in place, does exactly the offer step, which Admission.OfferTold tells |
| Daemons.Daemon.HandleChannelRecvReady | include/pipe_hub_daemon.hpp:459-492 | in place, does exactly the receive-ready step, which Admission.ReadyTold tells |
| Daemons.Daemon.HandleMessage | include/pipe_hub_daemon.hpp:505-533 | in place, answers one message, and the daemon stays in a state some run reaches |
| Daemons.Daemon.ProcessClientInput | include/pipe_hub_daemon.hpp:535-575 | answers all complete frames in order and keeps the rest |
| Daemons.Daemon.IngestBytes | include/pipe_hub_daemon.hpp:577-582 | new bytes: the frames they complete are answered in order, other clients' input is untouched |
| Daemons.DaemonMembers | include/pipe_hub_daemon.hpp:65-89 | whatever a daemon has been through, its lists hold live clients only |
| Daemons.DaemonDelivers | include/pipe_hub_daemon.hpp:131-176 | whatever a daemon has been through, a name never used as a channel has lost and reordered nothing |
| Payloads.ValueRoundTrip | include/vm_pipe.hpp:96-385 | a sendable value of any nesting, whatever follows it, arrives as itself exactly if the exceptions inside are plain errors, and its reader stops right behind it |
| Payloads.PrefixFree | include/vm_pipe.hpp:155-290 | no encoding begins another: equal streams of encodings begin with equal values and go on alike |
| Payloads.Serialize | include/vm_pipe.hpp:372-377 | sending fails exactly on maps, handles and functions anywhere inside and on 2^32 bytes or elements |
| Payloads.EncodeValue | include/vm_pipe.hpp:170-290 | appends the encoding in place, element by element |
| Payloads.DecodeValue | include/vm_pipe.hpp:292-370 | the cursor-driven decoder computes the decoding function; it fails exactly on truncation and unknown tags |
| DebugMaps.StatementAnswers | include/vm.hpp:97-126 | a statement is anchored where its code begins: however the map goes on, all its code is looked up to its own position or to one recorded within it |
| DebugMaps.ResolveDebugLoc | include/vm.hpp:97-126 | bisection finds the last anchor at or before the pc |
| DebugMaps.AlwaysFound | include/vm.hpp:97-126 | behind the first anchor, which is that of a body's first statement, all code has a position |
| DebugMaps.AnchorAnswers | include/vm.hpp:97-126 | an anchor answers for all code up to the next one |
| Images.ImageRoundTrip | include/bytecode_compiler.hpp:1677-1824 | loading the image of any packages gives the same packages, names, code and debug maps in the same order |
| Images.Sections | include/bytecode_compiler.hpp:1701-1762 | the sections of an image stand one behind the other where the header says |
| Images.CoveredWalks | include/bytecode_decoder.hpp:350-384 | compiled code passes the decoder's check |
| Images.DebugBack | include/vm.hpp:128-160 | a serialised debug map reads back |
| ImageWriter.SerializeDebugMap | include/bytecode_compiler.hpp:1654-1675 | the bytes of a debug map, its file names interned while the table grows |
| ImageWriter.PlacePacks | include/bytecode_compiler.hpp:1701-1732 | offsets assigned by a running cursor are those of the finished image |
| ImageWriter.WriteBlob | include/bytecode_compiler.hpp:1646-1651 | a blob is copied to its place and nothing that stood right is disturbed |
| ImageWriter.LayOut | include/bytecode_compiler.hpp:1677-1824 | the buffer, written section by section at computed offsets, is in the end exactly the image; earlier string references stay valid |
| ImageLoader.ParseDebugMap | include/vm.hpp:128-172 | the parsing loop computes the debug map, or fails on truncation and bad references |
| ImageLoader.LoadProgram | include/vm.hpp:202-270 | the loader succeeds exactly on files with the signature, version 8, a string table, descriptors, names, code and debug maps inside the file, agreeing entry fields, and code that is instructions from end to end; it returns what the descriptors say, imports in order and the entry package last |
| Depths.StmtFlows | include/bytecode_compiler.hpp:557-855 | in the code of any statement every instruction finds its operands above what the protected blocks around it hold, and every edge, jumps, loops, arms and handlers included, goes to an offset of the right depth and blocks; to the very depth if no `break` crosses a `match` |
| Depths.FunctionFlows | include/bytecode_compiler.hpp:464-482 | so does the code of a whole function, entered with its arguments on the stack |
| Depths.StmtContains | include/bytecode_compiler.hpp:843-855 | the protected blocks an offset is marked with contain it |
| Stack.Dispatched | include/vm.hpp:317-333 | the search from the top of the handlers stops at the innermost protected block's own, and skips only handlers of blocks the fault is not in |
| Stack.Handled | include/vm.hpp:418-440 | resizing the stack to the recorded depth only cuts it back, and the handler starts as its offset expects |
| Stack.ExecuteOk | include/vm.hpp:2695-3145 | one machine step, faults and calls included, keeps every frame, waiting ones too, in such a state |
| Stack.AlwaysSane | include/vm.hpp:2695-3145 | in every run of compiled code, whatever handlers `break`s have left: the next instruction has its operands; where no `break` crosses a `match` each offset has one stack depth; a fault would reach the innermost enclosing handler, discarding only stale ones and padding nothing |
| EndToEnd.BytesAlwaysSane | include/vm.hpp:2695-3145 | the same of the bytes of a compiled package |
| Generics.BindNamed | include/generic_reflexpr.hpp:744-842 | type parameters are bound only to names the program already has; compound types shrink to their kind |
| Generics.InUniverse | include/generic_reflexpr.hpp:838-845 | so the copies of a program have finitely many possible names |
| Generics.SourceIsNamed | include/generic_reflexpr.hpp:43-93 | every program is named by a finite set of names |
| Generics.MangleInjective | include/generic_reflexpr.hpp:838-842 | different templates or types give different copies if all names are non-empty, do not end with an underscore and have no two in a row |
| Generics.MangleCollides | include/generic_reflexpr.hpp:838-842 | neither condition on underscores can be dropped, for templates or for types: inputs where only one name violates only one of them, and two calls share one copy |
| Expanding.Expander.SpecializeCall | include/generic_reflexpr.hpp:744-845 | a call goes to the copy for its bindings, one with explicit types to the copy named after exactly those types in their order; the copy exists afterwards, made as this call asks if there was none; it fails only if the call cannot be bound or some call the program really meets has no copy |
| Expanding.Expander.EnsureSpecialization | include/generic_reflexpr.hpp:868-914 | a copy is made once, by the first call that asks for it; it fails only if a call that the program meets, directly or through templates, has no copy |
| Expanding.Expander.LowerLine | include/generic_reflexpr.hpp:916-1140 | a statement of a template becomes what the specification says, with every call of a template in it settled; it fails only if it has no expansion or a call that is met has no copy |
| Expanding.Expander.RewriteNode | include/generic_reflexpr.hpp:690-740 | the rewriting of ordinary functions settles every call it looks at, failing on the same terms |
| Expanding.Expand | include/generic_reflexpr.hpp:296-303 | ends for every program, mutual and polymorphic recursion included; copies have different names, each is its template's copy for a call the program meets, and no call of a template is left at the top level or in a copy; where a call goes is told by TypeBindings.ExplicitCallGoes and TypeBindings.InferredCopy; it gives up only if an expression has no expansion or a call that is met has no copy |
| Expanding.TreatedExactly | include/generic_reflexpr.hpp:690-740 | in ordinary functions calls are left exactly where the rewriting does not look (indices, array literals, casts and other statements) |
| Requests.CallExactly | include/generic_reflexpr.hpp:803-823 | a call goes to the same copy whatever field is current exactly if not: it has no type arguments, the right number of arguments, they are inferred without conflict, bind every type parameter but the one the template returns, and leave that one free |
| Requests.CopyExactly | include/generic_reflexpr.hpp:803-823 | the copy asked for while a field is current is another one than outside any loop exactly if a call the body meets is decided by that field, and there is a copy |
| Requests.CopiesExactly | include/generic_reflexpr.hpp:803-823 | a copy is the same whoever asks first exactly if no field decides a call met in its body |
| Requests.AskerMatters | include/generic_reflexpr.hpp:803-823 | `h<S>()` calls `g()`: the copy of `h` for `int` calls the copy of `g` for the type of the field that was current |
| Expanding.FirstAskerDecides | include/generic_reflexpr.hpp:868-914 | two callers ask for `h<int>()` with different fields current: both get the one copy, and it is the first one's |
| Grammar.ParsesExactly | include/parser.hpp:377-620 | reading back what was written with minimal parentheses gives the tree and its end exactly if no `<` in it is taken for type arguments |
| Grammar.Eats | include/parser.hpp:400-540 | at every strength, whatever follows that cannot continue the expression, the reader stops right behind the tree that was written; that the strengths are the documented precedence is Precedence.BindsExactly |
| Grammar.Unread | include/parser.hpp:545-620 | a tree without type arguments is only ever read where no `<` is taken for some |
| Grammar.WriteInjective | include/parser.hpp:377-620 | no two trees that are read back are written alike |
| Grammar.LessMisread | include/parser.hpp:1490-1521 | `a < b || c > (d || e)` is not read back: the scan for type arguments runs to the semicolon |
| Parsing.Parser.LooksLikeCallTypeArgs | include/parser.hpp:1490-1521 | the scanning loop decides whether some `>` before the end of the statement closes the `<`, counting those in between, and a parenthesis follows it |
| Parsing.Parser.ParseBinary | include/parser.hpp:400-507 | the loop folding operators of one level to the left reads what the grammar says and leaves the cursor behind it: from the loosest level on, the whole chain of operators in sight, grouped as the documented precedence says |
| Parsing.Parser.ParsePostfix | include/parser.hpp:545-620 | the postfix loop, type arguments included, reads what the grammar says |
| Folding.FoldRuns | include/type_checker.hpp:1043-1284 | an expression that folds, run with `_` renamed to a name that holds any value, ends as its run on that value does, folded constant or not, fault or not, and changes nothing |
| Folding.IntsExactly | include/type_checker.hpp:1119-1200 | on integers the machine computes the folded constant exactly if `==` and `!=` compare equal numbers or ones that stay apart when rounded to doubles, and an arithmetic result fits 64 bits |
| Folding.TwoExactly | include/vm.hpp:2280-2428 | a binary operator, its operands standing for their constants, computes the folded one exactly if that holds of integers; booleans differ in truth or are equal as values; of strings, one of the two that are added is no character, and two that are compared are both characters, both strings, or different |
| Folding.OneExactly | include/vm.hpp:2796-2830 | `!`, negation and `len` exactly if the operand is not the character 0, the result fits, the operand is no character |
| Folding.LogicalExactly | include/bytecode_compiler.hpp:1478-1517 | what `&&` and `||` leave has the folded truth exactly if the character 0 does not decide otherwise |
| Folding.SoundExactly | include/type_checker.hpp:1043-1284 | folding and run agree at every operator that is evaluated exactly if each of those operators meets its own condition |
| Folding.FoldsRename | include/bytecode_compiler.hpp:860-940 | everything that folds can be renamed |
| Folding.TemporariesDiffer | include/bytecode_compiler.hpp:960-968 | no two constructions of a package and no two fields of one share a temporary |
| Folding.StoredLoads | include/bytecode_compiler.hpp:955-972 | once all arguments are stored, whatever their values, every temporary holds its own |
| Folding.ArgumentRuns | include/bytecode_compiler.hpp:955-972 | an argument that folds ends as its run does: what is stored need not be what the type checker saw |
| Folding.CheckRuns | include/bytecode_compiler.hpp:955-985 | whatever the other fields hold, the emitted check of a field the type checker looks at ends as its constraint does on the stored value |
| Folding.CheckAgrees | include/type_checker.hpp:1288-1302 | where every operator evaluated meets its condition the check does not fault, and it passes exactly if the type checker did not reject the field, unless the whole constraint is the character 0 |
| Folding.LogicalCompared | include/type_checker.hpp:1119-1137 | they disagree where `&&` of non-booleans is compared: `(_ && 2) == true` |
| Folding.EqualRounded | include/type_checker.hpp:1123-1137 | where integers beyond 2^53 are compared for equality, which the type checker does after rounding |
| Folding.SumWraps | include/type_checker.hpp:1180-1200 | where a sum overflows: the type checker goes on with what 64 bits keep, the machine faults |
| Folding.CharFolded | include/type_checker.hpp:1058-1060 | where a character is compared with a string |
| Folding.ZeroNegated | include/type_checker.hpp:1058-1060 | and where the character 0 is negated |
| Fairness.BroadcastAt | include/pipe_hub_daemon.hpp:214-225 | copy i of a broadcast goes to attachment i |
| Daemons.Daemon.AcceptClient | include/pipe_hub_daemon.hpp:636-650 | a new connection starts with no attachment and an empty buffer |
| Payloads.Deserialize | include/vm_pipe.hpp:381-385 | the value a payload begins with, or none; WireFormat.ValueExactly tells which |
| Scoping.AssignmentPlaces | include/vm.hpp:2566-2584 | an assignment changes one name only: the local of that name if there is one, else the global of that name if there is one, else a new local; package code writes globals |
| Scoping.AdditionPlaces | include/bytecode_compiler.hpp:689-745 | so does `+=`, with the sum of what the name held before the right side ran |
| Scoping.DestructuringPlaces | include/bytecode_compiler.hpp:689-745 | so does each target of a destructuring, in order, with its own element; nothing is assigned if there are too few |
| Scoping.TrapPlaces | include/vm.hpp:418-440 | a handler starts with the exception placed likewise, and all that the body had changed |
| Scoping.PlacedReads | include/vm.hpp:2545-2562 | afterwards that name, and no other, reads what was written |
| Scoping.ExpressionsKeepLocals | include/vm.hpp:2586-2619 | no expression, whatever it calls, changes a local of the scope it is in |
| Scoping.ParametersBound | include/vm.hpp:2586-2619 | a called function starts with its parameters, the first of equal names winning, as its only locals |
| Scoping.CallRuns | include/vm.hpp:2586-2619 | a call of a declared function with as many arguments as it takes, below 512 open calls, runs its body in such a frame; the caller goes on with its own locals and the globals and heap left behind, and null if nothing is returned |
| Scoping.CallRefused | include/vm.hpp:2588-2612 | another number of arguments, or a 513th open call, is a fault before the body runs |
| Scoping.GlobalWritten | include/vm.hpp:2566-2584 | a function that assigns a name that is a global and no parameter: the caller reads the new value from that global after the call |
| Scoping.BranchTaken | include/vm_value.hpp:807-829 | an arm of an `if` runs exactly if its condition is none of null, false, 0, 0.0, -0.0, the empty string and the character 0 |
| Scoping.LoopTaken | include/bytecode_compiler.hpp:795-818 | a loop goes on exactly while its condition is none of these and nothing leaves it |
| Scoping.LogicalStops | include/bytecode_compiler.hpp:1478-1517 | `&&` stops at one of these, `||` at anything else |
| Scoping.LiteralMeans | include/bytecode_compiler.hpp:1001-1060 | a literal means its own value |
| Scoping.OperationRuns | include/bytecode_compiler.hpp:1001-1080 | operands run from the left, each where the one before left off; the operation is given their values in that order and changes nothing but the heap |
| Scoping.ArmTaken | include/bytecode_compiler.hpp:820-841 | a `match` on an enum member runs the first arm that names it, and no other |
| Admission.SeatsAlways | include/pipe_hub_daemon.hpp:65-88 | after every run a channel's list for a mode is the clients admitted in that mode in their order, less those that have detached from the name in any mode or gone away |
| Admission.HoldingAlways | include/pipe_hub_daemon.hpp:311-325 | a client's attachments are those it was admitted with, less those it has detached and those of before it connected |
| Admission.AttachAnswered | include/pipe_hub_daemon.hpp:241-309 | of every run: an attach is refused, and nothing else happens, exactly if it is a reader's and nobody holds a writer's seat, or a peer's and two seats are taken; otherwise exactly one Ack, a seat in that mode's list, and then the whole backlog in order to that client |
| Admission.RefusedExactly | include/pipe_hub_daemon.hpp:247-256 | told by live clients: a reader is refused exactly if no live client has a writer's attachment on the name that it has not detached from in another mode since, a peer exactly if two have one |
| Admission.LapsedRun | include/pipe_hub_daemon.hpp:311-325 | that condition cannot be dropped: a run in which a live client holds a writer's attachment and a reader is refused |
| Admission.PublishTold | include/pipe_hub_daemon.hpp:327-401 | what publishing does to log, lists and backlog: with readers a copy to each broadcast seat and one to some queue seat; from a peer a copy to the other; else the backlog grows, until 4096 are pending, and the publisher is told |
| Admission.OfferTold | include/pipe_hub_daemon.hpp:415-457 | what an offer is answered: accepted if the other peer is ready, busy if it has offered, else it waits |
| Admission.ReadyTold | include/pipe_hub_daemon.hpp:459-492 | what being ready does: a pending payload, or the parked offer of the other, or the client is noted as ready |
| Admission.DetachTold | include/pipe_hub_daemon.hpp:311-325 | what detaching does: that attachment is gone, and every seat of the client on the name |
| Admission.CloseLook | include/pipe_hub_daemon.hpp:65-89 | so does going away, of every name, which nobody is told |
| Admission.LeftBehind | include/pipe_hub_daemon.hpp:65-73 | leaving a name gives up every seat there, a parked offer and being ready; the backlog stays |
| Admission.OthersTold | include/pipe_hub_daemon.hpp:505-533 | every other message is answered by nothing and changes nothing but that a name may be known |
| TypeBindings.ExplicitBinds | include/generic_reflexpr.hpp:764-776 | an explicit call with as many types as parameters binds, where the parameters are different, parameter i to the name of type i, or to what the surrounding copy binds that name to; with any other number it is not bound |
| TypeBindings.InferredBinds | include/generic_reflexpr.hpp:777-842 | an inferred call is bound exactly if every argument that says a type for a parameter says the same and every parameter is said; the binding of a parameter is what its arguments say |
| TypeBindings.MangleSpelled | include/generic_reflexpr.hpp:838-845 | a copy is named by the template and the types it is for, in order, each behind two underscores |
| TypeBindings.ExplicitCallGoes | include/generic_reflexpr.hpp:744-762 | in a copy as in ordinary code, a call with explicit types becomes a call of the copy named after exactly those types |
| TypeBindings.InferredCopy | include/generic_reflexpr.hpp:744-762 | a call without them goes to the copy named after what its arguments say |
| TypeBindings.ReflectMeans | include/generic_reflexpr.hpp:916-1140 | what reflects a type parameter, a local or an object is the object its name stands for; nothing else can be reflected |
| TypeBindings.ForEachUnfolds | include/generic_reflexpr.hpp:916-1140 | a loop over the fields of a type is its body once for each field, in their order |
| TypeBindings.FieldMembers | include/generic_reflexpr.hpp:916-1140 | and in it the members of the field are that field's own name and type |
| TypeBindings.ArmTaken | include/generic_reflexpr.hpp:916-1140 | a choice by kind becomes the first arm of the field's kind, else the last default arm, else nothing |
| Loading.LoadExactly | include/bytecode_decoder.hpp:24-215 | which files are images, field by field, and what is read from one; also ImageLoader.LoadProgram |
| CodeFormat.DecodeExactly | include/bytecode_decoder.hpp:386-477 | which bytes are which instruction: the opcode is the place of its name in the instruction set, the operands are of that instruction's kind and stand behind it, least significant byte first |
| CodeFormat.TypeExactly | include/bytecode_decoder.hpp:479-539 | which bytes are which type operand, of any nesting |
| CodeFormat.WalkExactly | include/bytecode_decoder.hpp:350-384 | the check of a blob passes exactly if it is instructions from end to end, those the interpreter model leaves out included |
| WireFormat.MessageExactly | include/pipe_hub_protocol.hpp:322-366 | a body is decoded to a message exactly if its bytes begin with it: opcode, then each field in place |
| WireFormat.MessageSent | include/pipe_hub_protocol.hpp:229-309 | what the encoders send is that |
| WireFormat.FrameSent | include/pipe_hub_protocol.hpp:215-227 | a frame is the length of its body in 32 bits and the body |
| WireFormat.ValueExactly | include/vm_pipe.hpp:292-370 | a payload is decoded to a value, ending at an offset, exactly if those bytes are that value: tag, then contents in place, elements and fields in order |
| WireFormat.ValueSent | include/vm_pipe.hpp:170-290 | what is sent of a value is that |
| WireFormat.SendableExactly | include/vm_pipe.hpp:170-290 | a value can be sent exactly if nothing in it, at any depth, is a map, handle or function or has 2^32 bytes or elements |
| DebugMaps.AnchorsOnce | include/bytecode_compiler.hpp:430-450 | a known position is recorded for the code behind it unless it just has been, an unknown one never |
| Precedence.BindsExactly | include/parser.hpp:400-507 | an expression is read as a tree ending at a token exactly if its tokens are a chain of operands and operators up to one that is no operator, and in that tree the operator applied last is the rightmost of the loosest, and so on down |
| Precedence.WholeBinds | include/parser.hpp:377-398 | the same of whole expressions, which may be inserted into a pipe or channel |
| Precedence.TwoOperators | include/parser.hpp:400-507 | `a p b q c` is `a p (b q c)` if q binds tighter, else `(a p b) q c`, for any operands and any two operators |
| Precedence.PrefixesRead | include/parser.hpp:509-543 | prefixes apply from the inside out to all that its postfixes make of an operand |
| Precedence.ClosesExactly | include/parser.hpp:1490-1521 | a `<` is taken for type arguments exactly if a later `>` closes it, counting those between, no statement ends before, and a parenthesis follows |
| Precedence.SumsAndProducts | include/parser.hpp:473-507 | `1 + 2 * 3`, `1 * 2 + 3` and `1 - 2 - 3` |
| Precedence.NegatedMember | include/parser.hpp:509-543 | `-a.b` negates the member |
| Arithmetic.RoundsToNearest | include/vm.hpp:2395-2428 | no double is nearer to an integer than the one it is converted to, and of two that are as near it is the one with the even mantissa |
| Arithmetic.RoundsToDouble | include/vm.hpp:2395-2428 | and that is a double |
| Arithmetic.DivisionTruncates | include/vm.hpp:2319-2394 | division truncates: the remainder is smaller than the divisor and has the dividend's sign |
| Arithmetic.IntegersFold | include/type_checker.hpp:1176-1218 | what arithmetic on integers folds to: the exact result but for a multiple of 2^64, nothing on division by zero |
| Arithmetic.ComparisonsFold | include/type_checker.hpp:1123-1186 | comparisons fold to those of the rounded integers, within 2^53 of the integers |
| Arithmetic.OthersFold | include/type_checker.hpp:1080-1164 | what strings and booleans fold to |
| Arithmetic.NothingElseFolds | include/type_checker.hpp:1119-1225 | and that nothing else does |
| Arithmetic.LogicalFolds | include/type_checker.hpp:1119-1122 | `&&` and `||` fold to a boolean, and only if both sides fold |
| Arithmetic.LeavesFold | include/type_checker.hpp:1043-1070 | of literals and names: a character folds to the text of it, of the names only `_` |
| Arithmetic.IntegersRun | include/vm.hpp:2319-2394 | what the theorems about folding take the machine's arithmetic to be: exact, or an overflow |
| Arithmetic.IntegersCompared | include/vm.hpp:2395-2428 | and its comparisons: equality of the integers, order of the rounded ones |
| Arithmetic.OthersRun | include/vm.hpp:2280-2318 | and its operators on strings, characters and booleans |
| Arithmetic.UnaryRun | include/vm.hpp:2796-2830 | and `!`, negation and `len` |

## Left out

- Source positions are not in the tree: a function says where the statements are that the generator reaches, one after the other.
- Values and operators: arithmetic, comparison, indexing, casts and native calls are parameters of the model, fixed only where a theorem needs them (`IntOps` for counted loops, `VmOps` for folded constraints); floats, regular expressions and objects are opaque.
- SIMD lowering of element-wise loops, the JIT, branch prediction and profile feedback: `HINT_BRANCH` does nothing.
- `likely` and `unlikely` calls: the tree has the hint in the if-chain and no such call.
- Constrained constructors, enum and object declarations, locks, `insert`, pipe, channel and `free` expressions, nested function and lambda declarations: the tree has none of these; the interpreter model has no step for their opcodes, which the loader only walks over.
- Functions are compiled before the top level, so string offsets may differ from those of the compiler, which meets declarations in program order.
- Exception texts and stack traces are abbreviated; a fault carries its kind and a message.
- An if-chain is a chain datatype walked by a loop; the source keeps a vector of arms.
- Threads: calls from other threads, locks and the scheduler.
- The hub: failing writes in the middle of a delivery (a payload in flight is lost there), the transport, process start-up, and `awaiting_data_ack`, which nothing ever sets.
- The hub's error texts are reasons, and a client's input buffer is kept in a table beside its attachments.
- Encoders only flag bodies of 2^32 bytes and more; the model truncates the length there and the round trips ask for less.
- The client library: reader thread, reconnection, timeouts and backoff; only its one-outstanding-offer discipline is stated.
- The resolver, the type checker but for the folding of constraints, analyser, printers, decompiler and JSON support.
- Simulation.CompilerCorrect: speaks of code already laid out, and of endings; that the emitter lays it out so is Emitter.CodeEmitter.EmitStmt and Package.CompilePackage, and both together are EndToEnd.BytesFollowSource. Enum, object, lock and insert statements are not in the tree.
- Delivery.PipeDelivery: every write to a live client succeeds; a payload whose write fails during a flush is lost in the source.
- The expander: `::construct`, reflection of packages, functions, parameters and meta parameters, and compile-time conditions; the first error ends the expansion, where the source records it and goes on; the types of a copy's parameters and result are not kept.
- Folding.FoldRuns: floats, objects and enum members do not fold in the model; signed overflow, undefined in the source, wraps when it is folded, and the least integer divided by -1 has no run. The construction itself, with its `fail` call, is not in the tree.
- The parser: literals other than integers, array, tuple, map and lambda literals, casts, pipe and channel reads, and type arguments other than names and arrays; the first error ends the parse.
