# Verified models of ART's command-line and daemon components

A Dafny 4.11 project about parts of the Android Runtime repository: the control-flow graphs of
dexdump, the file transactions and dex optimisation of artd, the ADB debugger connection, the
data section and formats that dexlayout reads and writes, and the comparison of class definitions.
`dafny verify dfyconfig.toml` checks all of it.

| module | about |
|---|---|
| Cfg | the control-flow-graph builder of dexdump, both passes, as sets of edges |
| FileCommit | artd's NewFile and the all-or-nothing commit of several files over a file system that may fail at any call |
| CommitBoundary | the plans for which that commit can go wrong |
| Dexopt | artd's dexopt call on top of it, and the cancellation signal |
| AdbProtocol | the debugger connection of adbconnection composed with the transport of dt_fd_forward over a FIFO channel |
| Jdwp | the bytes of one connection while no agent is loaded: handshake, packets, replies |
| DebuggerData | both of these together: whole runs of the plugin down to the bytes of its connections |
| DdmPublish | DDM messages published by threads beside the poll thread, under the eventfd lock |
| JdwpArgs | the parser and printer of the agent's options |
| Leb128, EncodedValue, EncodedValueWriter | LEB128 numbers; the reader and the writer of encoded values |
| CatchHandlers | the list of catch handlers as the IR builder reads it |
| HandlerRewrite | the tries and the list written back, and read again |
| DexStream, DataSection | the growing stream of the data section; its items, deduplication and rollback |
| CompactOffsetTable, DebugInfoTable | the table of debug-info offsets, and when it can be built |
| MapOrder | the IR builder's collections, shared by key and sorted by it |
| ClassDefsVerify | the comparison of the class definitions of two dex files |
| Bytes, Arithmetic, Wrappers | shared helpers |

Imperative code is a class or a method with loops, proved against functions of values; the theorems
are about those functions and about whole runs. A call into the environment (a rename, a send, an
unreadable file, the end of a process) is a choice that the theorems quantify over.

The transport's messages follow dt_fd_forward/dt_fd_forward.cc; dt_fd_forward/README.md does not
mention the handshake-complete message that the code sends before it stops listening.

Six properties that the code suggests do not hold of it, and the exact boundary is proved instead:

- A connection is handed over with "skip" only after the plugin shook hands on it, but when that
  very message is lost the fds are sent again with the request to shake hands, and both sides do
  (`AdbProtocol.LostSkipShakesTwice`, `AdbProtocol.SkipCanBeLost`): the transport then waits for a
  handshake that has been consumed (`DebuggerData.LostSkipMissesBoundary`). Every run that loses no
  such message is safe, down to the bytes (`DebuggerData.EveryHandoverAtBoundary`).
- Writing an encoded value and reading it back gives the value exactly when no part of it is of an
  unknown type (`EncodedValueWriter.RoundTrip`): the writer writes nothing for such a part
  (`EncodedValueWriter.UnknownIsLost`).
- A commit of several files is all or nothing unless an old file can be moved aside to the name of
  another path that is moved, moved back or committed while it holds that file, or a temporary of the
  new files is itself listed. `FileCommit.Plannable` says so of the plan, and counts only the paths
  that are reached before a directory stops the commit; a plan is all or nothing in every run if and
  only if it is plannable (`CommitBoundary.ExactBoundary`).
- The walk over the catch handlers ends within the list exactly when no two entries have the same
  offset modulo 2^16 (`CatchHandlers.BuildHandlers`); there are legal lists where two of them do
  (`CatchHandlers.WalkCanPass`).
- A list of catch handlers that has been written can be read again as the same list exactly when its
  size and all entries but the last were in their shortest forms (`HandlerRewrite.RereadsExactly`);
  otherwise an entry shrinks in place, and the walk takes the gap behind it for an entry
  (`HandlerRewrite.GapHidesEntry`).
- The comparison of class definitions looks only at the first definition of each type. It says that
  these agree exactly when both files define the same number of types
  (`ClassDefsVerify.AcceptsFirstDefinitions`); otherwise a class too many goes unnoticed
  (`ClassDefsVerify.DuplicateHidesClass`).

## Model

| member | source | states |
|---|---|---|
| Cfg.CollectTargets | dexdump/dexdump_cfg.cc:42-70 | the loop collects exactly the branch and switch targets |
| Cfg.CutBlocks | dexdump/dexdump_cfg.cc:72-144 | the loop that starts blocks computes the ids of block starts and of the block of every instruction |
| Cfg.NodeIdsExact | dexdump/dexdump_cfg.cc:73-97 | the ids are those of exactly the block starts, as many as there are blocks |
| Cfg.InclIdsExact | dexdump/dexdump_cfg.cc:74-97 | every instruction address, and no other, has the id of its block |
| Cfg.EnterBlock | dexdump/dexdump_cfg.cc:165-201 | at a block start the previous block's common handlers are flushed and a fall-through is connected |
| Cfg.Flush | dexdump/dexdump_cfg.cc:169-181 | the exception edges carried through a block are emitted at its end |
| Cfg.Visit | dexdump/dexdump_cfg.cc:196-272 | one instruction adds its taken edges and keeps or gives up the common set of handlers |
| Cfg.FirstPass | dexdump/dexdump_cfg.cc:152-289 | the first pass emits exactly the regular, taken and flushed edges, and lists the blocks it gave up |
| Cfg.DetailBlock | dexdump/dexdump_cfg.cc:293-330 | the walk through one block given up emits the edges of each of its instructions and ends with the block |
| Cfg.SecondPass | dexdump/dexdump_cfg.cc:290-331 | the second pass emits exactly the edges of the blocks given up, in whatever order they come |
| Cfg.DumpMethodCFG | dexdump/dexdump_cfg.cc:36-352 | the passes together give the specified graph |
| Cfg.ExceptionEdgesExact | dexdump/dexdump_cfg.cc:152-331 | a block has an exception edge for a handler if and only if the handler is an instruction address and covers some instruction of the block, whichever pass emitted it |
| Cfg.ExceptionEdgeSound | dexdump/dexdump_cfg.cc:167-181 | an exception edge points to the handler's block, and one of an instruction leaves an instruction that the handler covers |
| Cfg.FlowEdgesExact | dexdump/dexdump_cfg.cc:183-251 | control passes from one instruction to another if and only if they follow one another inside a block or the graph has the regular or taken edge |
| Cfg.FlowEdgeSound | dexdump/dexdump_cfg.cc:183-251 | every regular or taken edge is a fall-through, a branch or a switch successor |
| Cfg.TargetIsLeader | dexdump/dexdump_cfg.cc:79-97 | no branch or switch target lies inside a block |
| Cfg.BlocksPartition | dexdump/dexdump_cfg.cc:72-97 | the block of an instruction is the one with the greatest start at or before it |
| Cfg.BlockIdsConsecutive | dexdump/dexdump_cfg.cc:72-97 | blocks are numbered consecutively in address order, none left out |
| Cfg.ExecutionsArePaths | dexdump/dexdump_cfg.cc:146-331 | every execution, with its exceptions, is a path of the graph |
| Cfg.LinksAreSteps | dexdump/dexdump_cfg.cc:146-331 | every link of the graph is a step of some execution |
| FileCommit.NewFile.Create | artd/file_utils.cc:59-116 | a new temporary file, or no trace of it when a later step fails |
| FileCommit.NewFile.CommitOrAbandon | artd/file_utils.cc:75-90 | the temporary becomes the final file, or is gone |
| FileCommit.NewFile.Cleanup | artd/file_utils.cc:92-100 | an open file's temporary is unlinked |
| FileCommit.MoveAside | artd/file_utils.cc:152-189 | the files moved are those of a run under names that were free when they were picked; it stops only at a failing call or a directory |
| FileCommit.RunAside | artd/file_utils.cc:161-189 | when no name clashes, any such run leaves the old files of a prefix of the paths under fresh names and everything else as it was |
| FileCommit.StopsAtDirectory | artd/file_utils.cc:161-169 | no run passes the first directory of the list, whatever names are picked |
| FileCommit.MovingAsideStep | artd/file_utils.cc:161-189 | moving one more file keeps the bookkeeping, whatever free name mkstemps picks, if none can clash with a listed path |
| FileCommit.CommitEach | artd/file_utils.cc:191-194 | the commits of a prefix are done in order, the failing one alone lost its temporary; it stops only at a failing call, a missing temporary or a directory |
| FileCommit.CommitNext | artd/file_utils.cc:75-90 | one more commit is done, or its temporary is gone |
| FileCommit.CommitsInstall | artd/file_utils.cc:191-194 | from a state in which no final path is taken the commits install the new contents, the last for each path |
| FileCommit.InstalledStep | artd/file_utils.cc:191-194 | one more commit turns the specified state into the next, also when two files share a final path |
| FileCommit.DropNewFiles | artd/file_utils.cc:127-135 | the guard unlinks the new files that were committed and the temporaries of the others |
| FileCommit.MoveAllBack | artd/file_utils.cc:137-149 | every file is moved back in order, where a move whose file is gone or whose place is a directory changes nothing |
| FileCommit.BackRestores | artd/file_utils.cc:137-149 | moving back in order undoes moving aside under fresh names |
| FileCommit.RollBack | artd/file_utils.cc:127-150 | what the guard leaves, from any failure point |
| FileCommit.InstalledAll | artd/file_utils.cc:191-203 | with every commit done and the stashes unlinked the file system is the committed one |
| FileCommit.PlannableIsRight | artd/file_utils.cc:123-206 | for a plannable plan, any names, any failure point: on success every final path has its last new content, every removed path is gone, nothing else changed; on failure only the new temporaries are gone |
| FileCommit.CommitAllOrAbandon | artd/file_utils.cc:123-206 | for any number of files, any plan and any failure, what it leaves is the outcome of a possible run; for a plannable plan that is all or nothing, and it fails only when a call on the file system failed or a listed path is a directory |
| CommitBoundary.ClashWithLater | artd/file_utils.cc:137-189 | a free name that clashes with a path listed later: the old file is moved twice, and moving back in order does not bring it back |
| CommitBoundary.ClashWithEarlier | artd/file_utils.cc:137-189 | a clash with an old file that was moved before: moving back puts the one over the other |
| CommitBoundary.ClashWithFinal | artd/file_utils.cc:191-203 | a clash with a final path: unlinking the old files at the end takes the new file |
| CommitBoundary.PicksCanHappen | artd/file_utils.cc:170-175 | each name of such a run is free when mkstemps picks it |
| CommitBoundary.ListedTempBreaks | artd/file_utils.cc:123-206 | a listed temporary of a new file is moved aside with the old files and comes back on failure |
| CommitBoundary.UnplannableBreaks | artd/file_utils.cc:123-206 | for every plan that is not plannable there are a choice of names and a failure point for which a failure does not restore the files, or a choice for which a success does not install them |
| CommitBoundary.ExactBoundary | artd/file_utils.cc:123-206 | a plan is all or nothing in every possible run if and only if it is plannable, with or without new files and directories in the list |
| Dexopt.CancellationSignal.Cancel | artd/artd.cc:1192-1200 | every registered process is killed and later ones will be |
| Dexopt.CancellationSignal.OnStart | artd/artd.cc:1136-1145 | a process started after the cancellation is killed at once |
| Dexopt.CancellationSignal.OnEnd | artd/artd.cc:1146-1151 | an ended process is no longer killed |
| Dexopt.AppendEntry | artd/artd.cc:1136-1151 | what one more start, end or kill does to who is alive and who was killed |
| Dexopt.RunSignal | artd/artd.cc:1136-1200 | in every interleaving of cancel, start and end, the log has all of the calls in order; once cancelled every live process has been killed since its start, and no kill hits a process that is not alive |
| Dexopt.CreateOutputs | artd/artd.cc:1033-1063 | the oat, vdex, image and swap files are created, or the file system is as before |
| Dexopt.RunDex2oat | artd/artd.cc:1136-1172 | the signal is told of the start and the end of the process, wherever it is cancelled; the exit code is the process's own, and on exit code 0 the outputs are complete |
| Dexopt.Measure | artd/artd.cc:1174-1183 | the two sums are the sizes of the old and of the new artifacts, what cannot be read counting as zero |
| Dexopt.CommitOutputs | artd/artd.cc:1184-1184 | the outputs replace the old artifacts and a stale image is removed, or nothing changes |
| Dexopt.CommittedIsOptimized | artd/artd.cc:1043-1056 | committing the planned files is exactly replacing the artifacts |
| Dexopt.Dexopt | artd/artd.cc:1033-1190 | unless it returns success the file system is unchanged; on success the artifacts are the new ones and the reported sizes are the totals of what could be read of the old and of the new ones; with no failing call it succeeds on exit code 0 unless a directory is in the way, and without an exit code it reports a cancellation exactly when the signal was cancelled |
| AdbProtocol.AdbConnectionState.CloseFds | adbconnection/adbconnection.cc:316-332 | the connection and its handshake are forgotten; DDM ends unless an agent is loaded |
| AdbProtocol.AdbConnectionState.SendAgentFds | adbconnection/adbconnection.cc:441-485 | fds are marked sent if and only if the message went out |
| AdbProtocol.AdbConnectionState.OnAgentMessage | adbconnection/adbconnection.cc:572-605 | each message of the agent has its specified effect and sends what it should |
| AdbProtocol.AdbConnectionState.OnNewConnection | adbconnection/adbconnection.cc:606-638 | a connection is taken when there is none, and handed to a listening agent |
| AdbProtocol.AdbConnectionState.OnAdbData | adbconnection/adbconnection.cc:647-656 | data without an agent is handled here; with a listening one the fds are handed over |
| AdbProtocol.AdbConnectionState.OnAdbHangup | adbconnection/adbconnection.cc:657-660 | a hang-up closes the connection |
| AdbProtocol.FollowAppend | dt_fd_forward/dt_fd_forward.cc:288-460 | one more message under way advances the session as the agent did |
| AdbProtocol.InvReadMessage | adbconnection/adbconnection.cc:572-605 | reading any message that can arrive keeps the invariant |
| AdbProtocol.InvHandshake | dt_fd_forward/dt_fd_forward.cc:288-460 | the transport's handshake keeps it, whether it succeeds or fails |
| AdbProtocol.InvStep | adbconnection/adbconnection.cc:549-661 | every step of the composed system keeps the invariant unless it loses a "skip" |
| AdbProtocol.EveryRunSafe | adbconnection/adbconnection.cc:535-661 | in every run that loses no "skip", at most one set of fds is pending, fds are sent only in turn, each connection is handshaken by at most one side and by exactly one once the agent uses it, and "skip" is said only of a connection the plugin shook hands on |
| AdbProtocol.LostSkipShakesTwice | adbconnection/adbconnection.cc:584-588 | from any state of a safe run, losing a "skip" can be followed by steps that lose nothing and end with both sides having shaken hands: the condition of the theorem cannot be dropped |
| AdbProtocol.SkipCanBeLost | adbconnection/adbconnection.cc:441-485 | such a state is reached by a run from the start |
| AdbProtocol.Execute | adbconnection/adbconnection.cc:549-661 | each branch of the poll loop does to the plugin what its step does in the composed system, and sends the same |
| AdbProtocol.RunPlugin | adbconnection/adbconnection.cc:535-661 | along every run of the composed system the plugin's state and all that it sent are those of the run |
| DebuggerData.OutcomeOfFits | adbconnection/adbconnection.cc:675-773 | whatever bytes are there, handling them comes to an outcome that the protocol admits |
| DebuggerData.HandleData | adbconnection/adbconnection.cc:647-773 | the state of the plugin and the bytes left after data without an agent are those that the bytes lead to, and only a packet with a whole chunk makes DDM active |
| DebuggerData.WokenFramed | adbconnection/adbconnection.cc:675-773 | a wake-up loses no byte and takes the handshake, one whole packet or nothing |
| DebuggerData.BoundaryExactly | adbconnection/adbconnection.cc:584-656 | in any state, fds are handed over with the debugger's bytes at the handshake or a packet boundary, as they say, if and only if they say rightly whether the plugin has shaken hands |
| DebuggerData.EveryHandoverAtBoundary | adbconnection/adbconnection.cc:535-773 | in every run that loses no skip, however the bytes arrive and the calls fail: whenever fds are delivered with "perform" nothing of their connection was consumed, whenever with "skip" the consumed bytes are the handshake and whole packets, and all others are still unread |
| DebuggerData.LostSkipMissesBoundary | adbconnection/adbconnection.cc:584-656 | a run that loses a skip and then hands over a consumed handshake to be shaken again |
| DebuggerData.RunDebugger | adbconnection/adbconnection.cc:535-773 | the plugin driven through any events delivers exactly these handovers, and its connection holds exactly these bytes |
| Jdwp.PacketsAtBoundary | adbconnection/adbconnection.cc:675-773 | packets parsed from whole packets and a rest are those packets followed by those of the rest |
| Jdwp.WholePacketsParse | adbconnection/adbconnection.cc:675-773 | bytes that are whole packets are the concatenation of what is parsed from them |
| Jdwp.DdmPacketIsPacket | adbconnection/adbconnection.cc:354-439 | a DDM packet with its headers is one whole packet |
| Jdwp.Connection.PerformHandshake | adbconnection/adbconnection.cc:775-814 | the connection stays open if and only if the handshake is there and the calls succeed; then exactly its bytes are consumed and answered |
| Jdwp.Connection.HandleDataWithoutAgent | adbconnection/adbconnection.cc:675-773 | the bytes consumed stay the handshake and whole packets, also when it closes; exactly when the connection is closed, when a packet is handled and answered, and when it is left unread for the agent |
| Jdwp.Connection.HandlePacket | adbconnection/adbconnection.cc:706-770 | one packet is consumed, and a whole chunk that has an answer is replied to under its id |
| Jdwp.Connection.Answer | adbconnection/adbconnection.cc:740-772 | a reply is written exactly to a whole chunk that has an answer |
| Jdwp.MessageOfPacket | adbconnection/adbconnection.cc:354-439 | a DDM packet is one whole packet and is read back as the message it was made of |
| Jdwp.AgentStartsAtBoundary | adbconnection/adbconnection.cc:675-834 | the packets handled here followed by those the agent parses are the packets of the whole stream |
| Jdwp.RunConnection | adbconnection/adbconnection.cc:675-834 | over every sequence of arrivals, data events, closes and hang-ups, no byte that arrived is lost or taken twice, what was consumed and sent is well framed, also once the connection is closed, and the packets handled here followed by those of the rest are those of the stream |
| DdmPublish.InvWrite | adbconnection/adbconnection.cc:354-439 | a writer that holds the lock appends the packet of its message to the connection it checked |
| DdmPublish.InvStep | adbconnection/adbconnection.cc:316-439 | every step of the poll thread and of the publishers keeps the invariant |
| DdmPublish.EveryInterleavingSafe | adbconnection/adbconnection.cc:354-439 | in every interleaving, the bytes of each connection are nothing, or the handshake reply followed by the packets of exactly the messages sent on it in their order, and nothing is written to a connection that is closed or not yet shaken |
| DdmPublish.DebuggerReceives | adbconnection/adbconnection.cc:354-439 | in every interleaving, the debugger parses the bytes behind the handshake into exactly the packets, and these into exactly the messages, that were sent on its connection |
| JdwpArgs.JdwpArgs.constructor | adbconnection/jdwpargs.cc:26-52 | the loop over the option string computes the specified store |
| JdwpArgs.JdwpArgs.PutToken | adbconnection/jdwpargs.cc:34-50 | a token is stripped of white space and stored, or ignored without a key or a value |
| JdwpArgs.JdwpArgs.PutArg | adbconnection/jdwpargs.cc:54-60 | a key keeps the place of its first insertion and takes the last value |
| JdwpArgs.JdwpArgs.JoinArgs | adbconnection/jdwpargs.cc:62-74 | the store is printed as specified |
| JdwpArgs.ParseWellFormed | adbconnection/jdwpargs.cc:26-60 | for every string, the keys are duplicate-free, those of the store, and keys and values are fit to be printed |
| JdwpArgs.SplitJoin | adbconnection/jdwpargs.cc:62-74 | splitting what is printed gives the entries in order |
| JdwpArgs.RoundTrip | adbconnection/jdwpargs.cc:26-74 | a store survives printing and parsing if and only if it is well formed |
| JdwpArgs.Reparse | adbconnection/jdwpargs.cc:26-74 | for every string, parsing what is printed gives the same ordered store |
| JdwpArgs.AgentOrder | adbconnection/adbconnection.cc:888-917 | the transport comes before the address if and only if the user's options do not name the address first |
| JdwpArgs.AgentValues | adbconnection/adbconnection.cc:888-917 | the connection's own settings win, the user's others are kept |
| JdwpArgs.FixKeepsWellFormed | adbconnection/adbconnection.cc:859-883 | the fix changes nothing but the log file, which is an absolute path where the package is known |
| JdwpArgs.AgentParses | adbconnection/adbconnection.cc:888-917 | what the agent parses from its options, for every option string of the user and every package |
| JdwpArgs.MakeAgentArg | adbconnection/adbconnection.cc:859-917 | the argument is the agent's name and the printed store, its log file fixed |
| Leb128.DecodeUnsignedInverts | libartbase/base/leb128.h:33-56 | the decoder reads every form of a number, longer ones too, and takes exactly its bytes |
| Leb128.DecodeSignedInverts | libartbase/base/leb128.h:116-147 | the same for signed numbers |
| Leb128.DecodeUnsignedLeb128 | libartbase/base/leb128.h:33-56 | the unrolled decoder computes the specified value and size |
| Leb128.DecodeSignedLeb128 | libartbase/base/leb128.h:116-147 | the unrolled decoder with its shifts in 32 bits computes the sign-extended value |
| Leb128.EncodeUnsignedIsUleb | libartbase/base/leb128.h:246-256 | the encoder's bytes are a form of the number |
| Leb128.EncodeSignedIsSleb | libartbase/base/leb128.h:284-296 | the same for signed numbers |
| Leb128.EncodeUnsignedLeb128 | libartbase/base/leb128.h:246-256 | the encoder's loop computes that form |
| Leb128.EncodeSignedLeb128 | libartbase/base/leb128.h:284-296 | the loop over the bits left computes that form |
| Leb128.ShortestUnsigned | libartbase/base/leb128.h:246-256 | no form of the number is shorter |
| Leb128.ShortestSigned | libartbase/base/leb128.h:284-296 | no signed form is shorter |
| Leb128.UniqueUnsigned | libartbase/base/leb128.h:246-256 | the only form of that length is the encoder's |
| Leb128.UniqueSigned | libartbase/base/leb128.h:284-296 | the same for signed numbers |
| EncodedValue.ShiftSignExtends | dexlayout/dex_ir_builder.cc:34-44 | shifting up in 64 bits and arithmetically back is sign extension |
| EncodedValue.ReadVarWidth | dexlayout/dex_ir_builder.cc:34-44 | the loop reads the little-endian number of the given width, with sign or zero extension |
| EncodedValue.ReadNumMeaning | dexlayout/dex_ir_builder.cc:1120-1185 | at every legal width of every kind the number read is the one meant: sign extension, zero extension or right fill |
| EncodedValue.ReaderInverts | dexlayout/dex_ir_builder.cc:1097-1223 | for every layout of a value, arbitrarily nested and with any legal widths, the reader finds the value and takes exactly its bytes, whatever follows |
| EncodedValue.ReadEncodedValue | dexlayout/dex_ir_builder.cc:1097-1118 | the recursive cursor code computes what the reader is specified to, and ends on the remaining bytes |
| EncodedValue.ReadEncodedNumber | dexlayout/dex_ir_builder.cc:1120-1185 | each kind of number is converted as specified |
| EncodedValue.ReadEncodedArray | dexlayout/dex_ir_builder.cc:1186-1200 | the loop reads as many values as the size says |
| EncodedValue.ReadEncodedAnnotation | dexlayout/dex_ir_builder.cc:1201-1214 | type, size and elements are read in order |
| EncodedValueWriter.PayloadMeans | dexlayout/dex_writer.cc:33-108 | the bytes chosen for a number of any kind are legal for it and mean it |
| EncodedValueWriter.EncodeIntValue | dexlayout/dex_writer.cc:33-74 | the loops write the shortest two's-complement bytes, for int and long values |
| EncodedValueWriter.EncodeUIntValue | dexlayout/dex_writer.cc:50-57 | the loop writes the shortest unsigned bytes |
| EncodedValueWriter.EncodeRightFilled | dexlayout/dex_writer.cc:81-108 | the loop writes the bytes from the top without the zero bytes at the bottom, for floats and doubles |
| EncodedValueWriter.WriteEncodedValue | dexlayout/dex_writer.cc:115-187 | the recursive writer appends the specified bytes |
| EncodedValueWriter.WriteEncodedArray | dexlayout/dex_writer.cc:189-194 | size and values are appended in order |
| EncodedValueWriter.WriteEncodedAnnotation | dexlayout/dex_writer.cc:196-204 | type, size, names and values are appended in order |
| EncodedValueWriter.LayoutStandsFor | dexlayout/dex_writer.cc:115-204 | what is written is a legal layout that stands for the value |
| EncodedValueWriter.RoundTrip | dexlayout/dex_writer.cc:115-204 | writing and reading gives a value back and takes exactly its bytes if and only if every part of it is of a known type |
| EncodedValueWriter.UnknownIsLost | dexlayout/dex_ir_builder.cc:1120-1223 | there is such a value that can be read and not be written back |
| EncodedValueWriter.RewriteShrinks | dexlayout/dex_ir_builder.cc:1097-1223 | whatever bytes were read, the value is in range and is written in no more bytes, and in fewer by each part of unknown type |
| CatchHandlers.HandlerInverts | libdexfile/dex/dex_file_exception_helpers.cc:70-103 | reading an entry gives its handlers and takes exactly its bytes |
| CatchHandlers.ReadEntry | dexlayout/dex_ir_builder.cc:845-851 | reading at the offset of any entry of a list gives that entry |
| CatchHandlers.DecodeHandler | dexlayout/dex_ir_builder.cc:871-899 | the loops of the walk decode one entry |
| CatchHandlers.HandlersOfTries | dexlayout/dex_ir_builder.cc:831-857 | the tries list the entries they point at, each once |
| CatchHandlers.PassedMeansSame | dexlayout/dex_ir_builder.cc:862-862 | if the walk has passed the last entry and still misses one, two entries have the same 16-bit offset |
| CatchHandlers.BuildHandlers | dexlayout/dex_ir_builder.cc:828-902 | for every list and any tries that point at entries, the walk ends within the list if and only if no two entries have the same 16-bit offset; then every entry is in the list exactly once; and each try has its own |
| CatchHandlers.ShortListsDiffer | dexlayout/dex_ir_builder.cc:862-864 | lists within 64 kB are of that kind |
| CatchHandlers.WalkCanPass | dexlayout/dex_ir_builder.cc:862-886 | a legal list of two entries that is not |
| CatchHandlers.EncodeCatchHandler | dexlayout/dex_writer.cc:552-562 | the loop encodes one entry |
| CatchHandlers.ShortestKeeps | dexlayout/dex_writer.cc:552-562 | written anew an entry stands for the same handlers in no more bytes |
| CatchHandlers.BlocksDisjoint | dexlayout/dex_writer.cc:549-566 | however the tries ordered the list, entries written at their old offsets do not overlap each other or the size |
| CatchHandlers.LookupsPreserved | dexlayout/dex_writer.cc:533-567 | at every handler offset of the written list are the handlers that were there |
| CatchHandlers.ShortestListReproduced | dexlayout/dex_writer.cc:533-567 | a list in shortest forms comes out byte for byte |
| HandlerRewrite.EncodeTries | dexlayout/dex_writer.cc:538-548 | the loop writes each try with its range and the offset of the handlers it was given |
| HandlerRewrite.TriesInvert | dexlayout/dex_writer.cc:538-548 | each try is read back from its eight bytes |
| HandlerRewrite.RewriteHandlers | dexlayout/dex_writer.cc:533-567 | from the bytes of one code item to those of the next the tries come out as they were, and behind them every handler offset keeps its handlers |
| HandlerRewrite.SameLengthHandler | dexlayout/dex_writer.cc:552-562 | an entry that does not shrink when written anew was in its shortest form |
| HandlerRewrite.RereadsExactly | dexlayout/dex_writer.cc:549-566 | what was written can be read again as the same entries at the same offsets if and only if the size and every entry but the last were in their shortest forms |
| HandlerRewrite.GapHidesEntry | dexlayout/dex_writer.cc:549-566 | a legal list whose second entry is not found again |
| DexStream.VectorSection.Resize | dexlayout/dex_container.h:71-73 | growth adds zeros, shrinking drops the end |
| DexStream.Stream.EnsureStorage | dexlayout/dex_writer.h:156-162 | from any size the growth ends with the range inside, and only zeros are added |
| DexStream.Stream.Seek | dexlayout/dex_writer.h:85-88 | the position moves and is inside the storage |
| DexStream.Stream.Write | dexlayout/dex_writer.h:90-99 | over zeros, the bytes are put at the position and nothing else changes |
| DexStream.Stream.Clear | dexlayout/dex_writer.h:108-112 | the range is zero and nothing else changes |
| DexStream.Stream.WriteUleb128 | dexlayout/dex_writer.h:122-128 | the number's bytes are put at the position |
| DexStream.Stream.AlignTo | dexlayout/dex_writer.h:130-133 | the next multiple of the alignment |
| DexStream.Stream.Skip | dexlayout/dex_writer.h:135-138 | the position moves over zeros |
| DexStream.WroteCleared | dexlayout/compact_dex_writer.cc:130-134 | clearing what was written into zeros undoes it |
| DataSection.Deduper.Dedupe | dexlayout/compact_dex_writer.cc:219-229 | an earlier range with the same live bytes is found whenever there is one, through the hash; otherwise the range is entered |
| DataSection.TableKept | dexlayout/compact_dex_writer.h:53-81 | the table means the same as long as the bytes before the position stay |
| DataSection.SoundKept | dexlayout/compact_dex_writer.cc:106-136 | whatever touches nothing before the position keeps all items and the table |
| DataSection.SoundHit | dexlayout/compact_dex_writer.cc:125-135 | a deduplicated item's new offset holds its bytes and is not 0 |
| DataSection.SoundMiss | dexlayout/compact_dex_writer.cc:219-229 | a first item is entered under its bytes |
| DataSection.DataWriter.Settle | dexlayout/compact_dex_writer.cc:118-136 | the destructor: dedupe, clear and seek back, or keep; the item's bytes are at its offset, and it takes no space exactly when an earlier deduplicated item has its bytes |
| DataSection.DataWriter.WriteStringData | dexlayout/compact_dex_writer.cc:317-327 | length, characters and a terminator that is only skipped over are at the item's offset |
| DataSection.DataWriter.WriteDebugInfoItem | dexlayout/compact_dex_writer.cc:204-211 | the debug info is at the item's offset |
| DataSection.DataWriter.WriteCodeItem | dexlayout/compact_dex_writer.cc:142-202 | padding, preheader, code and handler list; the registered offset is the code's, on a multiple of 4 when it was padded for its payload |
| DataSection.DataWriter.WritePostInstructionData | dexlayout/dex_writer.cc:533-567 | tries, size and every entry are at their offsets after any order of seeks |
| DataSection.WriteBlocks | dexlayout/dex_writer.cc:549-566 | seeking back and forth between disjoint entries keeps all of them and ends behind the last |
| DataSection.DataWriter.NextDexFile | dexlayout/compact_dex_writer.cc:393-397 | trimming the section to the aligned position and opening it again keeps everything and leaves no gap |
| DataSection.RunOp | dexlayout/compact_dex_writer.cc:106-136 | any one write records its item and keeps the earlier ones |
| DataSection.WriteAll | dexlayout/compact_dex_writer.cc:106-136 | through any sequence of writes, dedupe hits, rollbacks and dex files, the bytes at every item's offset are its own encoding, no offset is 0, the no-overwrite check never fails, and equal string data or debug info share one offset |
| CompactOffsetTable.BlockFinds | libdexfile/dex/compact_offset_table.cc:36-59 | a block gives back each of its offsets through mask, bit count and differences modulo 2^32 |
| CompactOffsetTable.TableRoundTrip | libdexfile/dex/compact_offset_table.cc:36-129 | for every list of 32-bit offsets the accessor finds each of them in the built table |
| CompactOffsetTable.Build | libdexfile/dex/compact_offset_table.cc:72-129 | the loops build the specified table |
| CompactOffsetTable.BuildBlock | libdexfile/dex/compact_offset_table.cc:98-119 | mask and differences of one block |
| CompactOffsetTable.GetOffset | libdexfile/dex/compact_offset_table.cc:36-59 | the accessor with its bit test, its shifted population count and its loop computes the specified offset |
| CompactOffsetTable.BitTest | libdexfile/dex/compact_offset_table.cc:45-45 | the shifted bit is the one of the mask |
| CompactOffsetTable.BitsUpTo | libdexfile/dex/compact_offset_table.cc:49-51 | the population count of the word shifted up counts the bits up to the index |
| DebugInfoTable.CanGenerateCompactDex | dexlayout/compact_dex_writer.cc:329-374 | accepts if and only if no method id has two different code items in any of its visits |
| DebugInfoTable.TableMore | dexlayout/compact_dex_writer.cc:62-69 | with agreeing visits the conflict check cannot fail |
| DebugInfoTable.EntryUnique | dexlayout/compact_dex_writer.cc:40-72 | the entry of a method id does not depend on the order of the visits |
| DebugInfoTable.CollectPass | dexlayout/compact_dex_writer.cc:51-72 | one pass over the classes enters the methods of its kind |
| DebugInfoTable.CollectOffsets | dexlayout/compact_dex_writer.cc:40-72 | every entry is the method's debug-info offset, or 0 when it has none |
| DebugInfoTable.WriteDebugInfoOffsetTable | dexlayout/compact_dex_writer.cc:40-104 | in the encoded table the accessor finds that entry for every method id, so that the check of the output cannot fail |
| MapOrder.Collection.GetOrCreate | dexlayout/dex_ir_builder.cc:94-138 | the object of a key, for code items a pair of offsets, is created once and found again |
| MapOrder.Collection.SortByMapOrder | dexlayout/dex_ir.h:264-283 | moving the pointers out and back in map order loses none and leaves no null: a permutation in key order |
| MapOrder.BuildAndSort | dexlayout/dex_ir_builder.cc:579-619 | for any references, two share an object exactly when their keys are equal, and the sorted collection is the objects referred to, each once, by strictly increasing key; by strictly increasing offset exactly when no two keys share one |
| MapOrder.OrderByOffset | dexlayout/dex_ir_builder.cc:801-804 | the order of pairs is that of offsets if and only if equal offsets mean equal pairs |
| ClassDefsVerify.VerifyTypeList | dexlayout/dex_verify.cc:279-294 | type lists are equal, null only to null |
| ClassDefsVerify.VerifyClassDef | dexlayout/dex_verify.cc:224-277 | all parts agree, null counting as type 0 and as the empty name |
| ClassDefsVerify.InsertDef | dexlayout/dex_verify.cc:182-200 | insertion into the ordered set, nothing when the index is there |
| ClassDefsVerify.VerifyClassDefs | dexlayout/dex_verify.cc:190-222 | the loops accept what is specified |
| ClassDefsVerify.AcceptsSameClasses | dexlayout/dex_verify.cc:182-277 | for unique type indices, acceptance means exactly the same classes, each agreeing with its namesake |
| ClassDefsVerify.ReorderKeepsVerdict | dexlayout/dex_verify.cc:188-189 | reordering either list does not change the verdict |
| ClassDefsVerify.SetOfFirsts | dexlayout/dex_verify.cc:190-200 | the set that the loop builds holds exactly the first definition of each type |
| ClassDefsVerify.AcceptsFirstDefinitions | dexlayout/dex_verify.cc:182-222 | for any lists of equal length, acceptance means that the first definitions of each type agree if and only if both have the same number of types |
| ClassDefsVerify.DuplicateHidesClass | dexlayout/dex_verify.cc:212-221 | without unique indices a class too many goes unnoticed |

## Left out

- Text output: the DOT text of dexdump, error messages and logs; graphs are sets of edges.
- dex2oat, odrefresh, the runtime and the compiler: not part of this model.
- The environment of artd: permissions, SELinux labels, binder, process execution and time-outs are calls that succeed or fail.
- FileCommit.CommitAllOrAbandon: a call on the file system fails with no effect; crashes of the machine between two calls and a rename or unlink that fails while rolling back, other than for a missing file or a directory, are not modelled.
- CommitBoundary.ExactBoundary: supposes that the new files have temporaries of their own and that each path at risk has a free name left.
- Dexopt.Dexopt: path building, profile and context files and compiler flags are not part of this model; a failure to open any of them is one of the ways to abort.
- AdbProtocol.EveryRunSafe: the transport is used in the order set up, accept, stop listening, close; receive errors on the control socket are not modelled.
- DdmPublish.EveryInterleavingSafe: a write is complete or fails at once; partial writes are not modelled.
- DebuggerData.EveryHandoverAtBoundary: what the transport reads from a connection that it holds is not part of the wire.
- Jdwp.Connection.HandleDataWithoutAgent: which calls succeed and what a DDM handler answers are given for each wake-up; a reply is written completely.
- JdwpArgs.MakeAgentArg: the address and the package name are any texts that could be printed.
- EncodedValueWriter.RoundTrip: references are indices into the id tables, which are not modelled; floating-point values are their bits.
- CatchHandlers.BuildHandlers: requires a well-formed list whose type indices are below 0xFFFF, as the dex file verifier establishes before; what is decoded behind the last entry is not modelled.
- HandlerRewrite.RewriteHandlers: requires a list within 64 kB; entries further off would be written at their 16-bit offsets.
- DataSection.WriteAll: offsets are unbounded where the code keeps 32 bits; the length of a string in UTF-16 units and the bytes of items other than string data and handler lists are given.
- CompactOffsetTable.TableRoundTrip: at most 2^29 offsets, so that the starts of the blocks fit in 32 bits; the table is in little-endian order, which the code takes from the host.
- ClassDefsVerify.VerifyClassDef: annotations, class data and static values are compared by a given predicate; the whole-file comparison of dexlayout decides less than equality and is not modelled.
- The remaining sections that dexlayout reads and writes: id tables, type lists, annotations directories, the header and the map list.
