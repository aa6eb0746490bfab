# kraftkit in Dafny

A model of the parts of kraftkit that carry real state, and proofs of what they are
for. Each module has the form of the code it stands for: classes and loops where the
code updates things in place, functions where it computes, step relations where several
processes or threads interleave. `dafny verify dfyconfig.toml` checks everything.

**File locks** (`FileLock`, `FileLockSystem`, `FileLockRequests`). The lock manager of
`internal/filelock` emulates locks per open file on top of `fcntl` locks, which belong
to an (inode, process) pair. The model has any number of processes, each with its table
of owners and queues and its threads between any two atomic actions, and the kernel's
lock table. Every run keeps: one owner per inode, queues of exactly the blocked files in
order of arrival, a kernel lock behind every lock that is held, and a committed sender
for the receive that is done while the mutex is held. What a caller holds is what it
asked for.

**Locked files** (`LockedFile`, `LockedFileOrder`). `Transform` rewrites a file tail
first and rolls back on errors, over writes that stop after any number of bytes. With
the locks in place and no errors, any interleaving of Read, Write and Transform, system
call by system call, is the operations one at a time in lock order.

**Starting a container** (`Handshake`, `HandshakeSucceeds`, `ExecFifo`,
`ContainerStatus`, `ContainerAnswers`). The parent and
the child of `libmocktainer` talk over a pipe, may fail at any call and may be killed at
any moment; a FIFO then holds the child until an Exec. The status of a container is
recomputed from the process table and the FIFO by objects in any number of processes,
while processes die and pids are used again. The statuses and the order of the hooks are
those of the OCI Runtime Specification v1.1.0, runtime.md, "State" and "Lifecycle".

**Kconfig** (`Kconfig*`, `DotConfig*`). The expression parser is proved against a
grammar that is written down independently: it accepts exactly the texts of the grammar,
gives them the meaning the grammar gives, and undoes the printer. The menu builder keeps
a forest in every reachable state; `walk` gives each menu the conjunction of its
ancestors' conditions; `DependsOn` computes reachability, and hangs exactly on cycles.
The whole file parser, with includes, help texts and every error, is proved against
functions of the text (`KconfigLines`, `KconfigTree`). For files without includes and help
texts, which files are refused (`KconfigFaults`) and what the tree of the others says, down
to the conditions of every entry, is read off the words of the lines (`KconfigText`,
`KconfigShape`, `KconfigContent`, `KconfigMeaning`, `KconfigSays`, `KconfigDeclared`), and
files written in a grammar of lines are accepted (`KconfigItems`). A `.config` file keeps its list and its index in step, and survives
being written and read exactly when its entries can be expressed as lines.

**Addresses** (`Bits`, `NetworkPool`, `NetworkPoolUse`, `Masks`, `AssignIps`,
`AssignIpsRun`). `FindFreeNetwork` finds the first free block, through bytewise
disjunctions that are additions and a test of two points that is exact for prefixes as in
section 3.1 of RFC 4632. `AssignIPs` hands out addresses from parallel workers.

**Service order** (`ServiceOrder`). The two depth-first orderings of compose services.

Where the code does not do what one would expect, the model follows the code and says
exactly when it does:

- `DependsOn` deadlocks on its own `sync.Once` if and only if a cycle is reachable
  (`DependsOn`; `SelfDependencyHangs`).
- A menu that is opened and never closed is dropped without an error, with everything
  in it: the tree is complete if and only if the commands leave one menu open
  (`CompleteExactly`, `ParsedCompletely`; `UnclosedIsDropped`).
- The line that ends a help text is lost, unless the text goes on to the end of the file
  (`HelpLosesExactly`; `ConfigAfterHelpIsLost`).
- A parsed expression prints to a text that parses to it again if and only if its strings
  hold no control character (`Normalises`; `TabIsNotReread`).
- A line such as `CONFIG_X=n` in a `.config` is a comment to the parser
  (`CommentExactly`; `NoIsAComment`). An entry whose value does not fit the pattern of a
  line, newlines included, is lost when the file is written and read (`SurvivesExactly`;
  `BadValueIsLost`), and a carriage return too many changes a text
  (`TextSurvivesExactly`).
- The two-point test misses overlaps of masks of which neither lies within the other
  (`ExactExactly`; `IntersectMissesGaps`), and a pool of single addresses hands out an
  address outside of it, repeatedly (`GatewayInBlock`; `SingleAddressRepeats`).
- Adding one to an address below 1.0.0.0 loses its leading zero byte, so that no address
  can be assigned in such a network (`SucceedsExactly`; `LowNetworkGetsNone`). An address
  that is not in its printed form is not recognised as taken and is assigned if and only if
  it is among the smallest free ones (`CollidesExactly`; `OtherFormCollides`). Automatic
  addresses on external networks panic (`PanicsExactly`).
- After a failed `Transform` the old content is back if and only if the roll-back got
  far enough (`Transform`; `NeitherContent`); a file that grew needs the last truncation,
  too.
- A required dependency that the project lacks puts an empty service in the order
  (`ServicesOrderedByDependencies`; `MissingShowsUp`).

## Model

| member | source | states |
|---|---|---|
| FileLock.LockTable.Enter | internal/filelock/filelock_fcntl.go:59-83 | entering the table: the file becomes or stays the owner, or queues with a channel of its own, or is refused because its inode changed |
| FileLock.LockTable.CheckOwner | internal/filelock/filelock_fcntl.go:166-175 | an unlock goes on exactly when the file is the recorded owner |
| FileLock.LockTable.Finish | internal/filelock/filelock_fcntl.go:179-192 | at the end of an unlock the inode is forgotten, or handed to the sender of the first channel in the queue |
| FileLock.LockEnterKeeps | internal/filelock/filelock_fcntl.go:48-83 | beginning a lock keeps owner, queue and threads in agreement |
| FileLock.CommittedSender | internal/filelock/filelock_fcntl.go:184-190 | the receive under the mutex has a sender: the file that made the first channel of the queue waits on that very channel |
| FileLock.HandOffKeeps | internal/filelock/filelock_fcntl.go:179-192 | the hand-off makes the sender the one owner and keeps the rest of the queue in order |
| FileLockSystem.BootOk | internal/filelock/filelock_fcntl.go:42-46 | processes without locks meet the invariant |
| FileLockSystem.StepInv | internal/filelock/filelock_fcntl.go:48-195 | every step of every thread of every process, and of the kernel, keeps the invariant, including deadlock retries and error exits |
| FileLockSystem.RunInv | internal/filelock/filelock_fcntl.go:48-195 | so does every run |
| FileLockSystem.HeldExcludes | internal/filelock/filelock_fcntl.go:85-158 | two locks held on one inode belong to different processes and are both read locks |
| FileLockSystem.ReleasedBeforeHandOff | internal/filelock/filelock_fcntl.go:177-190 | when a file hands its lock on, the kernel lock of its process is already gone, unless the kernel refused to release it |
| FileLockSystem.PanicsExactly | internal/filelock/filelock_fcntl.go:163-175 | an unlock is refused if and only if the file is idle or still waiting: never for a holder |
| FileLockSystem.ReceiveNeverSticks | internal/filelock/filelock_fcntl.go:179-192 | whoever holds the mutex for a receive can finish, at most after one send of the committed sender |
| FileLockSystem.QueueIsWaiters | internal/filelock/filelock_fcntl.go:68-83 | the queue of an inode holds exactly the blocked files, in order of arrival |
| FileLockSystem.EntryStays | internal/filelock/filelock_fcntl.go:48-195 | only a completed unlock of an inode changes its owner or takes from its queue; every other step of every process at most appends |
| FileLockSystem.UnlockHandsOver | internal/filelock/filelock_fcntl.go:179-192 | a completed unlock with a queue makes the maker of the first channel the owner and leaves the rest of the queue |
| FileLockSystem.FirstComeFirstServed | internal/filelock/filelock_fcntl.go:48-195 | in every run a file behind k others owns the lock after exactly k + 1 unlocks, and not before |
| FileLockRequests.HeldAsAsked | internal/filelock/filelock_fcntl.go:48-158 | in every run whoever holds a lock holds it on the inode and with the type of its last call of lock that was not refused, through queue and hand-off, and the kernel has granted exactly that |
| FileLockRequests.WriterIsAlone | internal/filelock/filelock_fcntl.go:48-158 | two callers whose last calls asked for one inode, one of them to write, never hold it at once |
| FileLockRequests.CallGoesOn | internal/filelock/filelock_fcntl.go:48-195 | where each thread stands, what it can do next and where that leads: only a send waits for another thread, only a grant for another process, and a grant is possible exactly when no other process holds a lock against it |
| FileLockRequests.FreeLockIsGranted | internal/filelock/filelock_fcntl.go:59-158 | a call of lock on an inode that nobody holds against it is granted as asked |
| FileLockRequests.UnlockFrees | internal/filelock/filelock_fcntl.go:163-195 | giving up a lock that nobody waits for leaves the file idle, the inode free and the kernel without the lock |
| LockedFile.File.WriteAt | internal/lockedfile/lockedfile.go:152-152 | a write goes byte by byte up to its fault and leaves each of these contents in the history |
| LockedFile.File.Truncate | internal/lockedfile/lockedfile.go:154-154 | a truncation cuts or zero-fills, or fails and changes nothing |
| LockedFile.File.RollBack | internal/lockedfile/lockedfile.go:161-167 | the roll-back restores the old bytes as far as it gets and cuts the file to the old length if both calls succeed; the file never gets shorter than the old content |
| LockedFile.File.WriteTail | internal/lockedfile/lockedfile.go:148-157 | while the tail is written the old content is in front; if that fails the file holds exactly what LeftBehind says, and is as before exactly when the tail was cut off or never begun |
| LockedFile.File.Overwrite | internal/lockedfile/lockedfile.go:159-186 | success leaves the new content; failure leaves exactly what LeftBehind says, which is the old content exactly when Restores says so |
| LockedFile.File.Transform | internal/lockedfile/lockedfile.go:131-187 | for all contents and all faults: the new content on success, and success whenever no call fails; the old content after an error if and only if the clean-up got far enough, the old content as a prefix until the head is touched, and never a file shorter than the old content that is not the new one |
| LockedFile.FailsExactly | internal/lockedfile/lockedfile.go:148-186 | a rewriting fails if and only if the write of the tail or of the head stops within its bytes or the truncation to the shorter length fails |
| LockedFile.CleanupRestores | internal/lockedfile/lockedfile.go:152-167 | when the calls that clean up succeed, every error leaves the old content |
| LockedFile.MixedIsOver | internal/lockedfile/lockedfile.go:169-176 | overwriting n bytes of the head gives the content made of new head, old rest and new tail |
| LockedFile.RolledIsOld | internal/lockedfile/lockedfile.go:161-167 | the exact condition under which a roll-back that stops after m bytes has undone an overwriting of n |
| LockedFile.NeitherContent | internal/lockedfile/lockedfile.go:159-186 | a head write and a roll-back that both stop early leave neither the old nor the new content |
| LockedFileOrder.StepKeeps | internal/lockedfile/lockedfile_filelock.go:16-65 | every system call of every caller keeps the file told by the lock order |
| LockedFileOrder.Linearizable | internal/lockedfile/lockedfile.go:98-187 | in every run each Read and each Transform read the whole outcome of the operations that locked before it, and the file is the outcome of all of them when no writer is in |
| LockedFileOrder.AllTookEffect | internal/lockedfile/lockedfile.go:98-187 | when all callers are through, each one that found a file took effect exactly once and the file is their outcome in lock order |
| LockedFileOrder.LockFinds | internal/lockedfile/lockedfile_filelock.go:22-36 | whoever gets the lock finds the finished outcome of the operations so far; a writer finds nobody else in |
| LockedFileOrder.LockKeeps | internal/lockedfile/lockedfile_filelock.go:22-36 | taking the lock appends this operation to the order and changes no earlier outcome |
| LockedFileOrder.UnlockKeeps | internal/lockedfile/lockedfile_filelock.go:55-65 | whoever lets go of the lock leaves the outcome of its operation, applied to what it found, in the file; a writer is then the last in the order |
| LockedFileOrder.LeavesExactly | internal/lockedfile/lockedfile.go:98-187 | at the unlock a Read has the whole file, a Write left its data, a Transform what its function makes of what it read, or the file as it was |
| LockedFileOrder.SomebodyMoves | internal/lockedfile/lockedfile_filelock.go:16-65 | until all callers are through, one of them can go on |
| LockedFileOrder.MissingIsFirst | internal/lockedfile/lockedfile.go:99-107 | a Read that finds no file comes before every operation that locks it |
| LockedFileOrder.DoingChunk | internal/lockedfile/lockedfile.go:111-187 | writing the next chunk, of any size, of a Write or of the tail or head of a Transform leaves the content that belongs to the new position |
| Handshake.StepInv | libmocktainer/process_linux.go:171-243 | every step, failure or death of parent and child keeps the handshake's invariant |
| Handshake.RunInv | libmocktainer/process_linux.go:171-243 | so does every run |
| Handshake.EventsInOrder | libmocktainer/standard_init_linux.go:86-191 | in every run hooks, messages, saved state, pipe close, FIFO write and exec are a prefix of the one order, and each direction holds at most one unread message |
| Handshake.EarlierHappened | libmocktainer/standard_init_linux.go:86-191 | hence whatever happened, everything before it in the order has happened: hooks before procResume, saved state before procRun, FIFO write before exec |
| Handshake.StartReturnsNil | libmocktainer/process_linux.go:171-243 | for every finished start: nil only after procReady and without procError; nil whenever the child got to close the pipe, unless the shutdown failed; and a nil means that it did, unless the child died without reporting |
| Handshake.FailedStartLeavesNoChild | libmocktainer/process_linux.go:251-260 | in every run a start that returned an error leaves a dead child |
| Handshake.ActsWhileChildWaits | libmocktainer/process_linux.go:178-227 | in every run the parent runs hooks, saves the state and answers only while the child waits for exactly that answer, with both directions empty, or is dead |
| Handshake.FailureIsReported | libmocktainer/init_linux.go:96-106 | in every run a child that ended before closing the pipe, and not silently, has its procError read or in the pipe, or the start has failed |
| Handshake.SomebodyMoves | libmocktainer/sync.go:99-169 | until the parent is through and the child is gone or waits for an Exec, one of them can go on: no deadlock |
| HandshakeSucceeds.StartSucceeds | libmocktainer/process_linux.go:171-243 | a start in which no call fails and nobody is killed ends after at most 24 steps, whatever the interleaving: the parent returned nil and the child went through all events to the user's program, or waits at the FIFO for an Exec |
| HandshakeSucceeds.StaysWell | libmocktainer/standard_init_linux.go:86-191 | no step of such a start leads into a failure |
| ExecFifo.MoveKeeps | libmocktainer/container_linux.go:103-168 | every move of any Exec call and of the handshake keeps the account of the one byte |
| ExecFifo.FifoRunInv | libmocktainer/container_linux.go:103-168 | so does every run, for any number of calls |
| ExecFifo.WritesOnce | libmocktainer/standard_init_linux.go:140-151 | only one step ever writes to the FIFO, and at most once |
| ExecFifo.OneExecReturnsNil | libmocktainer/container_linux.go:126-168 | at most one Exec returns nil, and then the child has written its byte |
| ExecFifo.NilExactly | libmocktainer/container_linux.go:126-168 | in every run a call that has returned returned nil if and only if it took the child's byte and the FIFO was still in the directory when it came to its end |
| ExecFifo.ExactlyOneNil | libmocktainer/container_linux.go:126-168 | if nobody else removes the FIFO, the byte was taken and all calls are back, exactly one of them returned nil |
| ExecFifo.CallsComeBack | libmocktainer/container_linux.go:103-125 | once the child has gone on or is dead, no call blocks |
| ExecFifo.ExecSucceeds | libmocktainer/container_linux.go:103-168 | an Exec on a child that waits at the FIFO can let it go on to the user's program and return nil |
| ExecFifo.WriteNeedsExec | libmocktainer/standard_init_linux.go:140-151 | the child writes only while an Exec has the FIFO open |
| ContainerStatus.Container.RunType | libmocktainer/container_linux.go:456-474 | stopped unless a process with the recorded pid and start time is there and no zombie; else created while the FIFO is there, and running when it is gone |
| ContainerStatus.Container.RefreshState | libmocktainer/container_linux.go:445-454 | the state becomes what was observed; an error exactly when the container is found created after it was running or stopped, and then the state stays |
| ContainerStatus.Container.DestroyNow | libmocktainer/state_linux.go:41-52 | the directory with FIFO and saved state is gone, the process is forgotten, the state is stopped |
| ContainerStatus.Container.Destroy | libmocktainer/container_linux.go:387-391 | refused exactly for a container that is found running, and then nothing changes; else directory and record are gone, and the process was sent SIGKILL exactly if the container was created; the same as the micro-steps of the interleaved model |
| ContainerStatus.DestroyCompletes | libmocktainer/state_linux.go:93-172 | what the micro-steps of a destroy come to in each state: refused while running, killed first when created, refreshed first when loaded |
| ContainerStatus.StepInv | libmocktainer/container_linux.go:434-474 | every step of the operating system and of every object keeps the invariant; in particular no refresh returns an error |
| ContainerStatus.RunInv | libmocktainer/state_linux.go:82-165 | in every run `refreshState` returns no transition error and no ErrRunning |
| ContainerStatus.AnswerIsFine | libmocktainer/state_linux.go:82-165 | an answer of `runType` never asks for a transition that is refused |
| ContainerStatus.BornKeeps | libmocktainer/container_linux.go:456-474 | using a pid again with another start time brings no recorded process back |
| ContainerStatus.ReadyKeeps | libmocktainer/process_linux.go:178-200 | the state that is saved before procRun records the init that is really there |
| ContainerStatus.FailKeeps | libmocktainer/container_linux.go:83-94 | a Start that fails leaves no live init that an object could take for stopped |
| ContainerStatus.AskKeeps | libmocktainer/factory_linux.go:74-107 | loading an object, or asking one for its status or its end, keeps the invariant |
| ContainerStatus.StatusMovesForward | libmocktainer/state_linux.go:82-165 | over every run an object's status after Start only moves from created to running to stopped |
| ContainerStatus.NoOlderAnswer | libmocktainer/container_linux.go:434-474 | across objects: once one stands at a status, no look that begins later answers with an earlier one |
| ContainerAnswers.AnswerWasTrue | libmocktainer/container_linux.go:456-474 | in every run an answer `stopped` or `created` was true of one moment since the look began; `running` means that the process was there and the FIFO gone then or later |
| ContainerAnswers.LookTells | libmocktainer/container_linux.go:456-474 | each of the two looks tells the system as it is at that moment |
| ContainerStatus.RemovesSafely | libmocktainer/state_linux.go:41-52 | the directory is removed only when the init is dead or was sent SIGKILL before |
| KconfigParser.Parser.NextLine | kconfig/parser.go:38-54 | the next logical line, with its continuation lines joined, or nothing after an error or at the end |
| KconfigParser.Parser.SkipSpaces | kconfig/parser.go:70-74 | moves the cursor over blanks, forward only |
| KconfigParser.Parser.Char | kconfig/parser.go:98-111 | gives the next character, or records an error at the end of the line |
| KconfigParser.Parser.TryConsume | kconfig/parser.go:128-137 | takes the given text and the blanks after it, or moves nothing |
| KconfigParser.Parser.QuotedString | kconfig/parser.go:225-257 | from any state, errors included: ends, never moves back, and reads what the scanner function reads |
| KconfigParser.Parser.Ident | kconfig/parser.go:267-288 | the same for identifiers |
| KconfigParser.Parser.Shell | kconfig/parser.go:290-310 | the same for balanced shell parts |
| KconfigParser.Parser.TryCmpOp | kconfig/expr.go:212-240 | takes the comparison operator that stands there, the longest one first |
| KconfigParser.Parser.ParseExpr | kconfig/expr.go:188-198 | from any state, errors included: the mutually recursive routines end, never move the cursor back, and read what the functions read |
| KconfigParser.Parser.ParseExprAnd | kconfig/expr.go:200-210 | the same one level down |
| KconfigParser.Parser.ParseExprCmp | kconfig/expr.go:212-240 | the same for comparisons |
| KconfigParser.Parser.ParseExprTerm | kconfig/expr.go:242-266 | the same for terms |
| KconfigGrammar.ScanShellReads | kconfig/parser.go:290-310 | every balanced shell text is read whole, quotes and nested parentheses included |
| KconfigGrammar.QuotedReads | kconfig/parser.go:225-257 | every quoted text is read whole, with escapes and embedded shell parts |
| KconfigReads.OrReads | kconfig/expr.go:188-198 | every text of the grammar parses to the meaning of its tree and is consumed exactly: comparison binds tighter than conjunction, conjunction tighter than disjunction, each to the left |
| KconfigReads.AndReads | kconfig/expr.go:200-210 | the same for conjunctions |
| KconfigReads.CmpReads | kconfig/expr.go:212-240 | the same for chains of comparisons |
| KconfigReads.TermReads | kconfig/expr.go:242-266 | the same for terms |
| KconfigSound.OrSound | kconfig/expr.go:188-198 | conversely, whatever is accepted is the text of a tree of the grammar with that meaning |
| KconfigSound.TermSound | kconfig/expr.go:242-266 | the same for terms |
| KconfigSound.ShellSound | kconfig/parser.go:290-310 | whatever is accepted as a shell part is balanced |
| KconfigSound.QuotedSound | kconfig/parser.go:225-257 | whatever is accepted as a string is a quoted text with that value |
| KconfigSound.AcceptsExactly | kconfig/expr.go:188-266 | a text is accepted as a whole if and only if it is a text of the grammar |
| KconfigNormal.Normalises | kconfig/expr.go:87-148 | for every accepted text whose strings are ASCII without `$`: printing the result and parsing it again gives the same expression if and only if no string holds a control character |
| KconfigNormal.TabIsNotReread | kconfig/expr.go:87-89 | a string with a tab is accepted, but its printed form is not |
| KconfigRoundTrip.RoundTrip | kconfig/expr.go:26-148 | parsing the printed form of an expression with printable ASCII strings without `$` and balanced shell parts gives the expression back and consumes exactly the printed text |
| KconfigRoundTrip.PrintInjective | kconfig/expr.go:26-148 | different such expressions print differently |
| KconfigMenu.PushCurrentKeeps | kconfig/kconfig.go:394-398 | opening a menu keeps the forest |
| KconfigMenu.PopCurrentKeeps | kconfig/kconfig.go:400-411 | closing a menu keeps the forest |
| KconfigMenu.NewCurrentKeeps | kconfig/kconfig.go:413-416 | making an entry current keeps the forest |
| KconfigMenu.EndCurrentKeeps | kconfig/kconfig.go:427-445 | attaching the current entry keeps the forest |
| KconfigMenu.ReachedForest | kconfig/kconfig.go:394-445 | in every state that any commands lead to, stack, current entry and children form a forest |
| KconfigMenu.OnePlace | kconfig/kconfig.go:394-445 | every menu ever made is loose or a child in exactly one place, and its parent link says where |
| KconfigMenu.ReachedDepth | kconfig/kconfig.go:394-445 | after any commands the stack is as high as their open depth, and an entry is given up if and only if one was made at depth 0 |
| KconfigMenu.CompleteExactly | kconfig/kconfig.go:400-445 | all menus end up under the outermost one if and only if the commands leave only it open and make no entry where no menu is open |
| KconfigMenu.UnclosedIsDropped | kconfig/kconfig.go:400-445 | a menu that is never closed, with a config in it, drops out of the tree without an error |
| KconfigMenu.Builder.DoEndCurrent | kconfig/kconfig.go:427-445 | the method in place does what the function says, keeps the forest, and fails exactly when the current entry has no menu to go to |
| KconfigMenu.Builder.DoPushCurrent | kconfig/kconfig.go:394-398 | likewise |
| KconfigMenu.Builder.DoPopCurrent | kconfig/kconfig.go:400-411 | likewise |
| KconfigMenu.Builder.DoNewCurrent | kconfig/kconfig.go:413-416 | likewise |
| KconfigMenu.Builder.DoAddCondition | kconfig/kconfig.go:321-365 | a condition is added to the current menu by conjunction |
| KconfigContent.AddConditionMeans | kconfig/kconfig.go:328-334 | the condition of the current entry is then met exactly when the old one and the new one are; its other condition and every other entry stay |
| KconfigWalk.KConfigFile.Walk | kconfig/kconfig.go:165-177 | exactly the menus under the given one get the conditions of the way down to them, nothing else changes, and the configs are registered in preorder |
| KconfigWalk.InheritedMeans | kconfig/kconfig.go:165-177 | under every valuation an inherited condition holds if and only if all conditions on the way down hold |
| KconfigWalk.PreorderIsUnder | kconfig/kconfig.go:165-177 | the walk visits exactly the descendants |
| KconfigWalk.RegisteredLast | kconfig/kconfig.go:170-172 | a name stands for the last config of that name |
| KconfigWalk.RegisterKeeps | kconfig/kconfig.go:170-172 | names without a config stay as they were |
| KconfigDeps.Dependencies.DependsOn | kconfig/kconfig.go:92-117 | whatever was computed before: the result is exactly the known names that are reached by one or more direct dependencies, each computed once; the call hangs if and only if a cycle is reachable |
| KconfigDeps.CollectsExactly | kconfig/expr.go:39-162 | the direct dependencies of an expression are exactly the identifiers that binary operators lead to: a negation hides what is below it |
| KconfigDeps.KnownExactly | kconfig/kconfig.go:95-105 | an entry leads directly to exactly the known names in its two conditions |
| KconfigDeps.SelfDependencyHangs | kconfig/kconfig.go:92-117 | a config that depends on itself is a cycle |
| KconfigDeps.DoneIsAcyclic | kconfig/kconfig.go:92-117 | what was computed depends on no cycle |
| KconfigFile.FileParser.ParseFile | kconfig/kconfig.go:179-188 | ends when includes are acyclic; menus, help indentation and error flag are those of FileRun, the text read line by line up to the first error |
| KconfigFile.FileParser.ParseLine | kconfig/kconfig.go:190-218 | blank lines, help lines, comments and commands each have the outcome of LineRun, what is left of the file included |
| KconfigFile.FileParser.ParseCommand | kconfig/kconfig.go:208-217 | a macro definition leaves the menus alone; every other line has the outcome of its first word |
| KconfigFile.FileParser.ParseMenu | kconfig/kconfig.go:220-271 | each command other than `source` gives the builder the command of its word, records exactly the errors of its line, and `help` goes on after the help text |
| KconfigFile.FileParser.ParseEntry | kconfig/kconfig.go:220-267 | opens, makes or closes the menu of the line's command, and fails exactly as LineErr says; LineTold and LineFaults say in words of the text what these are |
| KconfigFile.FileParser.ParseProperty | kconfig/kconfig.go:273-365 | `depends on` and `visible if` narrow the current entry by the condition on the line, all else leaves the menus alone; fails exactly without a current entry or on a malformed or unknown line |
| KconfigFile.FileParser.ParseOperands | kconfig/kconfig.go:273-365 | types, prompts, defaults, `select`, `imply`, `range` and flags are read to their end with exactly their errors |
| KconfigFile.FileParser.ParseSource | kconfig/kconfig.go:221-227 | the outcome of a `source` line: quoted or bare name, blank name ignored, missing file an error |
| KconfigFile.FileParser.IncludeSource | kconfig/kconfig.go:367-392 | the included file has the outcome of FileRun on its text from the menus there are, in a parser of its own whose error is taken over; the including one comes back on its line |
| KconfigFile.FileParser.TryParseHelp | kconfig/kconfig.go:470-488 | a help block ends where HelpText ends, with the width of its last line |
| KconfigFile.ParseData | kconfig/kconfig.go:136-163 | for files without includes and help texts, told from the words of the lines: a tree comes out if and only if no line is at fault and a menu was opened; if the outermost menu alone is left open, kinds, names, nesting, the two conditions of every entry and the keys of the configs are those of the lines. For all files: a tree comes out if and only if FileRun records no error and leaves a menu open |
| KconfigLines.LineEffectKeeps | kconfig/kconfig.go:220-365 | whatever a line holds, its effect keeps the forest, and an entry that is given up is an error of that line |
| KconfigTree.FileReaches | kconfig/kconfig.go:179-392 | whatever a file and its includes hold, its parse is a run of the builder, so all that is proved of such runs holds of it |
| KconfigTree.PlainFileFolds | kconfig/kconfig.go:179-365 | a file without includes and help texts is the fold of its logical lines |
| KconfigTree.ParsedCompletely | kconfig/kconfig.go:136-163 | if such a file parses, its open menus are the depth of the commands of its lines, and its tree holds everything it declares if and only if that depth is 1 |
| KconfigTree.SourceFolds | kconfig/kconfig.go:367-392 | a `source` line ends the current entry and folds the lines of the file it names; their errors, or a file that is not there, are errors of the line |
| KconfigTree.LogicalIsJoined | kconfig/parser.go:38-68 | lines that end in a backslash read as their parts joined without the backslashes, however many |
| KconfigTree.LevelIs | kconfig/parser.go:76-86 | a tab reaches the next multiple of eight columns, any other character the next column |
| KconfigMeaning.LineTold | kconfig/kconfig.go:190-365 | a line that records no error does to the menus exactly what its words say: what it opens, makes, closes or adds, with its kind, name and condition |
| KconfigShape.StepFollows | kconfig/kconfig.go:394-445 | stack, current entry and parents follow the lines: the parent of a line's node is that of the innermost line open around it |
| KconfigSays.ConditionIsTold | kconfig/kconfig.go:165-177 | in the parsed tree a condition of an entry is met if and only if the conditions of the lines that belong to it, and of all menus and `if` blocks around it, are |
| KconfigSays.NodeIsTold | kconfig/kconfig.go:394-445 | the node of a line has the kind and name its words say and hangs below the line around it |
| KconfigDeclared.KeysAreDeclared | kconfig/kconfig.go:165-177 | the keys of the configs are exactly the identifiers after `config` and `menuconfig`, and the empty name of a main menu; each key stands for a config of that name |
| KconfigDeclared.ParsedIsTold | kconfig/kconfig.go:136-177 | all of this for every file without includes and help texts whose outermost menu alone is left open |
| KconfigFaults.LineFaults | kconfig/kconfig.go:190-365 | a line records an error if and only if it does not read, by its words, or stands where it may not |
| KconfigFaults.RefusedExactly | kconfig/kconfig.go:179-365 | a file without includes and help texts is refused if and only if a line does not read, a property belongs to nothing, or an entry stands outside of all menus |
| KconfigItems.WrittenIsAccepted | kconfig/kconfig.go:179-365 | every file written in a grammar of lines, with entries in menus and properties below entries, is accepted and leaves open the menus that it says |
| KconfigTree.HelpLosesExactly | kconfig/kconfig.go:470-488 | a help text takes all lines up to and with the first that is indented less than its first line; that line is lost, and none is if and only if no line is indented less |
| KconfigTree.LineAfterHelpIsLost | kconfig/kconfig.go:470-488 | after any help text of one line, the next line that is indented less is passed over |
| KconfigTree.ConfigAfterHelpIsLost | kconfig/kconfig.go:179-188 | such a line may be a `config` |
| DotConfigObjects.DotConfigFile.Value | kconfig/config.go:325-332 | the value under the name, or no |
| DotConfigObjects.DotConfigFile.Set | kconfig/config.go:335-350 | list and index hold the same objects under distinct keys, and the contents are those with the key set, at its old place or at the end with the pending comments |
| DotConfig.SetChangesOne | kconfig/config.go:335-350 | setting a key gives it the value and the pending comments, leaves every other value and comment, keeps keys distinct and in their order |
| DotConfig.UnsetChangesOne | kconfig/config.go:353-360 | unsetting a key makes it no and changes nothing else |
| DotConfig.ReplaceChanges | kconfig/config.go:362-376 | replacing a value changes exactly the keys that have it and keeps keys, order and comments |
| DotConfigObjects.DotConfigFile.Unset | kconfig/config.go:353-360 | the key is set to no if it is there |
| DotConfigObjects.DotConfigFile.ModToYes | kconfig/config.go:362-368 | every module becomes yes, nothing else changes |
| DotConfigObjects.DotConfigFile.ModToNo | kconfig/config.go:370-376 | every module becomes no, nothing else changes |
| DotConfigObjects.DotConfigFile.Serialize | kconfig/config.go:378-397 | the text of the entries, each line after its comments |
| DotConfigObjects.DotConfigFile.ParseLine | kconfig/config.go:437-445 | an entry is set, anything else waits as a comment for the next entry |
| DotConfigObjects.DotConfigFile.Clone | kconfig/config.go:421-435 | the same contents in objects of their own |
| DotConfigObjects.CloneIsIndependent | kconfig/config.go:421-435 | after any sequence of Set, Unset, ModToYes and ModToNo on file and clone in any interleaving, each holds the outcome of its own operations on the contents they had in common |
| DotConfigObjects.Interleave | kconfig/config.go:335-376 | the same for any two files that share no objects |
| DotConfigObjects.ParseConfigData | kconfig/config.go:408-419 | the contents that the text describes, cut into lines as the scanner does |
| DotConfig.ParseSerialiseParse | kconfig/config.go:378-445 | for all sequences of lines: reading, writing and reading again gives the same keys in the same order with the same values and comments |
| DotConfigText.SurvivesExactly | kconfig/config.go:378-445 | contents survive being written to a text and read back if and only if their keys, values and comments can be expressed as lines of a text |
| DotConfigText.TextSurvivesExactly | kconfig/config.go:378-445 | for all texts: parsing, writing and parsing again gives the same contents if and only if no line ends in a carriage return after the one that the scanner strips |
| DotConfigText.NoIsAComment | kconfig/config.go:437-450 | `CONFIG_X=n` is a comment |
| DotConfigText.BadValueIsLost | kconfig/config.go:378-445 | a bare word and a quoted value with a newline do not survive |
| DotConfig.CommentExactly | kconfig/config.go:437-450 | a line is a comment if and only if it is the line of no entry |
| DotConfig.LinesRead | kconfig/config.go:437-450 | each kind of value is read from its line: y, m, digits, a sign and digits, 0x and hex digits, a quoted text; and the line that says a key is not set |
| NetworkPool.IntersectIsOverlap | machine/network/utils.go:11-13 | for prefixes, the test of the two addresses finds exactly the networks that share an address |
| NetworkPool.IntersectMissesGaps | machine/network/utils.go:11-13 | for a mask with gaps it misses a shared address |
| Masks.ExactExactly | machine/network/utils.go:11-13 | for all masks: the test finds exactly the pairs of networks that share an address, whatever their addresses, if and only if one mask lies within the other |
| NetworkPool.ContainsIsBlock | machine/network/utils.go:11-13 | masking two addresses alike means that they lie in the same block |
| NetworkPool.OrBytes | machine/network/pool.go:65-72 | the loop puts the disjunction of the bytes of the subnet's address and of the offset in place |
| NetworkPool.JoinIsOr | machine/network/pool.go:68-72 | the four bytes make up the disjunction of the two addresses |
| NetworkPool.OrAddrIsAdd | machine/network/pool.go:68-72 | on an aligned address the bytewise disjunction with a smaller offset is addition |
| NetworkPool.TryEntry | machine/network/pool.go:58-98 | the loop over one entry finds its first candidate that intersects nothing |
| NetworkPool.CandidateIsBlock | machine/network/pool.go:62-77 | the i-th candidate of an aligned entry is its i-th block, without wrap-around |
| NetworkPool.BlockInside | machine/network/pool.go:62-77 | every address of a block lies in the entry's subnet |
| NetworkPool.SearchIs | machine/network/pool.go:36-102 | the block found shares no address with any network and every block before it does; without a find every block up to a subnet that does not parse is taken |
| NetworkPoolUse.GatewayInBlock | machine/network/pool.go:88-94 | the address handed out is the block's first plus one, and lies in the block if and only if the size is at most 31 |
| NetworkPoolUse.FindFreeNetwork | machine/network/pool.go:36-102 | for aligned pools and contiguous masks: a network is given if and only if some block, before any subnet that does not parse, shares no address with an existing network; then it is the first such block in pool order, with its base plus one for sizes of at most 31 |
| NetworkPoolUse.AllocationIsFree | machine/network/pool.go:36-102 | from an aligned pool with sizes of at most 31: what is handed out is a block of the pool, with its gateway, apart from all networks there were |
| NetworkPoolUse.AllocationsDisjoint | machine/network/pool.go:36-102 | however often such a pool is asked with its answers fed back, all networks stay disjoint |
| NetworkPoolUse.SingleAddressRepeats | machine/network/pool.go:88-94 | a pool of single addresses gives an address outside of it, and gives it again |
| NetworkPoolUse.DefaultPoolIsSound | machine/network/pool.go:25-33 | the pool that is shipped meets all these conditions |
| AssignIps.Search | compose/project.go:240-250 | the first address of the subnet that is not in use, if the search gets past the network address |
| AssignIps.Merge | compose/project.go:138-147 | for each field the result is that of the last entry that has it, and missing if none has |
| AssignIps.MakePlan | compose/project.go:149-180 | a network gets a plan exactly when the last subnet given parses and the last gateway given, if any, is an address of its block; the plan is for that block, with that gateway or else the address written in the subnet |
| AssignIps.PlanExactly | compose/project.go:138-184 | the same of the function that the passes are proved against |
| AssignIps.PlanHolds | compose/project.go:149-184 | in a plan gateway and network address lie in the subnet |
| AssignIps.MaskedIsBlock | compose/project.go:158-161 | the subnet is the block of addresses that the mask takes together |
| AssignIps.Marks.MarkNetworks | compose/project.go:133-188 | all networks get plans, in any order of the map, or the call fails; gateway and network address are in use |
| AssignIps.Marks.MarkService | compose/project.go:191-209 | the entries of a service are taken over, or the call fails for a network that is missing or has no IPAM, or panics for an external one |
| AssignIps.Marks.MarkStatics | compose/project.go:191-209 | after all services exactly their static addresses were added |
| AssignIps.Marks.Assign | compose/project.go:242-256 | the critical section marks what it found before letting go |
| AssignIpsRun.Prepare | compose/project.go:130-209 | the two passes go through exactly when every network of the project's own with IPAM entries is well configured, services name only networks that are there, and static addresses stand only on the project's own networks with IPAM entries; they leave what the workers start with |
| AssignIpsRun.PanicsExactly | compose/project.go:213-260 | some schedule of the workers panics if and only if some service asks for an automatic address on an external network whose first IPAM subnet parses |
| AssignIpsRun.WorldIsProper | compose/project.go:130-209 | what the passes leave meets the assumptions about the workers: valid subnets whose network address is in use |
| AssignIpsRun.RunInv | compose/project.go:213-260 | every interleaving of the workers keeps the account of the addresses |
| AssignIpsRun.AssignedIsFree | compose/project.go:213-260 | an assigned address lies in its subnet, is neither the network address nor another service's, and is neither gateway nor static address as these are written; CollidesExactly says when one is written otherwise |
| AssignIpsRun.SucceedsExactly | compose/project.go:213-266 | whatever the interleaving, the call succeeds if and only if each network that is asked lies above 0.255.255.254 and has at least as many free addresses as requests |
| AssignIpsRun.GivenAreSmallest | compose/project.go:213-260 | whatever the interleaving, a network's requests get exactly as many of its smallest free addresses |
| AssignIpsRun.CollidesExactly | compose/project.go:167-260 | an assigned address is that of the gateway or a static address if and only if one of these is not in printed form and denotes one of those smallest addresses |
| AssignIpsRun.LowNetworkGetsNone | compose/project.go:240-250 | in 0.0.10.0/24 the search gives nothing although addresses are free |
| AssignIpsRun.OtherFormCollides | compose/project.go:167-184 | a gateway that is not written in printed form is assigned to a service |
| ServiceOrder.Ordering.Add | compose/project.go:277-297 | ends on any graph; lists each service once, after everything it leads to except along cycles, and an empty service for each dependency that the project lacks |
| ServiceOrder.Ordering.Run | compose/project.go:299-306 | all services that were asked for are listed, and only what they lead to |
| ServiceOrder.ServicesOrderedByDependencies | compose/project.go:271-307 | each service once: those given, and others only where a listed one requires them; all that a listed one requires, in scope, is listed, and before it if requirements do not go round in circles; besides them one empty service for each required dependency in scope that the project lacks |
| ServiceOrder.MissingShowsUp | compose/project.go:277-297 | a listed service with such a dependency puts an empty service in the list |
| ServiceOrder.ServicesReversedByDependencies | compose/project.go:312-348 | the same along the inverse edges |
| ServiceOrder.OrderIsAcyclic | compose/project.go:277-297 | a finished walk is in order if and only if its services have no cycle |
| ServiceOrder.DependenciesFirst | compose/project.go:271-307 | without cycles every required dependency in scope comes before its dependant |
| ServiceOrder.DependantsFirst | compose/project.go:312-348 | reversed, it comes after its dependant |

## Left out

- Characters stand for bytes: the limit on the length of a line in a `.config` is counted in characters, and what `%q` does to text outside of ASCII is not modelled.
- Interpolation of `$` in Kconfig strings runs shell commands and reads the environment; the value of a string is the one before it.
- Marshalling of expressions and key-value maps to JSON and YAML would only add easy members.
- The bootstrap of the child before the configuration is sent, namespaces, network set-up, labels, keyrings and log forwarding are foreign calls.
- Poststart and Poststop hooks run inside of Start and Destroy and are not part of the handshake's order.
- A second container under the same directory after the first one was destroyed is not modelled; neither is a failing look at a process that is there.
- The two sides of the handshake, the callers of a locked file and the workers of AssignIPs are step relations instead of methods, because what is proved about them is about interleavings; the sequential parts that they share have methods.
- Errors of open, lock and close of locked files end an operation before it begins or after it is done; LockedFileOrder has no errors at all.
- Closing another descriptor of a locked inode, which drops the process's `fcntl` locks, and the lock variants of other systems are not modelled.
- Spare capacity that Go slices share after `Clone` is not modelled: comments are values.
- KconfigFile.ParseData: takes includes that do not go round in circles, on which the code does not end; prompts, types, defaults and the words of help texts are read, with their errors, but not kept.
- KconfigParser.Parser.QuotedString: gives the string before interpolation.
- KconfigItems.WrittenIsAccepted: its grammar of lines has no leading blanks, no `range` and no condition after a default value, which RefusedExactly covers.
- KconfigNormal.Normalises: leaves out strings with `$`, which interpolation would change.
- ServiceOrder.ServicesOrderedByDependencies: asks that the services given are services of the project and that no service has an empty name, which loading a project checks.
- NetworkPoolUse.FindFreeNetwork: takes existing networks whose netmask parses as IPv4, the code panics on others.
- AssignIps.Search: is for IPv4 networks only, IPv6 is not modelled.
- Registries, package managers, machine drivers, archives and the user interface are outside of the model.
