# A verified model of SimpleOS and its Vivado tooling

This project models the parts of the repository whose correctness is easy to get wrong, and
proves what they are for:

- **SimpleOS memory and traps** (`Sv32`, `PageTables`, `Kernel`, `SyscallReach`, `UserRuns`, on
  `Words` and `Bits`). RAM is a byte array. `MInit` performs the stores of `m_init`; the Sv32 walk is
  written separately, from section 4.3.2 of the RISC-V Privileged Specification v1.11. The walk
  over what `MInit` leaves is proved to be the documented map for every 32-bit address, access kind, privilege,
  SUM, MXR and A/D policy; syscalls are specified through the user's page table although the
  code copies through `user_va + PA_USER_PROG`; the map holds after every run of every user
  program whose syscall buffers it may access itself. What SYS_read does to the page tables
  with any other buffer is told exactly.
- **The calculator** (`Syntax`, `Calculator`, `Unambiguous`, `CalculatorLaws`, `NumberText`,
  `Numerals`, `CalculatorLine`). The
  evaluator runs over its mutable buffer and cursor, in an arbitrary algebra of add, sub, mul,
  div, sqrt, neg and atof. `ftoa` and `atof` are a printer and a parser over exact reals.
  The grammar is proved unambiguous, so what a text means is one value, and `CalculatorLaws`
  says which for texts written out in characters. `CalculatorLine` joins them with the line
  editor: from the keys of a line to the answer.
- **Session and batch orchestration** (`Permits`, `SessionStore`, `BatchTask`, `Batch`,
  `BatchPermits`). Threads of different sessions, and the workers of a round, interleave
  between single actions; a check of the cancel event and the start it allows are two of them.
  Results hold for every interleaving, and every round ends.
- **Two byte machines** (`Utf8Console`, `LineEditor`).
- **Cache and TLB geometry** (`CacheGeometry`), **program images** (`Image`), **Tcl escaping**
  (`TclEscape`).
- **Staleness of sessions** (`LayerHash`, `Staleness`, `SessionRuns`, `ScriptedSession`).
  Create, refresh and sim are scripts that run step by step while others edit the sources;
  create and refresh record hashes at the end. A project holds some parts that each simulation
  takes anew (HDL, testbench, hex files) and some that it, or a bitstream, uses as they are
  (generated IP, boot ROM, constraints). Proved is exactly when a passing preflight can be
  believed about the latter, and what a simulation or a bitstream is really made from.

Code that changes things in place is imperative here too: arrays for RAM, the trap frame, the
input buffers and the digit buffers; classes for the machine, the evaluator, sessions and
managers; loops where the source loops. Each such method is proved against a function or
relation whose properties are the lemmas below. C's unsigned shifts and masks are division,
multiplication and remainder; `PteMakeBits`, `SatpMakeBits` and `FlagBits` derive that from the
operators `&`, `|`, `<<` and `>>`, which `Bits` defines bit by bit.

## Where the code and its documentation differ

- `start_vivado` says it blocks at the process limit; it asks the semaphore with timeout 0 and
  raises at once (`Permits.VivadoSession.StartVivado` returns `LimitReached`).
- The idle watcher and `destroy_session` stop Vivado through new Session objects, which own no
  process; `stop_vivado` then changes nothing (second `ensures` of
  `Permits.VivadoSession.StopVivado`).
- The process limit can be exceeded: a stop whose waits all time out releases its permit while
  its process lives on. Each such stop allows one process more (`Permits.GivingUpExceeds`),
  without end (`Permits.NoLimitWithGiveUps`), and nothing else does
  (`Permits.ProcessesAreBounded`).
- fail-fast is described as stopping at the first failure; a worker that has made its check
  before the failure is collected still starts that one operation (`Batch.StartsAfterCancel`,
  `Batch.AStartMayFollowACancel`).
- stop-accepting is documented to skip tasks after the first failure; inside a round it never
  does, because all tasks are submitted before the first result is collected
  (`Batch.RoundIsLegit`).
- The counters of a single round count a cancelled task as failed and as skipped; those of
  several rounds count it once (`Batch.CountersAddUp`).
- `_clog2` is documented as the smallest k with 2^k >= n; for n <= 1 it answers 1
  (`CacheGeometry.Clog2IsLeastExponent`).
- The header's write-enable widths of the tag and TLB memories ignore the byte-enable switch
  (`CacheGeometry.HeaderMatchesIp`).
- `create` and `refresh` record the current hashes after their script, even when it failed,
  and even when the sources changed while it ran; the next preflight then passes. For IP, boot
  ROM and constraints only a later script that takes the part again puts that right
  (`SessionRuns.StalenessCanBeTrusted`, `SessionRuns.FailureIsRecordedAsFresh`). Simulations
  depend on it for the IP alone: they take HDL, testbench and hex files anew
  (`SessionRuns.SimRunsTheSources`).
- Preflight treats stale firmware as an error of simulations and none of bitstreams, although
  simulations copy the hex files themselves and only bitstreams are built from the boot ROM
  kept in the project (`Staleness.BitstreamPasses`, `SessionRuns.StaleBitstreamPasses`). A simulation with
  stale firmware passes when the testbench is stale as well (`Staleness.SimPasses`).
- The kernel checks no buffer address. A read to an address in [0xFFFF8000, 0xFFFFB000) goes to
  the page tables through the alias (`SyscallReach.ReadsThatReachTables`).
- The comment on renames in `compute_single_layer` promises that they are detected; no length
  is hashed, so a rename together with an edit can cancel out (`LayerHash.TwoEditsMayHide`), within
  the names and the order of a layer too (`LayerHash.MoveHides`).
  Edits of text files alone always show (`LayerHash.TextEditsShow`).
- `m_init.c` says the walker traps on clear A/D bits, the MMU report that it sets them. Both
  policies are modelled; with these tables they agree.

## Model

| member | source | states |
|---|---|---|
| Sv32.PteMakeBits | dev/os/include/riscv.h:127-130 | pte_make with its shifts, mask and or equals the arithmetic PteMake used here, for all words |
| Sv32.SatpMakeBits | dev/os/include/riscv.h:75-79 | the same for satp_make |
| Sv32.FlagBits | dev/os/include/riscv.h:135-137 | a masked flag test is the arithmetic one |
| Sv32.SatpRoundTrip | dev/os/include/riscv.h:76-84 | satp_mode, satp_asid and satp_ppn recover what satp_make packed, for all words |
| Sv32.PteRoundTrip | dev/os/include/riscv.h:127-137 | pte_ppn and every flag test recover what pte_make packed, for all words |
| Sv32.Walk | Report/5-MMU.typ:104-106 | the two-level Sv32 walk, with permissions, superpages and both A/D policies |
| PageTables.Documented | dev/os/kernel/m_init.c:13-17 | the documented memory map, the reference the walk is compared with |
| PageTables.MemZero | dev/os/kernel/m_init.c:46-52 | n bytes from dst on become zero, no other byte changes |
| PageTables.PtIdentityFill | dev/os/kernel/m_init.c:59-67 | memory becomes the old one with one entry per page of the range set |
| PageTables.PtMapFill | dev/os/kernel/m_init.c:73-81 | the same for a virtual range and a separate physical base |
| PageTables.FilledEntry | dev/os/kernel/m_init.c:59-81 | after a fill, exactly the entries of the range map the consecutive pages and every other entry of every table is as before |
| PageTables.MInit | dev/os/kernel/m_init.c:87-161 | all three tables hold exactly the documented entries, satp selects them, memory above the tables is untouched |
| PageTables.WalkIsDocumented | dev/os/kernel/m_init.c:87-161 | for every address, access, privilege, SUM, MXR and A/D policy the walk over the built tables gives the documented translation or a page fault, and never writes |
| PageTables.TablesFramed | dev/os/kernel/m_init.c:34-36 | the tables depend on the first three pages only |
| Kernel.UserAddresses | dev/os/kernel/m_init.c:148-161 | U mode reaches exactly [0, 0x9000) (code: [0, 0x8000)), always in the ten user pages |
| Kernel.SupervisorAddresses | dev/os/kernel/m_init.c:87-161 | S mode reaches exactly the UART and [0x80000000, 0x80011000), at their own addresses, and executes only kernel text and program pages |
| Kernel.AliasWalk | dev/os/kernel/syscall.c:17-20 | user_va + PA_USER_PROG reaches in S mode exactly the byte the user's table names; outside the window it reaches no user byte |
| Kernel.WindowIsUserAccessible | dev/os/kernel/syscall.c:52-89 | the buffers a caller may pass are exactly those it can access itself, byte by byte |
| Kernel.UserBytesAreContiguous | dev/os/kernel/syscall.c:52-89 | what the user sees across pages, stack page included, is one run of physical memory |
| Kernel.Machine.CopyOut | dev/os/kernel/syscall.c:57-64 | SYS_write sends exactly the bytes the user sees, in order, through accesses the kernel table allows |
| Kernel.Machine.CopyIn | dev/os/kernel/syscall.c:77-84 | SYS_read makes the user see exactly the received bytes, in order; no other byte changes; the tables stand |
| Kernel.Machine.SyscallHandle | dev/os/kernel/syscall.c:46-137 | write, read, exit, report and unknown calls: new memory, output, registers and halting; after exit and report the words at 0x80007000 are total (a1), passed (a0) and first failure (a2) and no other byte has changed; calls other than these and read change no memory |
| Kernel.Machine.TrapDispatch | dev/os/kernel/trap.c:41-79 | system call, page fault, breakpoint and other traps |
| Kernel.Machine.UartPutdec | dev/os/kernel/syscall.c:29-44 | prints the decimal numeral of the value |
| Kernel.Machine.UartPuthex | dev/os/kernel/trap.c:20-31 | prints the eight hexadecimal digits of the value |
| Numerals.DecimalReadsBack | dev/os/kernel/syscall.c:38-42 | decimal text denotes its number and has no leading zero |
| Numerals.HexReadsBack | dev/os/kernel/trap.c:24-29 | hexadecimal text denotes its number |
| SyscallReach.ReadsThatReachTables | dev/os/kernel/syscall.c:76-83 | a SYS_read of any length to any address stores into a page table exactly when it is not empty and starts in [0xFFFF8000, 0xFFFFB000) |
| SyscallReach.ReadsThatSpareTables | dev/os/kernel/syscall.c:76-83 | the tables stand after every byte of a read exactly when it starts elsewhere or repeats the table bytes that are there; each byte is translated by the tables as the bytes before left them |
| UserRuns.TrapEffect | dev/os/kernel/trap.c:41-79 | a trap handler changes no page table and nothing of the kernel outside its stack page; if it does not halt, sepc advances by 4 and only a0 may change |
| UserRuns.RunKeepsMap | dev/os/kernel/trap.c:41-79 | after every run of user loads, stores, fetches and traps page tables, kernel code and the memory above the user's pages are unchanged, whatever traps leave on the kernel's stack, and every address still translates as documented |
| Calculator.Evaluator.SkipSpaces | dev/os/user/calculator.c:48-53 | the cursor moves past exactly the spaces and tabs |
| Calculator.Evaluator.ParseNumber | dev/os/user/calculator.c:76-103 | consumes the numeral, answers atof of exactly its text, restores the buffer |
| Calculator.Evaluator.ParseFactor | dev/os/user/calculator.c:105-152 | value of the factor's tree, cursor exactly after it |
| Calculator.Evaluator.ParseTerm | dev/os/user/calculator.c:154-177 | value of the term's tree and everything consumed if no operand is a zero divisor; otherwise zero, and the rest after the first zero divisor unread |
| Calculator.Evaluator.ParseExpr | dev/os/user/calculator.c:179-197 | for every text of every tree, value of the left-associative, precedence-respecting tree; cursor at the end; buffer unchanged |
| Calculator.Evaluator.EvalStr | dev/os/user/calculator.c:206-216 | loads what fits, answers what the loaded text means, stops at its NUL |
| Unambiguous.OneTree | dev/os/user/calculator.c:67-72 | the grammar is unambiguous: two expressions with the same text, however the spaces are shared out, have the same tree |
| Unambiguous.OneValue | dev/os/user/calculator.c:67-72 | so what a text means is one value |
| CalculatorLaws.ChainWorth | dev/os/user/calculator.c:154-197 | any number of numerals joined by + - * / is worth, and only worth, what a left-to-right pass with one pending product computes |
| CalculatorLaws.TwoWorth | dev/os/user/calculator.c:154-197 | x + y, x - y, x * y and x / y with any spaces are worth add, sub, mul and div of their atofs, and zero for a zero divisor |
| CalculatorLaws.OrderOfOperations | dev/os/user/calculator.c:154-197 | x-y-z is (x-y)-z, x/y/z is (x/y)/z, x+y*z multiplies first |
| CalculatorLaws.ThreeWorth | dev/os/user/calculator.c:154-197 | the same for every two operators |
| CalculatorLaws.GroupedWorth | dev/os/user/calculator.c:105-117 | parentheses override it, for every two operators |
| CalculatorLaws.SignsAndCalls | dev/os/user/calculator.c:105-152 | a numeral alone or in parentheses, with a minus, in neg() and in sqrt() |
| Syntax.SpelledExprMeans | dev/os/user/calculator.c:67-72 | every tree has a text that means it |
| Syntax.SpelledHasFewestParens | dev/os/user/calculator.c:67-72 | no text that means the same tree has fewer parentheses |
| NumberText.Ftoa | dev/os/user/user_printf.c:101-188 | writes exactly the specified text and its NUL; clamps and the 11-digit break never fire |
| NumberText.IntDigits | dev/os/user/user_printf.c:135-152 | repeated division yields the decimal digits of the integer part, at most ten |
| NumberText.PutFraction | dev/os/user/user_printf.c:174-183 | writes the decimals of the fraction |
| NumberText.Atof | dev/os/user/atof.c:8-69 | for every string, the number its positional reading spells, exponent included |
| NumberText.ReadsScientific | dev/os/user/atof.c:15-68 | every [sign] digits [. digits] e [sign] n is read as its digits times or over 10^n, negated exactly after a minus |
| NumberText.SignInFront | dev/os/user/atof.c:15-22 | a plus before an unsigned text changes nothing, a minus negates |
| NumberText.RoundTrip | dev/os/user/user_printf.c:101-188 | atof of ftoa is the value cut off towards zero after the decimals written, for any precision |
| NumberText.TruncatedIsClose | dev/os/user/user_printf.c:174-183 | cutting off loses less than one unit of the last decimal and never grows |
| NumberText.PrintFits | dev/os/user/user_printf.c:194-199 | with 6 decimals the text fits print_float's 16 bytes exactly for -10^7 < f < 10^8 |
| NumberText.PrintFloat | dev/os/user/user_printf.c:194-199 | sends exactly the text of the value |
| CalculatorLine.Turn | dev/os/user/calculator.c:283-305 | from the keys of a typed line, corrections included, to the answer: the text of the line's value, which reads back to within one millionth; empty lines are skipped, "exit" exits; the terminal shows the line |
| CalculatorLaws.TypeLine | dev/os/user/calculator.c:283-305 | a typed line m+n, m-n or m*n of whole numbers is answered by exactly the sum, difference or product with six zero decimals |
| Permits.VivadoSession.StartVivado | tools/vivado_core/session.py:219-280 | is the run of start actions for its session; each of its four outcomes, with what becomes of the permits, the processes and the session |
| Permits.VivadoSession.StopVivado | tools/vivado_core/session.py:399-432 | is the run of stop actions; does nothing for a session without a process; otherwise the process is gone or given up on, and a held permit is back |
| Permits.VivadoSession.Execute | tools/vivado_core/session.py:283-397 | is the run of a start if needed and of a stop on a timeout; it finishes, or times out, exactly when the command had a live process of the session or a start gave it one; after a timeout that process is gone or given up on and the permit is back; when it does not run, and why |
| Permits.ActsAreARun | tools/vivado_core/session.py:219-432 | a thread's uninterrupted actions are a run of the system |
| Permits.ProcessesAreBounded | tools/vivado_core/session.py:477-480 | over every interleaving: free permits + held permits = max_concurrent; a live owned process implies a held permit; live processes number at most max_concurrent plus the live ones a stop gave up on, and there are none of these exactly when no stop gave up |
| Permits.GivingUpExceeds | tools/vivado_core/session.py:411-431 | from every reachable state, a session that gives up on its live process and starts again adds one live process for the same permits |
| Permits.NoLimitWithGiveUps | tools/vivado_core/session.py:411-431 | with such stops one session and one permit reach any number of live processes |
| SessionStore.SessionManager.ListSessions | tools/vivado_core/session.py:484-501 | lists every session once |
| SessionStore.SessionManager.FindSessionForTask | tools/vivado_core/session.py:520-553 | the most recently used session of the task, nothing exactly when there is none |
| SessionStore.SessionManager.DestroySession | tools/vivado_core/session.py:649-666 | removes the session, or leaves it when its files cannot be removed |
| SessionStore.SessionManager.Cleanup | tools/vivado_core/session.py:684-720 | removes exactly the oldest beyond the number to keep |
| SessionStore.SessionManager.CreateSession | tools/vivado_core/session.py:587-647 | makes room at the cap, then creates; reports a full disk exactly when it got that far and the disk is full |
| SessionStore.CreateRespectsCap | tools/vivado_core/session.py:615-631 | after a creation the count is within the cap; the session limit is only met when files cannot be removed or the cap is zero |
| SessionStore.RoundKeepsItsSessions | tools/vivado_core/session.py:615-631 | serialised creations of one round, at most max_sessions and newer than what was there, never evict each other |
| BatchTask.ExecuteSingle | tools/vivado_core/batch.py:649-892 | a task succeeds exactly when it has a session, no check finds the cancel event set and every operation succeeds; its error and expected-failure mark in every case; its entries are those of a prefix of the operations, one each, followed by the aborted or not started ones |
| BatchTask.StartedIsPrefix | tools/vivado_core/batch.py:790-853 | the operations that start are a prefix, all but the last succeed, none starts after a seen cancel, success means all ran; also for repeated operations |
| BatchTask.RecordCount | tools/vivado_core/batch.py:818-834 | with distinct operations each has one entry in its place, aborted after a failure and not started after a cancel, unless one raised |
| Batch.RoundIsLegit | tools/vivado_core/batch.py:563-619 | over every interleaving of the pool each task has exactly one result; at most the allowed number run; cancel is set exactly by an unexpected failure under fail-fast |
| Batch.TaskAfterCancel | tools/vivado_core/batch.py:790-806 | once cancel is set a task starts one more operation exactly when it is past its check, and none otherwise; its next check stops it; a queued one never runs |
| Batch.StartsAfterCancel | tools/vivado_core/batch.py:790-806 | the starts after a cancel are those of the workers past their check, one each, at most as many as workers, all of them by the end of the round |
| Batch.AStartMayFollowACancel | tools/vivado_core/batch.py:792-806 | such starts happen whenever there are two tasks and two workers |
| Batch.RoundEnds | tools/vivado_core/batch.py:564-619 | no round runs longer than the work submitted, and every round can be finished from wherever it is |
| BatchPermits.NoStartIsRefused | tools/vivado_core/batch.py:552-587 | with min(max_parallel, max_concurrent), at least one, as the number of workers, a running task that holds no permit finds one exactly when max_concurrent >= 1, in every interleaving |
| Batch.ExecuteRounds | tools/vivado_core/batch.py:363-503 | results contain each task once, in rounds of consecutive tasks; after a round with an unexpected failure no later task runs, and its result says why; each counter is the number of results of its kind, and they add up to the total; the exit code is 0 exactly when every result succeeded or was an expected failure |
| Batch.CountersAddUp | tools/vivado_core/batch.py:622-632 | the multi-round counters count each result once, the single-round ones a cancelled one twice |
| Batch.Execute | tools/vivado_core/batch.py:326-361 | one round or several; each counter result by result, and their sum in each case |
| Batch.SingleIsFromWorker | tools/vivado_core/batch.py:702-892 | what a task returns is what a round may collect, exactly when its session error does not look like a skip |
| Utf8Console.SplitIndex | tools/uart_console.py:158-167 | the backward scan over the last bytes computes the cut |
| Utf8Console.CutIsClean | tools/uart_console.py:158-167 | on bytes that can still become UTF-8 text the cut falls exactly before the unfinished character |
| Utf8Console.SerialRead | tools/uart_console.py:149-182 | for any chunking nothing is lost or reordered and at most 3 bytes are held; on UTF-8 every write is whole characters |
| LineEditor.UserGets | dev/os/user/user_gets.c:36-60 | after any keys the buffer is the edited line, within bounds and NUL-terminated, and the terminal shows exactly it |
| LineEditor.ErasingUndoes | dev/os/user/user_gets.c:47-57 | backspace and delete take back exactly the last character left, nothing before any; every other key is kept |
| LineEditor.EchoKeepsStep | dev/os/user/user_gets.c:47-57 | the echo of one key keeps screen and line in step |
| CacheGeometry.Clog2IsLeastExponent | tools/vivado_core/cache_header_gen.py:28-32 | _clog2 is the least sufficient exponent exactly for n >= 2 |
| CacheGeometry.SlicesRebuild | tools/vivado_core/cache_header_gen.py:50-69 | every address below 2^(TAG_HI+1) is the combination of its four slices |
| CacheGeometry.SlicesUnique | tools/vivado_core/cache_header_gen.py:50-69 | fields within their widths are recovered from the combined address: no slices overlap |
| CacheGeometry.EverySetExists | tools/vivado_core/cache_header_gen.py:50-69 | every address names an existing set (word) exactly when their number is 2^k for some k >= 1 |
| CacheGeometry.HeaderMatchesIp | tools/vivado_core/ip_gen.py:103-208 | widths, depths, address and write-enable widths of header and IP agree for data always, for tag and TLB exactly when byte enables are on or the array is at least one and less than two byte units wide |
| CacheGeometry.WeaPerWay | tools/vivado_core/cache_header_gen.py:125-129 | bits per way times ways is the write-enable width exactly when the remainders add up to less than one more bit |
| Image.BinToWords | tools/rv2coe.py:556-570 | empty data is an error unless allowed; otherwise the words' bytes are the data padded with zeros to a word |
| Image.ApplyDepth | tools/rv2coe.py:573-578 | fills up with NOP words, fails exactly when the program is too long |
| Image.ParseHex | tools/uart_load.py:33-46 | the bytes of the numbers on the lines that carry one, with every line end, sign, prefix and underscore int(line, 16) takes; an error where it or struct.pack raises |
| Image.CommentsDoNotCount | tools/uart_load.py:38-42 | blank lines and lines that start with # or // count for nothing |
| Image.NumberForms | tools/uart_load.py:42-44 | prefix, sign and blanks around a number |
| Image.HexFileReadsBack | tools/rv2coe.py:592-594 | a written hex file reads back as the words' bytes, for any list of words |
| Image.ImageReadsBack | tools/uart_load.py:33-46 | binary to hex and back is the padded binary plus the NOP words of the depth |
| Image.LoadProgram | tools/uart_load.py:55-123 | header and chunks add up to the header and exactly the padded program |
| Image.HeaderReadsBack | tools/uart_load.py:97-99 | the header's four words read back |
| Image.Bin2Hex | dev/os/bin2hex.py:46-75 | the hex text of padding, jump and program |
| Image.BootJumpArrives | dev/os/bin2hex.py:58-70 | executing the image from its base reaches the target exactly when it is a 32-bit multiple of 4096 |
| Image.ProgramLiesAtTarget | dev/os/bin2hex.py:72-75 | the program's words lie in order from the target on |
| TclEscape.EscapeIsPerCharacter | tools/vivado_core/operations.py:30-38 | the five chained replacements are one per-character map |
| TclEscape.TclUndoesEscape | tools/vivado_core/operations.py:30-38 | Tcl reads every escaped string in double quotes back as itself |
| TclEscape.PlainTextNeedsNoEscape | tools/vivado_core/operations.py:30-38 | exactly the strings without backslash, quote, opening bracket and variable reference could be left as they are |
| LayerHash.Digested | tools/vivado_core/hash.py:113-158 | the bytes fed to the digest |
| LayerHash.SameStreamExactly | tools/vivado_core/hash.py:146-157 | two lists of text files are hashed alike exactly when they are alike up to where a content ends and the next path begins |
| LayerHash.TextEditsShow | tools/vivado_core/hash.py:146-157 | with the paths unchanged, edits to any number of text files change what is hashed |
| LayerHash.OneEditShows | tools/vivado_core/hash.py:146-157 | so does an edit of one file of any kind |
| LayerHash.OneFileMoreShows | tools/vivado_core/hash.py:146-157 | and adding or removing one file |
| LayerHash.TwoEditsMayHide | tools/vivado_core/hash.py:150-156 | a rename together with an edit may not, in text files between any others; nor may a zero byte in a content |
| LayerHash.MoveHides | tools/vivado_core/hash.py:138-156 | it may not within the rules of a layer either: for any two files that dev/rtl/**/*.sv matches and among any others, b.sv moves to a directory that ends in "dev", a.sv loses the end of its text, all stays in path order, and the layer is hashed alike |
| LayerHash.AMoveThatHides | tools/vivado_core/hash.py:34-45 | with names: dev/rtl/b.sv moves to dev/rtl/xdev/rtl/b.sv as the end dev/rtl/x of dev/rtl/a.sv goes, beside vivado_config.yaml |
| Staleness.SimPasses | tools/vivado_core/sync.py:108-183 | exactly which stale layers a simulation may find, and when it is warned |
| Staleness.BitstreamPasses | tools/vivado_core/sync.py:108-183 | exactly which a bitstream may find, all but RTL, and when it is warned |
| Staleness.OthersPass | tools/vivado_core/sync.py:108-183 | every other operation is stopped exactly by missing hashes or stale RTL, and never warned |
| Staleness.PlanRefresh | tools/vivado_core/sync.py:189-259 | whatever the project was made from, the plan's steps renew exactly the parts that need it (the testbench part also the HDL and the boot ROM), drop those named and leave the others; it is full exactly for stale RTL and empty exactly when at most src is stale |
| ScriptedSession.Session.Create | tools/vivado_core/operations.py:933-1000 | is a run of script steps, edits in between and the recording; after a successful script the record of boot ROM or constraints is that of the project exactly when the part is the same at the step that takes it and at the recording, of IP exactly when the loaded configuration is then on disk |
| ScriptedSession.Session.Refresh | tools/vivado_core/operations.py:1018-1167 | does nothing when at most src needs it; otherwise is such a run, after which nothing is stale; undisturbed and successful, the record of a kept part is right exactly where the plan renews it or it was right before |
| ScriptedSession.Session.Sim | tools/vivado_core/operations.py:1196-1261 | stopped exactly by preflight or a missing file; otherwise is such a run, records nothing, and, if it succeeds, runs on the HDL and testbench its first step found, the hex files its second step found, and the IP that was there |
| ScriptedSession.RefreshLeavesNothingStale | tools/vivado_core/operations.py:1042-1056 | a refresh does something exactly when more than src is stale or forced, and what it records leaves nothing stale |
| SessionRuns.StalenessCanBeTrusted | tools/vivado_core/operations.py:996-998 | in every run of edits, creates, refreshes and sims, failed and abandoned scripts and edits during scripts included: whatever failed scripts left behind and however the sources are edited next, an operation that passes preflight with a kept part fresh finds in the project what is on disk, exactly when since the part was last taken nothing spoiled it (or nothing was ever recorded) |
| SessionRuns.VouchedMeans | tools/vivado_core/operations.py:1163-1165 | that condition as an event that takes the part after which none spoils it |
| SessionRuns.FailureIsRecordedAsFresh | tools/vivado_core/operations.py:996-998 | after a failed script that is trusted again exactly when a later event takes the part and is not spoiled in turn |
| SessionRuns.RefreshTakes | tools/vivado_core/operations.py:1069-1160 | the scripts of a refresh take a kept part exactly when the plan renews it, and what they throw away they take again |
| SessionRuns.QuietRunsAreSafe | tools/vivado_core/sync.py:108-183 | in runs in which nothing spoils the part staleness can always be believed |
| SessionRuns.SimRunsTheSources | tools/vivado_core/operations.py:1196-1261 | in every run, when a simulation is launched the project has the HDL and the testbench of that sim's own add_tb and the hex files of its own copy, and only edits came between |
| SessionRuns.BitstreamHolds | tools/vivado_core/operations.py:1511-1556 | what is built now has a part as it is on disk, whatever failed scripts left, exactly when since the part was last taken as it was on disk, by whichever operation, no script failed and it was not edited or dropped |
| SessionRuns.StaleBitstreamPasses | tools/vivado_core/operations.py:1511-1556 | a bitstream that passes preflight passes after any edit of boot ROM or constraints as well, and then is built from the old ones |

## Left out

- Permits.VivadoSession.Execute: the command text, its output and its duration are not modelled; only starting, stopping and the timeout are.
- BatchPermits.NoStartIsRefused: an exception out of `stop_vivado` (its metadata cannot be written), which a worker swallows, and sessions outside the batch that hold permits are not modelled.
- Calculator.Evaluator.ParseExpr: lines the grammar does not produce, and zero divisors before the last operand of a nested term, are outside the contract; the code then reads on from the wrong place.
- Kernel.Machine.SyscallHandle: buffers outside the user window are outside the contract; `Kernel.AliasWalk` and `SyscallReach` say what the kernel then reaches.
- NumberText.Ftoa: exact reals instead of IEEE 754; NaN, infinities and magnitudes from 2^31 on are not modelled.
- NumberText.Atof: the exponent is an unbounded integer; the 32-bit overflow of its digits is not modelled.
- Image.ParseHex: digits and spaces beyond U+00FF, which Python also takes, are not.
- Image.Bin2Hex: a negative jump address is not modelled.
- TclEscape.TclUndoesEscape: speaks of words in double quotes; a path used as a bare word is not modelled.
- SessionStore.SessionManager.ListSessions: the listing order is left open; it matters only between equal timestamps.
- Batch.Execute: an exception text that begins like one of the executor's own marker texts is outside the contract.
- LineEditor.UserGets: the terminal has no right margin; the echo of control characters other than the erase keys is not shown.
- SessionRuns.StalenessCanBeTrusted: the "only if" half is proved for runs in which no content of the part is put back after it was gone and every loaded configuration had been on disk; with such a revert the sources may by luck agree again.
- SessionRuns.FailureIsRecordedAsFresh: is stated for such runs.
- SessionRuns.BitstreamHolds: its "only if" half as well; the other half holds in every run.
- ScriptedSession.Session.Sim: a task without a testbench, whose add_tb step has no file to import, is outside the contract; so are the restart and the patched project file that follow a failed launch.
- ScriptedSession.Session.Refresh: what the emitted Tcl does is one effect per step on the parts of the project. HDL of sources_1 is read from disk by reference; synthesis itself is not modelled.
- SyscallReach.ReadsThatReachTables: what a kernel does whose own code or stack was overwritten by such a read is not modelled; the store loop is carried on as written.
- LayerHash.Digested: the list of files is given in path order; globbing and the skipping of directories are not modelled.
- Trap entry and return, CSR accesses, fences, the wfi loop (a halted flag) and the UART's registers (an input stream and an output sequence). The contents of the kernel's stack page are arbitrary after each trap.
- M mode, physical memory protection, TLBs and the RTL: their source is not part of this model.
- `sqrtf` and the other functions of dev/os/user/math.c, `print_int` and the `printf` plumbing.
- The error message printed on a division by zero, the prompt, and `run_tests`.
- `expand_batch_spec`, `load_batch_plan`, progress display and log files: easy members.
- Disk usage is a parameter of CreateSession; session names are given by the caller.
- `write_coe`, and the text of the generated header and Tcl scripts: only the numbers in them are modelled.
- A layer's content in `Staleness` is the byte stream `LayerHash` describes, its digest an injective function; SHA-256 and the cut to 16 hexadecimal digits are not part of this model.
