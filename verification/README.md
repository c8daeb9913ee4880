# ETA/OS: verified models of the kernel, the C library and two host tools

This project models the parts of ETA/OS whose behaviour is decided by code rather than
hardware, and proves what they are for.

- `Unifdef*.dfy`: the source transformer `unifdef`. Its grammar and three-valued evaluator,
  which conditions it decides, its table of 10 states by 23 line types, and the main theorems:
  conditional inclusion of the output selects the same lines as of the input for every
  valuation of the unknown symbols, and no condition that can be decided is left.
- `Heap*.dfy`: the address-ordered allocator, with free-list nodes relinked and resized in
  place through pointers to links, and its behaviour over whole runs.
- `QueueSpec.dfy`, `ThreadQueue.dfy`, `QueueIds.dfy`, `WaitQueues.dfy`, `ThreadLists.dfy`: the
  run and wait queues, as values and as lists linked through one field of the threads, with an
  event counter that travels with the head.
- `Scheduler.dfy`, `SchedulerRuns.dfy`, `SchedulerLaws.dfy`, `EventRuns.dfy`,
  `EventFailures.dfy`: one CPU as a step system, its invariant over every run, who runs and who
  is asked to give way, no lost wake-up and the runs that lose one.
- `Cpu.dfy`, `CpuRuns.dfy`: the routines that carry out the steps on the linked queues, and
  whole runs of them.
- `Mutex.dfy`, `MutexLaws.dfy`: the recursive mutex over its linked event queue.
- `Memcpy.dfy`: the aligned word copy, in one byte array.
- `Calendar.dfy`, `Daylight.dfy`: gmtime, mktime, localtime, the daylight saving dates and
  their cache.
- `Strtol.dfy`, `StrtolReads.dfy`, `Ltoa.dfy`, `LongRoundTrip.dfy`, `Rand.dfy`: number parsing
  and printing, and the random generator.
- `XorList.dfy`, `MenuWalk.dfy`: two pointer structures.

Each routine that changes state is a method of a class, or works on an array, and is proved
against a function on values; the lemmas about those functions are the results. Where the
code does not do what it is meant to, the model follows the code, a lemma gives an input, and
another says exactly when it does:

- unifdef misjudges literals and symbol values that do not fit an int, and negative symbols
  against unsigned literals (`UnifdefEval`, `UnifdefMeaning`);
- a request that wraps `size_t` is granted too little (`HeapRuns.WrappedRequest`,
  `HeapRuns.NeedWraps`);
- 256 posts from interrupts are lost (`EventFailures.FullCounter`, `EventRuns.IrqPostRecorded`,
  `EventRuns.PostsWhileQueued`);
- `event_notify` drops a waiter when it is preempted after reading the head
  (`EventFailures.DroppedWaiter`, `CpuRuns.LoseWaiter`, `SchedulerRuns.StepOk`);
- daylight saving ends on the wrong day from 2059 on (`Daylight.LateOctober`,
  `Daylight.DstYears`), and the unset cache answers for 1899 (`Daylight.FirstAnswerDiffers`,
  `Daylight.HistoryMatters`);
- negative numbers printed in bases other than 10 do not come back
  (`LongRoundTrip.MinusOneLost`, `LongRoundTrip.RoundTrip`), and a bare `0x` is no number
  (`Strtol.BareHex`, `Strtol.PrefixQuirk`).

`xlist_remove` is documented to return an error code and returns -EINVAL even when it
succeeds; `isspace` knows fewer characters than the C standard's.

Run `dafny verify dfyconfig.toml` in this directory to check everything.

## Model

| member | source | states |
|---|---|---|
| `UnifdefGrammar.GrammarExact` | scripts/unifdef.c:802-944 | A token line is read to its end as a tree if and only if it is the printed form of that tree and the tree respects precedence and left association. |
| `UnifdefGrammar.ParsePrint` | scripts/unifdef.c:824-944 | Reading the printed form of any well-formed tree rebuilds it and stops exactly at its end, at every row of the table and before any continuation that cannot extend it. |
| `UnifdefGrammar.ParseReads` | scripts/unifdef.c:824-944 | Whatever prefix is accepted at a row of the table is the printed form of the tree it is read as; nothing is misread. |
| `UnifdefGrammar.ReadSameWithoutSymbols` | scripts/unifdef.c:880-897 | Knowing more symbols never changes how a complete expression is read, so the reading for C and the reading here are the same tree. |
| `UnifdefEval.Evaluator.SkipArgs` | scripts/unifdef.c:1083-1103 | Skips exactly one balanced argument list, or nothing when the brackets do not close. |
| `UnifdefEval.Evaluator.EvalUnary` | scripts/unifdef.c:824-907 | Returns the three-valued value and the rest of the line that the grammar prescribes, ends for every input, and clears constexpr exactly when a symbol was met. |
| `UnifdefEval.Evaluator.OpFn` | scripts/unifdef.c:746-777 | Each operator function computes the three-valued operator, whose value without -K is that of either operand that settles it; UnifdefDecides.AndDecided, OrDecided and ComparisonDecided say for which operands it is known, and which. |
| `UnifdefEval.Evaluator.EvalTable` | scripts/unifdef.c:912-944 | The precedence-climbing loop gives the left-associated chain that the grammar reads its value, known exactly when UnifdefDecides.DecidedExactly says so, and ends, by the remaining input and the row. |
| `UnifdefEval.Evaluator.IfEval` | scripts/unifdef.c:951-962 | The verdict on a condition: unknown when it does not parse, or is constant without -k; otherwise its three-valued value. UnifdefDecides.VerdictExactly and UnreadIsUnknown say when that is which. |
| `UnifdefEval.Eval3Sound` | scripts/unifdef.c:746-777 | A known value is the value C computes, with its unsigned comparisons, under every completion of the unknown symbols, when literals and known symbols fit an int and no negative symbol meets an unsigned literal. |
| `UnifdefEval.ComparisonExact` | scripts/unifdef.c:746-777 | Two known operands compare as in C in all six ways if and only if they do not mix a negative symbol with an unsigned literal. |
| `UnifdefEval.StrictLogic` | scripts/unifdef.c:746-777 | With -K a value is known exactly when no unknown symbol occurs, and then it is the value without -K. |
| `UnifdefEval.ClassifySound` | scripts/unifdef.c:640-740 | For every token line whose numbers fit and do not mix signs: judged true, the condition holds in C under every completion; judged false, it fails under every completion. |
| `UnifdefEval.LiteralExact` | scripts/unifdef.c:853-859 | A literal compares with every literal that fits an int as in C if and only if it fits an int itself, because strtol's long is stored in one. |
| `UnifdefEval.SymbolExact` | scripts/unifdef.c:880-895 | A known symbol compares with every other known value that fits as in C if and only if its own value fits. |
| `UnifdefEval.SymbolAgainstUnsigned` | scripts/unifdef.c:853-895 | A known symbol compares with every unsigned literal that fits as in C if and only if its value fits and is not negative: skipsym passes over the suffix. |
| `UnifdefEval.TruncationMisjudges` | scripts/unifdef.c:853-859 | An input for the first: a condition of 4294967296 is judged false with -k, and C takes it. |
| `UnifdefEval.WideSymbolMisjudges` | scripts/unifdef.c:880-895 | An input for the second, without -k: -DA=4294967296 and the condition A. |
| `UnifdefEval.MixedMisjudges` | scripts/unifdef.c:853-895 | An input for the third, where every number fits: -DA=-1 and the condition A < 1U is judged true, and C drops it. |
| `UnifdefDecides.AndDecided` | scripts/unifdef.c:768-777 | Without -K && is 0 if one side is known to be 0, and otherwise known if and only if both sides are; with -K if and only if both are. |
| `UnifdefDecides.OrDecided` | scripts/unifdef.c:768-777 | The same for ||, which is 1 if one side is known not to be 0. |
| `UnifdefDecides.ComparisonDecided` | scripts/unifdef.c:751-767 | A comparison is known if and only if both operands are, and ! if and only if its operand is. |
| `UnifdefDecides.SymbolDecided` | scripts/unifdef.c:870-897 | A symbol is known if and only if it is given with -U, or with -D and an integer; defined, if and only if it is given at all; and their values. |
| `UnifdefDecides.DecidedExactly` | scripts/unifdef.c:746-777 | Without -K, when the unknown part is symbols, calls and defined, each met once and joined by !, && and ||: the value is known if and only if no two completions of the unknown symbols give different truth. |
| `UnifdefDecides.VerdictExactly` | scripts/unifdef.c:951-962 | The verdict on a condition that reads as an expression: its value when that is known, unless it has no identifier and -k is not given. |
| `UnifdefDecides.UnreadIsUnknown` | scripts/unifdef.c:951-962 | A condition that is the printed form of no expression is not judged. |
| `UnifdefDecides.JudgedExactly` | scripts/unifdef.c:640-740 | Such a condition is judged true if and only if C takes it under every completion, and false if and only if C takes it under none. |
| `UnifdefDecides.Precedence` | scripts/unifdef.c:802-822 | For any two operators in a row: the tighter one, by C's precedence, takes the middle operand, and of two alike the first. |
| `UnifdefDecides.UnaryFirst` | scripts/unifdef.c:832-839 | ! takes the operand behind it and no more. |
| `UnifdefDecides.BracketsFirst` | scripts/unifdef.c:840-851 | Brackets hold together what is in them. |
| `UnifdefDecides.GroupBalances` | scripts/unifdef.c:1083-1103 | The arguments of a call end at the first place where their brackets balance, and there are none when they never do. |
| `UnifdefMachine.MoveSafe` | scripts/unifdef.c:458-502 | No entry that a line of input can reach aborts, and none leaves or enters the outermost state from the wrong side. |
| `UnifdefMachine.StepSafe` | scripts/unifdef.c:526-547 | From every well-formed stack a line never pops the bottom, overflows the 64 states or reaches an abort entry, and leaves a well-formed stack. |
| `UnifdefMachine.Processor.Nest` | scripts/unifdef.c:526-535 | One level deeper, or the nesting error at the limit. |
| `UnifdefMachine.Processor.Unnest` | scripts/unifdef.c:536-542 | One level up, or the internal error at the bottom. |
| `UnifdefMachine.Processor.Act` | scripts/unifdef.c:417-456 | Every action changes ifstate[], depth and the output as its one stack move says, edits included. |
| `UnifdefMachine.Processor.ParseLine` | scripts/unifdef.c:639-740 | The line type: the evaluator's verdict, or the symbol table's for #ifdef and #ifndef, demoted when anything is left on the line. |
| `UnifdefMachine.Processor.Process` | scripts/unifdef.c:583-596 | The driver loop ends for every input and leaves exactly the output of the whole-file function, or an error where that has none; never the internal error. |
| `UnifdefMeaning.MeaningPreserved` | scripts/unifdef.c:417-502 | For every valuation of the unknown symbols, conditional inclusion of the output gives the same plain lines as of the input, at any depth; #elif rewritten to #if, #else and #endif included. The numbers of the conditions have to fit an int and not mix a negative symbol with an unsigned literal. |
| `UnifdefMeaning.JudgementMatters` | scripts/unifdef.c:417-502 | For any condition whatever, a one-line group keeps its meaning if and only if the condition is judged as C judges it. |
| `UnifdefMeaning.StepFollows` | scripts/unifdef.c:417-502 | One line: the input's groups, ifstate[] and the output's groups stay in simulation, and both sides include the same text. |
| `UnifdefMeaning.WideLiteralChangesMeaning` | scripts/unifdef.c:853-859 | A three-line file that loses a line C includes: a wide literal with -k. |
| `UnifdefMeaning.WideSymbolChangesMeaning` | scripts/unifdef.c:880-895 | Another, without -k: the value of a known symbol is too wide. |
| `UnifdefMeaning.MixedChangesMeaning` | scripts/unifdef.c:853-895 | A file that keeps a line C drops: a negative symbol below an unsigned literal. |
| `UnifdefMeaning.AcceptsExactly` | scripts/unifdef.c:458-547 | An accepted file nests well with less than the limit; without split directives a file is accepted if and only if it does. |
| `UnifdefMeaning.Idempotent` | scripts/unifdef.c:417-502 | The output of an accepted file is a fixed point: a second run accepts it and gives it back. |
| `UnifdefMeaning.StepAgain` | scripts/unifdef.c:417-502 | Line by line: what the first run writes drives the second run through the residue of the first run's stack and is written again. |
| `UnifdefReduces.NothingDecidedLeft` | scripts/unifdef.c:417-502 | Every line with a condition in the output is one whose condition cannot be decided, or is split over lines and passed with -e. |
| `UnifdefReduces.AllDecided` | scripts/unifdef.c:417-502 | When every condition of the input is decided and on one line, the output has no directive at all: it is exactly the text that C includes. |
| `UnifdefReduces.ShortCutsDecide` | scripts/unifdef.c:768-777 | With A unknown: the group of A && B goes when B is given with -U, and that of A || B stays without its directives when B is given with -D and 1. |
| `UnifdefReduces.IfdefDecided` | scripts/unifdef.c:676-690 | #ifdef and #ifndef of a symbol are decided if and only if it is given and nothing follows it, and which way. |
| `UnifdefReduces.IfdefGoes` | scripts/unifdef.c:676-690 | So the directives go: with the group, or from around it. |
| `UnifdefReduces.SplitDirectives` | scripts/unifdef.c:458-502 | What becomes of a directive that is split over lines, in every state: written as it is, dropped with its group, refused, or refused unless -e is given. |
| `HeapSpec.CanonicalUnique` | mm/heap.c:197-267 | Two sorted lists with gaps that cover the same bytes are the same list: the free list is the maximal-run decomposition of the free bytes. |
| `HeapSpec.InsertCovers` | mm/heap.c:197-267 | Freeing adds exactly the bytes of the block, and their number. |
| `HeapSpec.InsertCanonical` | mm/heap.c:197-267 | Freeing bytes that are not free succeeds and keeps the list sorted and coalesced on both sides. |
| `HeapSpec.InsertRejects` | mm/heap.c:243-255 | -EINVAL is returned if and only if the address lies inside a free node. |
| `HeapSpec.SelectChooses` | mm/heap.c:104-125 | NULL if and only if no node is big enough; best fit takes the first smallest, first fit the first, worst fit the first largest unless the first that fits is exact. |
| `HeapSpec.RemoveCovers` | mm/heap.c:127-144 | Allocating, split or whole, takes exactly the bytes of the block handed out. |
| `HeapSpec.RemoveCanonical` | mm/heap.c:127-144 | Splitting in place or unlinking keeps the list sorted with gaps. |
| `HeapSpec.GotBounds` | mm/heap.c:127-144 | The block handed out starts where the chosen node does and is less than a node larger than what is needed; it is exactly that if and only if the node is, or leaves room for a node; else it is the whole node. |
| `HeapSpec.AllocFree` | mm/heap.c:127-267 | Freeing the block just allocated restores the list exactly. |
| `HeapSpec.FreesCommute` | mm/heap.c:197-267 | Two live blocks freed in either order give the same list. |
| `Heap.Need` | mm/heap.c:97-102 | The size looked for is at least a node, and at least request and header when their sum does not wrap; it is a lone node or exactly that sum. |
| `Heap.FreeList.Search` | mm/heap.c:104-125 | The loop over npp finds the node that the policy chooses and the link that points at it. |
| `Heap.FreeList.Alloc` | mm/heap.c:86-156 | Returns the chosen node's payload address and relinks memory to the list without it, or without the part that HeapSpec.GotBounds says; NULL leaves memory alone; headers outside the free list survive. |
| `Heap.FreeList.Take` | mm/heap.c:127-144 | Splitting writes the tail node and redirects the link through fpp; the linked list in memory is the specified one. |
| `Heap.FreeList.Free` | mm/heap.c:197-267 | The walk and the four coalescing branches leave in memory the list with the block inserted, or -EINVAL and the same memory. |
| `Heap.FreeList.AddBlock` | mm/heap.c:375-385 | A new region becomes free, merged with its neighbours. |
| `Heap.FreeList.Available` | mm/heap.c:402-412 | The sum is the free bytes less one header per node. |
| `Heap.CutChain` | mm/heap.c:127-144 | The three stores of the split, in their order, make the shortened list, also where npp is the field being moved. |
| `Heap.JoinLemma` | mm/heap.c:214-264 | The stores of each coalescing branch make the list with the block inserted, and touch no header in use. |
| `HeapRuns.EveryRun` | mm/heap.c:86-385 | After any run of add-block, alloc and free from an empty heap: free list canonical, free and live blocks partition the added bytes, byte counts add up, and no live block is short of its request and a header, unless their sum wraps, or holds a node more than is due. |
| `HeapRuns.StepGood` | mm/heap.c:86-385 | Every operation keeps that. |
| `HeapRuns.FreeListDetermined` | mm/heap.c:197-267 | Two histories with the same added and live bytes have the same free list: the order of operations leaves no trace. |
| `HeapRuns.MallocRelease` | mm/heap.c:86-267 | free undoes the malloc before it, in every reachable state. |
| `HeapRuns.ReleasesCommute` | mm/heap.c:197-267 | In every reachable state the two runs that free two blocks in use in either order succeed and end in the same state. |
| `HeapRuns.Accepted` | mm/heap.c:197-385 | Which steps there are in a reachable state: a region if and only if it is new, a pointer if and only if it is NULL, in use or inside free memory. |
| `HeapRuns.RefusedInside` | mm/heap.c:243-255 | A pointer into free memory is refused and changes nothing. |
| `HeapRuns.DoubleRelease` | mm/heap.c:243-255 | A second free of the same pointer is refused and the heap stays as it is. |
| `HeapRuns.NeedWraps` | mm/heap.c:97-102 | The size looked for covers request and header if and only if their sum does not wrap size_t; when it wraps, a lone node is looked for, and else no more than that sum or a node. |
| `HeapRuns.WrappedRequest` | mm/heap.c:97-102 | A run from the empty heap on a 16-bit target: after a region of 16 bytes is added, a request of 65535 bytes is granted 2. |
| `HeapRuns.TwoFromOne` | mm/heap.c:127-138 | A run from the empty heap in which a node of 8 bytes serves two requests of 2. |
| `HeapRuns.GotServed` | mm/heap.c:127-156 | The block handed out has the requested payload exactly when that sum does not wrap, and wastes less than a node. |
| `HeapRuns.PerformAdd` | mm/heap.c:375-385 | The heap in memory refines the step of the run: add-block. |
| `HeapRuns.PerformMalloc` | mm/heap.c:86-156 | The heap in memory refines the step of the run: malloc; 0 exactly when no node fits; the block is served within the bounds of HeapRuns.GotServed. |
| `HeapRuns.PerformRelease` | mm/heap.c:197-267 | The heap in memory refines the step of the run: free; -EINVAL exactly for NULL or an address in free memory. |
| `QueueSpec.PlaceSorted` | kernel/sched/rr-shared.c:32-61 | The round-robin insert, and the EDF insert, keep the queue sorted. |
| `QueueSpec.PlaceRank` | kernel/sched/edf.c:185-228 | Round robin sorts in behind all equal priorities, EDF in front of all equal deadlines, FIFO at the end; the others keep their places. |
| `QueueSpec.RemoveSorted` | kernel/sched/rr-shared.c:70-103 | Removing keeps the queue sorted. |
| `QueueSpec.RemoveMembers` | kernel/sched/rr-shared.c:70-103 | -EINVAL if and only if the thread is not queued; otherwise exactly that thread leaves. |
| `QueueSpec.InsertEvents` | kernel/sched/fifo.c:37-67 | An insert keeps events on the head only and their number; inserting into a signaled queue turns the signal into one event. |
| `QueueSpec.RemoveEvents` | kernel/sched/rr-shared.c:84-91 | A removal keeps the events and leaves them with the head, unless the queue empties. |
| `QueueSpec.RaisedSorted` | kernel/sched/rr.c:135-148 | The dynamic-priority update keeps a sorted queue sorted if and only if no ordinary thread is queued behind the idle thread. |
| `QueueSpec.BelowIdle` | kernel/sched/rr.c:135-148 | Ordinary priorities of at most 254 guarantee that. |
| `QueueSpec.DeadlineTicks` | kernel/sched/edf.c:152-156 | The deadline is never earlier for a larger priority value or a later tick, and 10 to 148 ticks ahead for an ordinary thread. |
| `QueueSpec.DueFirst` | kernel/sched/edf.c:199-206 | A thread queued more than 138 ticks earlier is in front of another whatever their priorities are, and one queued 138 ticks earlier has at worst the same deadline, and then the later comes first. |
| `QueueSpec.IdleDueLast` | kernel/sched/edf.c:199-202 | The idle thread is behind every thread queued less than 15778462999862 ticks after it. |
| `ThreadQueue.Queue.InsertThread` | kernel/sched/fifo.c:37-67 | The walk and relinking through the `next` fields leave the specified queue, counters moved, SIGNALED included. |
| `ThreadQueue.Queue.InsertByDeadline` | kernel/sched/edf.c:185-228 | raw_edf_insert: the deadline from the clock, later for the idle thread, then the place that order gives it; QueueSpec.DeadlineTicks, DueFirst and IdleDueLast say what that means in ticks and priorities. |
| `ThreadQueue.Queue.RemoveThread` | kernel/sched/rr-shared.c:70-103 | The linked queue loses just that thread, which hands its events on; -EINVAL and an unchanged queue otherwise. |
| `ThreadQueue.Queue.UpdateDynPrio` | kernel/sched/rr.c:135-148 | The effective priority value of every queued thread but the idle one falls by the step, to 0 at least. |
| `ThreadQueue.Queue.Post` | kernel/sched/event.c:210-219 | An interrupt's post on the linked queue: NULL becomes SIGNALED, or the first thread's 8-bit counter goes up. |
| `ThreadQueue.Queue.TakeSignal` | kernel/sched/event.c:140-181 | A pending signal is consumed, and nothing else changes. |
| `ThreadQueue.Queue.TakeFirst` | kernel/sched/event.c:42-53 | The first waiter leaves the linked queue; an emptied queue is SIGNALED. |
| `ThreadQueue.PlaceAt` | kernel/sched/rr-shared.c:47-60 | Linking in where the walk stops and then moving the counter is the ordered insert. |
| `ThreadQueue.RemoveAt` | kernel/sched/rr-shared.c:81-95 | Unlinking and then leaving the counter behind is the removal. |
| `SchedulerRuns.StepOk` | kernel/sched/core.c:261-1266 | A step (start, wait, notify, interrupt, yield, nice, schedule) keeps the invariant of the scheduler's data if and only if it is not a write of event_notify on an unsafe reading: a queue it found empty has waiters now, or one it found with waiters has none. |
| `SchedulerRuns.CommitOk` | kernel/sched/event.c:117-129 | The same for that write alone, whatever ran between its read of the head and its critical section. |
| `SchedulerRuns.OnePlaceEach` | kernel/sched/core.c:486-575 | After any run from boot without such a write: distinct RUNNING threads in the run queue, num its length, current not in it, idle current or queued, and every started thread current, queued to run or in exactly one wait queue. |
| `SchedulerRuns.ScheduleChooses` | kernel/sched/core.c:1220-1266 | When __schedule switches, exactly; a blocked thread is always replaced; the new thread is RUNNING and has the least priority value of all queued threads or, under EDF, the least tick of queueing plus 10 and 13/24 of its priority; who is queued afterwards, and that only the caller's flags are cleared. |
| `SchedulerRuns.RescheduledOk` | kernel/sched/core.c:1081-1266 | __schedule, switch or not, keeps the invariant. |
| `SchedulerRuns.SwitchedOk` | kernel/sched/core.c:834-854 | rq_switch_context requeues a RUNNING thread, drops a stopped one, and takes the next off the queue; nobody is lost. |
| `SchedulerRuns.WakeHeadOk` | kernel/sched/core.c:866-895 | Waking the first waiter takes it off wait queue and wake list and makes it RUNNING; nobody else moves. SchedulerLaws.WakeMarks says whom it asks to give way. |
| `SchedulerRuns.CountedHead` | kernel/sched/core.c:908-929 | A thread on the wake list with events heads its queue, so the loop only ever removes the entry it stands on. |
| `SchedulerRuns.EnqueueOk` | kernel/sched/core.c:261-276 | raw_queue_add_thread stops the current thread, marks it for rescheduling and makes it a waiter. |
| `EventRuns.EventKept` | kernel/sched/event.c:42-219 | No step but such a write loses a posted event: it stays SIGNALED or counted, or a wait takes it, or a waiter is made RUNNING, or a full counter wraps. |
| `EventRuns.NoLostWakeup` | kernel/sched/event.c:166-219 | Over every interleaving of steps without such a write, preemption inside event_notify included, an unanswered event stays on record, and then the next schedule wakes a waiter. |
| `EventRuns.PostDuringWait` | kernel/sched/event.c:166-204 | Whatever interrupts there are between the check and the schedule of a wait on a queue where nobody else waits: the waiter is RUNNING after that schedule if and only if the posts since it was queued, and one for all those before, do not add up to 0 modulo 256. |
| `EventRuns.PostsWhileQueued` | kernel/sched/event.c:193-210 | The same from any moment at which the current thread is the first of a queue, with others behind it or not, and any events it has already. |
| `EventRuns.ScheduleDelivers` | kernel/sched/core.c:908-929 | One __schedule wakes the first waiter of a queue if and only if that has pending events. |
| `EventRuns.IrqPostRecorded` | kernel/sched/event.c:210-219 | An interrupt's post is on record if and only if the head's unsigned char counter was not 255. |
| `EventRuns.PostAnswered` | kernel/sched/event.c:106-130 | A thread's post is answered, by an event on record or a waiter made RUNNING, with nobody lost, if and only if its reading of the head is fresh: safe, and a signal it found is still there. |
| `EventRuns.Unpreempted` | kernel/sched/event.c:117-129 | That is always so when only interrupts come between its read and its write, as when the caller has preemption off. |
| `EventFailures.DroppedWaiter` | kernel/sched/event.c:117-124 | A run of twelve steps from boot after which a started thread is neither current nor queued to run nor waiting: it began to wait after another thread's event_notify had read NULL. |
| `EventFailures.PostsCount` | kernel/sched/event.c:210-219 | Any number of interrupts posting to a queue with waiters add up modulo 256. |
| `EventFailures.FullCounter` | kernel/sched/event.c:210-219 | A run from boot in which 256 interrupts post to a waiter: nothing is on record, and the next schedule leaves it blocked. |
| `SchedulerLaws.WakeMarks` | kernel/sched/core.c:866-895 | The first waiter is woken, queued to run unless it is current, and the wait queue goes on without it, SIGNALED when it is empty now; the current thread is asked to give way if and only if it was, or the woken one is another and has at most its priority value. |
| `SchedulerLaws.NotifyWakes` | kernel/sched/event.c:42-66 | The same for the critical section of event_notify after a reading that found waiters. |
| `SchedulerLaws.EventWakesOne` | kernel/sched/core.c:908-929 | The same for a thread with events that __schedule signals, which uses up one event. |
| `SchedulerLaws.SignalsAsk` | kernel/sched/core.c:908-929 | After all the signals of a __schedule the caller is asked to give way if and only if it was, or some thread they woke has at most its priority value. |
| `SchedulerLaws.IdleWaits` | kernel/sched/core.c:1081-1105 | A RUNNING thread keeps the CPU, rather than the idle thread getting it, if and only if nobody asked it to give way. |
| `SchedulerLaws.EdfFair` | kernel/sched/edf.c:152-206 | Under EDF nobody is passed over for an ordinary thread that came more than 138 ticks later, nor for the idle thread. |
| `SchedulerLaws.YieldAsks` | kernel/sched/core.c:1462-1476 | sched_yield marks the current thread if and only if its slice is over, it is marked, nobody is queued, or the first queued thread has at most its priority value; and nothing else. |
| `SchedulerLaws.FlagsSet` | kernel/sched/core.c:1364-1380 | Every turn of the idle loop and every end of a slice marks the current thread, and nothing else. |
| `SchedulerLaws.NiceSets` | kernel/sched/thread.c:414-427 | The current thread gets the priority asked for, or one step better than the idle thread's; nobody else is touched. |
| `SchedulerLaws.StartQueues` | kernel/sched/thread.c:205-246 | A new thread is RUNNING and queued to run with its priority; nobody else moves. |
| `SchedulerLaws.CheckTakes` | kernel/sched/event.c:166-181 | A signal is used up by the check of a wait, which then does not wait; without one it goes on to wait. |
| `SchedulerLaws.WaitJoins` | kernel/sched/event.c:183-193 | The waiter comes first in the wake list and last in the queue, turns a signal there into its own event, and is stopped and marked. |
| `WaitQueues.Waits.Others` | kernel/sched/core.c:282-306 | Wait queues are linked through one field of the threads and share none: relinking one leaves every other as it was. |
| `WaitQueues.Waits.Enqueue` | kernel/sched/core.c:261-276 | Linking a thread into one wait queue, among any number of them, changes just that queue and where the thread is at home. |
| `WaitQueues.Waits.AtHome` | kernel/sched/core.c:190-205 | A thread number is in a wait queue if and only if its thread is linked there, and it is linked in one queue at most. |
| `ThreadLists.Lists.Insert` | kernel/sched/rr.c:52-61 | Linking a thread that is in no queue into the run queue, by priority, deadline or arrival, leaves all wait queues alone. |
| `ThreadLists.Lists.DropFirst` | kernel/sched/event.c:42-53 | Taking the first waiter off leaves the run queue and the other wait queues alone; an emptied queue is SIGNALED. |
| `ThreadLists.Lists.EventsOf` | kernel/sched/core.c:914-922 | The counter read in the thread record is the one its queue accounts for. |
| `Cpu.RunQueueOf.SignalAll` | kernel/sched/core.c:908-929 | The loop over the wake list relinks the run queue and the wait queues as the recursive pass of the step system says, and keeps its invariant. |
| `Cpu.RunQueueOf.SignalThread` | kernel/sched/core.c:914-927 | One event of a waiting thread is used up and the first thread of its queue, which is it, is woken. |
| `Cpu.RunQueueOf.WakeFirst` | kernel/sched/core.c:866-895 | The first waiter, which was blocked, becomes RUNNING: it leaves wake list and wait queue, is linked into the run queue unless it is current, and asks for the CPU by priority; the invariant is kept. |
| `Cpu.RunQueueOf.Next` | kernel/sched/rr.c:88-101 | The walk along the `next` fields finds the first RUNNING queued thread, or the current one. |
| `Cpu.RunQueueOf.Decide` | kernel/sched/core.c:1081-1105 | The two flags are tested and cleared, and the answer is the policy's. |
| `Cpu.RunQueueOf.Reschedule` | kernel/sched/core.c:1220-1266 | __schedule over the linked queues is the schedule step, and keeps the invariant. |
| `Cpu.RunQueueOf.SwitchContext` | kernel/sched/core.c:834-854 | The old thread is linked into the run queue again if it is RUNNING, and the new one is unlinked, as the step system says. |
| `Cpu.RunQueueOf.QueueAddCurrent` | kernel/sched/core.c:261-276 | Stopping the current thread and linking it into a wait queue is the enqueue step over the linked queues, and keeps the invariant. |
| `Cpu.RunQueueOf.NotifyCommit` | kernel/sched/event.c:119-129 | The critical section of event_notify over the linked queues, with the reading made before it; the invariant is kept if and only if that reading is safe. |
| `Cpu.RunQueueOf.EventNotifyIrq` | kernel/sched/event.c:210-219 | The interrupt's post over the linked queues is the interrupt step, and keeps the invariant. |
| `Cpu.RunQueueOf.CheckEvent` | kernel/sched/event.c:172-181 | The wait returns at once if and only if the queue was signaled; the invariant is kept. |
| `CpuRuns.Perform` | kernel/sched/core.c:261-1266 | Each of the fifteen kinds of step is carried out on the linked queues: the state they stand for makes exactly that step, the invariant is kept if and only if the step is safe, and only new threads and queues join the footprint. |
| `CpuRuns.PerformAll` | kernel/sched/core.c:261-1266 | A list of steps without an unsafe write, carried out one after the other on the linked queues, ends in the state where the run of the step system ends. |
| `CpuRuns.Boot` | kernel/sched/core.c:1391-1400 | The same from boot; afterwards every started thread is current, linked into the run queue and RUNNING, or linked into one wait queue and stopped. |
| `CpuRuns.OneLinkEach` | kernel/sched/core.c:486-575 | That holds for the `next` fields whenever the invariant does: no thread is linked into two queues. |
| `CpuRuns.LoseWaiter` | kernel/sched/event.c:117-124 | The twelve steps that drop a waiter, carried out on the linked queues: a started thread is neither current nor linked into any queue. |
| `Mutex.EveryRun` | kernel/sched/mutex.c:72-132 | After any run: owner NULL if and only if count is 0, count is the owner's lock depth, no second thread has a lock to undo, and queued waiters are never stranded: the mutex is held, about to be notified, or a woken contender will retry. |
| `Mutex.StepKeeps` | kernel/sched/mutex.c:72-132 | Every step keeps that, and the kernel panics exactly when a thread unlocks a mutex it does not own. |
| `MutexLaws.LocksFree` | kernel/sched/mutex.c:72-97 | A free mutex is locked at once. |
| `MutexLaws.LocksAgain` | kernel/sched/mutex.c:75-80 | The owner locks again without waiting, and one unlock undoes it. |
| `MutexLaws.HandsOver` | kernel/sched/mutex.c:106-129 | After the last unlock the first waiter, once it runs, has the mutex; the next one is first in line with the events there were, and an emptied queue is signaled. |
| `MutexLaws.FreesSignaled` | kernel/sched/mutex.c:106-129 | After the last unlock with nobody queued the mutex is free and its queue signaled. |
| `MutexLaws.WaitsInLine` | kernel/sched/mutex.c:79-88 | While the mutex is held, a signal lets a contender test it once more and no more; then it goes to the end of the queue. |
| `MutexLaws.DeliversOne` | kernel/sched/core.c:908-929 | A delivery uses up one event of the first waiter and sends it back to the test, and nobody else moves. |
| `Mutex.MutexObject.EnterLock` | kernel/sched/mutex.c:75-80 | Returns at once if and only if the caller has a lock to undo, and then has one more; the invariant is kept. |
| `Mutex.MutexObject.TestCount` | kernel/sched/mutex.c:79-88 | The loop ends if and only if no thread has a lock to undo; then the caller has one, and no other thread has any. |
| `Mutex.MutexObject.CheckSignal` | kernel/sched/event.c:172-181 | The caller goes back to the test if and only if the linked queue was signaled, and afterwards it is not; the invariant is kept. |
| `Mutex.MutexObject.JoinQueue` | kernel/sched/event.c:185-193 | The caller is linked in as a waiter of the mutex, beside exactly the threads that were; the invariant is kept. |
| `Mutex.MutexObject.Unlock` | kernel/sched/mutex.c:106-129 | Panics if and only if the caller has no lock to undo; else it has one less, and the owner is NULL exactly when it has none left. |
| `Mutex.MutexObject.NotifyWaiter` | kernel/sched/event.c:106-130 | The first waiter is unlinked and back at the test of the loop, or, when nobody waits, the queue is signaled; the invariant is kept. |
| `Memcpy.Memcpy` | lib/crt/memcpy.c:40-98 | For every length, alignment and overlap, every byte of the destination gets the old source byte and no other byte changes; the destination is returned. |
| `Memcpy.CopyWord` | lib/crt/memcpy.c:68-69 | A word access; it demands that both addresses are aligned, which every call in the loops proves. |
| `Memcpy.WordsUp` | lib/crt/memcpy.c:68-69 | The ascending word loop is one move of all its bytes when the destination is below the source. |
| `Memcpy.WordsDown` | lib/crt/memcpy.c:90-91 | The descending word loop is one move of all its bytes when the destination is above. |
| `Memcpy.LeadUp` | lib/crt/memcpy.c:56-62 | The leading bytes are at least one and at most all, and align both addresses unless they are all. |
| `Memcpy.LeadDown` | lib/crt/memcpy.c:80-86 | The same from the upper end. |
| `Memcpy.MovedUp` | lib/crt/memcpy.c:55-71 | Ascending pieces compose to one move when the destination is below the source. |
| `Memcpy.MovedDown` | lib/crt/memcpy.c:72-94 | Descending pieces compose when it is above. |
| `Memcpy.MovedAt` | lib/crt/memcpy.c:40-98 | What a move leaves at each address of memory. |
| `Memcpy.MaskIsAlignment` | lib/crt/memcpy.c:57-61 | The mask tests of the code are the alignment tests used here, for four-byte words. |
| `Calendar.GmtimeR` | lib/crt/gmtime.c:48-126 | For every second before 2100 the fields are the Gregorian date and time of day that counting years and months from 1970 gives, weekday included; NULL is -EINVAL. |
| `Calendar.DateUnique` | lib/crt/gmtime.c:48-126 | There is only one such date. |
| `Calendar.KnownDates` | lib/crt/gmtime.c:48-126 | The first second of 1970 was in a Thursday, 29 February 2000 12:34:56 was 951827696, and the last second of 2099 is 4102444799. |
| `Calendar.SplitYear` | lib/crt/gmtime.c:63-83 | Four-year intervals, then single years, give the year that the count gives and the seconds into it. |
| `Calendar.SplitMonth` | lib/crt/gmtime.c:102-112 | The table search gives the month and the day in it. |
| `Calendar.DaysFormulaExact` | lib/crt/mktime.c:66-69 | The closed form of the code is the year-by-year Gregorian count if and only if the year is one of 1901 to 2100. |
| `Calendar.ShiftVanishes` | lib/crt/mktime.c:67-68 | The unsigned shift of a year before 1901 is 2^62 days off, which in seconds is nothing modulo 2^64. |
| `Calendar.TableIsMonths` | lib/crt/gmtime.c:30-36 | Both tables are the running sums of the month lengths, less one. |
| `Calendar.MkTime` | lib/crt/mktime.c:45-93 | For any 16-bit int year and month: months carry into the year as floor division and are normalised in place, days are counted by the closed form with is_leap_year's int sum wrapping, the rest adds up modulo 64 bits; NULL is 0. |
| `Calendar.LeapIntFits` | lib/crt/mktime.c:35-43 | is_leap_year is the Gregorian rule as long as its int sum of 16 bits does not wrap. |
| `Calendar.LeapIntWraps` | lib/crt/mktime.c:35-43 | Where it does, it may not be: the leap year 32836 is taken for -32700. |
| `Calendar.CarryMonths` | lib/crt/mktime.c:52-59 | Truncating division and the correction of a negative remainder together are floor division. |
| `Calendar.MktimeUndoesGmtime` | lib/crt/mktime.c:114-117 | _mktime gives back every second that gmtime_r split. |
| `Daylight.WeekExact` | kernel/time/time.c:67-92 | For 1970 to 2099, every month, weekday and week, the last included: cvtdate's day is that day if and only if its int sum of 16 bits does not wrap; when it wraps, the day falls two weekdays late. |
| `Daylight.DstDates` | kernel/time/time.c:159-171 | The start of daylight saving is the last Sunday of March if and only if the year is at most 2059, and its end the last Sunday of October if and only if it is at most 2058. |
| `Daylight.LateOctober` | kernel/time/time.c:76-92 | In 2059 the end is day 300, a Tuesday; the last Sunday of October is day 298. |
| `Daylight.DstYears` | kernel/time/time.c:147-207 | Every date of a year is judged as the season from the last Sunday of March at two o'clock to the last Sunday of October at one o'clock says, if and only if the year is at most 2058. |
| `Daylight.ClockSummer` | kernel/time/time.c:173-206 | On the clock and in milliseconds the season is the same. |
| `Daylight.SeasonOf2021` | kernel/time/time.c:159-206 | In 2021, for example, it is from hour 2 of 28 March to hour 1 of 31 October. |
| `Daylight.Clock.CvtDate` | kernel/time/time.c:53-140 | Sets one transition and leaves the other; a start is the week-th weekday of the month if and only if the int sum does not wrap; an end is taken back to standard time across midnight. |
| `Daylight.Clock.TimeIsInDst` | kernel/time/time.c:147-207 | For 1970 to 2058 and any cache: true if and only if the date, by its hour on the first and last day, is in that season; for fields that are no time of day, by 7200000 and 3600000 milliseconds; for all years the answer for the cache as it is, and a cache that stays valid. |
| `Daylight.Interval` | kernel/time/time.c:173-206 | The tests of the code select exactly the interval from hour 2 of the first day to hour 1 of the last, and in milliseconds for fields that are no time of day. |
| `Daylight.HistoryMatters` | kernel/time/time.c:147-171 | The dates of a year are answered alike whatever was asked before if and only if the year is not 1899, the mark of an unset cache. |
| `Daylight.FirstAnswerDiffers` | kernel/time/time.c:147-171 | Such a date, and the two answers. |
| `Daylight.Clock.LocaltimeR` | lib/crt/localtime.c:50-64 | The date one hour after the second given, or two hours after it exactly when daylight saving is on, which up to 2058 is when the date one hour after it is in the season. |
| `Daylight.Clock.MktimeUndoesLocaltime` | lib/crt/mktime.c:102-105 | mktime gives back every second that localtime_r split, whichever way the daylight test decides and whatever the cache held. |
| `Strtol.StrToL` | lib/crt/strtol.c:38-120 | The unbounded value the string denotes, or the nearest of -2147483648 and 2147483647, and where the digits end. |
| `Strtol.StrToUL` | lib/crt/strtol.c:133-195 | The same for unsigned long: too large is ULONG_MAX, and a minus sign negates modulo 2^32. |
| `Strtol.Accumulate` | lib/crt/strtol.c:96-112 | The loop keeps the exact value until it passes the limit, detects just then, and the accumulator never overflows. |
| `Strtol.CutoffExact` | lib/crt/strtol.c:93-105 | The cutoff test is true if and only if the next digit passes the limit. |
| `Strtol.PrefixQuirk` | lib/crt/strtol.c:62-74 | The end is the one of the standard if and only if the digits do not start with a 0x or 0b prefix that the base allows and no digit follows; the value always is. There the standard reads the 0, and the code no number. |
| `StrtolReads.Reads` | lib/crt/strtol.c:38-120 | A string of white space, a sign, a prefix, at least one digit of the base and anything else has the value of those digits with that sign and ends behind them; the base is the one asked for, or 16 after 0x, 2 after 0b, 8 after another 0 and else 10. |
| `StrtolReads.Examples` | lib/crt/strtol.c:62-74 | 017 is 15, 0x1F is 31, 17 is 17 and 0b11 is 3 under base 0, and a tab, a space and -zZ is -1295 in base 36. |
| `Strtol.BareHex` | lib/crt/strtol.c:62-74 | The string 0x. |
| `Ltoa.LToA` | lib/crt/ltoa.c:37-73 | The buffer gets the printed form and a NUL, and nothing behind them changes. |
| `StrtolReads.PrintsDigits` | lib/crt/ltoa.c:51-63 | Digits are printed as numerals and lower-case letters, 0 as a 0, and a negative number in base 10 behind a minus sign. |
| `Ltoa.StrRev` | lib/crt/stdlib_helper.h:32-47 | The string is reversed in place, the rest of the buffer unchanged; the swaps stay inside the buffer if and only if the string is not empty, because strlen less one wraps for an empty one. |
| `Ltoa.QuotFacts` | lib/crt/ltoa.c:57-63 | Truncating division makes the digit loop end and gives remainders of the number's sign. |
| `LongRoundTrip.RoundTrip` | lib/crt/ltoa.c:37-73 | strtol reads back what ltoa printed, to its end, if and only if the number is not negative, or the base is 10 and it is not LONG_MIN. |
| `LongRoundTrip.MinusOneLost` | lib/crt/ltoa.c:51-62 | A number that does not come back: -1 in base 2 prints as a slash. |
| `LongRoundTrip.RenderedValue` | lib/crt/ltoa.c:57-63 | The digits printed for a positive number have its value and no leading zero. |
| `Rand.Generator.DoRandom` | lib/crt/rand.c:27-42 | For every 32-bit seed, also one that is negative as a long, the seed becomes the product modulo 2^31 - 1 with every intermediate in 32 bits, and the result lies in [0, max]; for the largest 32-bit max there is none, because the code takes a remainder by 0. |
| `Rand.Schrage` | lib/crt/rand.c:35-39 | The decomposition equals the product modulo 2^31 - 1, within bounds. |
| `Rand.FirstNumbers` | lib/crt/rand.c:27-42 | From 1: 16807, 282475249, 1622650073; and 520932930 from the seed that stands in for 0. |
| `Rand.StepBack` | lib/crt/rand.c:35-41 | Multiplying by 1407677000 undoes a step. |
| `Rand.NeverZero` | lib/crt/rand.c:31-41 | The seed becomes 0 only from a multiple of the modulus. |
| `Rand.RunStays` | lib/crt/rand.c:27-42 | Over any number of steps the seed stays in range and is the power of the multiplier times the first seed. |
| `Rand.RunInjective` | lib/crt/rand.c:27-42 | Different seeds stay different for ever. |
| `XorList.Memory.Add` | lib/xorlist.c:41-67 | The links in memory become those of the list with the node inserted behind the given one, from either end. |
| `XorList.Memory.Remove` | lib/xorlist.c:75-99 | The links become those of the list without the node, whose link is cleared; -EINVAL is returned even so. |
| `XorList.Memory.ForEach` | include/etaos/xorlist.h:55-56 | Stepping from an end visits the list in order and ends. |
| `XorList.Memory.ForEachBack` | include/etaos/xorlist.h:55-56 | Stepping from the other end visits it reversed. |
| `XorList.Memory.Neighbours` | lib/xorlist.c:108-134 | From a node and one neighbour, xlist_next and xlist_prev give the other neighbour. |
| `XorList.EncodesReversed` | lib/xorlist.c:108-134 | The same links are the reversed list too. |
| `MenuWalk.Walk` | scripts/kconfig/confdata.c:784-817 | The loop visits all descendants of the root in pre-order, calculates their symbols as it goes, writes each symbol that is marked once calculated where it is met first, and ends, for every finite tree. |
| `MenuWalk.Calc` | scripts/kconfig/symbol.c:293-440 | Calculating a symbol, its choice first where a choice value asks for that, ends even when the choice or the symbols it needs lead back to it; it makes the symbol valid, unless that is a choice that asks to be calculated once more, keeps the mark a choice value has, and changes no mark that is decided. |
| `MenuWalk.TreeDistinct` | scripts/kconfig/confdata.c:784-817 | Linked menus repeat nothing, so that visits every descendant exactly once, and never the root. |
| `MenuWalk.WrittenOnce` | scripts/kconfig/confdata.c:674-730 | Exactly the marked symbols that are no choice are written, once each, however many menus show them. |
| `MenuWalk.Climb` | scripts/kconfig/confdata.c:805-816 | The way up stops at the closest menu with a later sibling, or at the end of the walk. |

## Left out

- unifdef: option parsing, input and output files, -b, -B, -c, -n, -s and the line counters; comments are not scanned, so `ignoring[]` is left out and a line arrives as tokens with a flag for a directive that spills over.
- UnifdefMeaning.MeaningPreserved: literals and the values of known symbols have to fit an int, and a negative symbol may not be compared with an unsigned literal. UnifdefEval.LiteralExact, UnifdefEval.SymbolExact and UnifdefEval.ComparisonExact say that these are what comparisons need, and three lemmas show a file that fails each. A file may break one where it happens not to matter; UnifdefMeaning.JudgementMatters is the condition without them.
- UnifdefMeaning.AcceptsExactly: the condition is exact for files without split directives; with them acceptance also depends on -e and on the states they meet.
- unifdef: a macro call of a known symbol takes the symbol's value whatever its arguments are, and a completion has to agree with that, as the program's users do.
- Heap: guard patterns, owner tracing, locks, SMP, `mm_alloc_aligned` and krealloc; the alignment is 1.
- Heap.FreeList.Free: the caller's pointer has to be NULL, one that malloc returned and that is still in use, or one into free memory; the code cannot tell any other.
- Scheduler: timers and timeouts, sleep, kills, SMP, dynamic priorities across __schedule, SCHED_FAIR, threaded interrupts and the lottery class; context switching and stack frames.
- Cpu: the flags of the threads are sets of thread numbers, and the wake list is a sequence; the queues are linked through the threads. The tick at which a thread was queued to run is kept beside the code's own data, for what is said about deadlines.
- UnifdefDecides.DecidedExactly: where an unknown symbol is met twice or compared, unifdef does not work out what every value of it gives (A || !A is unknown); UnifdefDecides.AndDecided, UnifdefDecides.OrDecided and UnifdefDecides.ComparisonDecided hold for all expressions.
- EventRuns.EventKept: an interrupt that posts to a full counter loses the event, and so does event_notify on an unsafe reading; EventRuns.IrqPostRecorded and SchedulerRuns.StepOk say exactly when, and EventFailures shows both.
- Semaphores and IPM queues are not part of this model; waking the last semaphore waiter leaves the queue signaled, so exact counting does not hold there.
- Mutex: tracing, and the timed wait; `count` is an unbounded integer, so nested locks beyond the range of an int do not wrap. The wait loop suspends its thread, so it appears as steps and not as one method. event_notify is one step here, because mutex_lock leaves preemption off: EventRuns.Unpreempted.
- Memcpy: pointers are indices of one memory, so address wrap-around is not modelled; overlap and aliasing are.
- Calendar.GmtimeR: seconds before 1970 or after 2099 are not covered; the code's comment puts them out of range.
- Daylight: `_daylight`, the time zone and the bias are the values of the default configurations; an int has 16 bits and a long 32, as on the AVR, the one architecture there is, and signed overflow wraps.
- Strtol: long has 32 bits, as limits.h says, and bases are 0 or 2 to 36.
- UnifdefExpr: a number token carries one value, for strtol and for C. The two differ for a spelling such as 0b10, which is no number to a strtol that does not know it.
- Ltoa: negating LONG_MIN wraps, as it does on the target machines, where C leaves it undefined.
- XorList: addresses are unbounded numbers; the exclusive or is defined bit by bit.
- MenuWalk.Walk: the marks that a choice, when it is calculated itself, adds to its visible values (scripts/kconfig/symbol.c:422-433) are not part of this model; so a value that was written before would be written again where another menu shows it.
- MenuWalk.Calc: whether a symbol is visible, its value, and so whether it is to be marked, are fixed before the walk; the text written is not modelled.
- VFS, file systems, printf, drivers, the C++ wrappers, the rest of kconfig and the image tools: input, output and hardware access.
