# The proxy's I/O schedulers: model and proofs

A PVFS2 proxy sits between clients and data servers, holds requests back, and
lets them go in an order that shares the servers among applications. This
project models, in Dafny, the schedulers of that proxy, the two data structures
they queue in, and the steps of the proxy that drive them, and proves what the
schedulers are for: fair shares, bounded concurrency, rate limits, deadlines,
and that nothing is lost between proxies or on a socket.

`dafny verify dfyconfig.toml` checks everything.

## What is in each file

- `Basics.dfy`, `Division.dfy`: options, sums, sequences without repetition, a few
  facts about multisets; quotients.
- `MergeSort.dfy`, `LinkedList.dfy`: the bottom-up merge sort of `llist.c` as a
  function on sequences, proved to be the one stable sort of its input, and the
  linked list itself, whose sort relinks the cells in place and is proved to
  compute that function.
- `Binomial.dfy`, `BinomialHeap.dfy`: the heap of `heap.c` on tree values, proved
  to be a priority queue of binomial shape, and on node objects whose parent,
  next, child and degree are rewritten in place, proved to follow the values.
- `FairQueue.dfy`, `Sfqd.dfy`, `SfqdDriver.dfy`: start-time fair queuing; its
  fairness; the scheduler on its two real queues, which dispatch alike; and the
  proxy steps around it, with the admission invariant they rely on.
- `SfqdFull.dfy`, `SfqdBooks.dfy`: the variant in which a request weighs several
  slots, the list is sorted behind every append, and both enqueue and dequeue scan it
  for the first request that fits; whom it serves, and in which of its modes its
  books are right and nothing that fits is left waiting.
- `Sfqd3.dfy`: the variant with a depth for each application, in which whoever is
  ahead of its share rests, and its requests that are out.
- `Avatar.dfy`, `TwoLevel.dfy`: the two-level scheduler; the window controller with
  its six cases, and the mutually recursive procedures that move requests from
  the credit queues through the deadline queue to the servers.
- `Broadcast.dfy`, `Dsfq.dfy`, `Vdsfq.dfy`: the distributed schedulers; several
  proxies whose threads take atomic steps in any order, what is conserved among
  them, and the two schedulers built on it.
- `Relay.dfy`: one direction of the relay; partial receives and sends of several
  messages at once.

A class stands for the globals of one C file; its methods are tied to functions
on values (`State()` of the object before and after), and the lemmas are about
those functions and about runs of them.

## What is assumed

- Tags, sizes and counters are mathematical integers; a C `int` that overflows is
  not modelled. `Sfqd3` keeps `INT_MAX` as the start of its scan and asks of
  start tags to lie below it.
- Weights are positive and lengths are not negative. `Sfqd3` and `TwoLevel` have
  at least one application; the infinity of the window controller is at least 2.
- Item ids grow with every enqueue. The driver is single-threaded; each request
  that was dispatched completes once.
- The clock does not go back. Fields that the C code leaves unset after `malloc`
  (the flag of a deadline in the current window) start at zero.
- The controller's floats are real numbers plus a NaN; rounding is left aside.
- The heap variant of SFQ(D) is taken without its counters of queued requests per
  application: they are allocated for the list only but written for both
  (`scheduler_SFQD.c:113`, `scheduler_SFQD.c:296`).
- A step of a thread is what it does under one mutex, or with one whole message.

## What turned out to need a condition

- A list queue that is dequeued before anything was enqueued is lost: the sort
  returns `NULL` for an empty list, and the next enqueue ends the program. Both
  queues dispatch alike exactly on the other sequences (`Sfqd.DispatchAll`); under
  the driver this never happens (`SfqdDriver.AdmissionHolds`).
- `scheduler_SFQD_Full.c` counts its small requests right exactly if a large one
  does not weigh one slot or there is no slot at all (`SfqdBooks.SmallCountExact`;
  otherwise one large request received and finished leaves the count at minus one).
- Its slots in use are those of the requests out exactly if weights are taken
  always (hard mode) or never (no blocking), or a large request weighs one slot, or
  at least all of them (`SfqdBooks.SlotsExact`). In the other soft modes a large
  request dispatched beside small ones takes its weight and gives back one slot; still
  there are never more slots in use than there are (`SfqdFull.NeverOverCapacity`).
- A completion dispatches one request at most, so that one that fits may be left
  waiting, unlike in plain SFQ(D). That none ever is holds exactly if a large request
  weighs one slot; or in the hard mode nothing or more than all slots; or in the soft
  mode if there is no blocking, or one slot at most and a larger weight
  (`SfqdBooks.NoneFitsExact`). With a depth and a factor of ten in the hard mode: a
  large request is received, then two small ones, and the large one completes
  (`SfqdBooks.HardLeavesOne`).
- It sorts its list behind every append (`scheduler_SFQD_Full.c:233`) with the
  comparator of another scheduler, which takes the second integer of a queue item for
  the start tag (`llist.c:63-77`). In the items of this scheduler that integer is the
  request socket (`scheduler_SFQD_Full.h:36-40`), so among the requests that fit the
  lowest socket goes first and start tags decide nothing (`SfqdFull.LowestSocketGoes`;
  `SfqdBooks.LaterTagFirst` is a run in which the larger start tag goes first).
  The model follows the code; all but that one result hold for every comparator, or
  for every one that is a total preorder.
- The first "cannot decide" exit of the window controller is taken exactly if some
  class below infinity has waited out its whole deadline, has a percentile of
  zero, and the window never reached its threshold; the second exit never
  (`Avatar.ExitsExactlyWhen`).
- After a two-level enqueue all that can be admitted has been, exactly if the credits
  cover the new request; or, with room to spare, fresh credits do, or cover nobody
  else's first request either; or, without room, nothing could be admitted before
  (`TwoLevel.Scheduler.Enqueue`). Otherwise it replenishes credits, finds them too few
  for the new request, and dispatches nothing, although another application can now
  afford its own (`scheduler_2LSFQD.c:476-497`; `TwoLevel.LeftWaiting` is such a run).
  Completions, replenishing and the window thread never spoil this.

## Model

| member | source | states |
|---|---|---|
| MergeSort.SortIsStable | llist.c:151-241 | for every comparator that is a total preorder the sort yields a sorted rearrangement in which equal elements keep their order |
| MergeSort.StableSortUnique | llist.c:151-241 | a sorted sequence is determined by its classes of equal elements, so there is only one stable sort |
| MergeSort.SortAfterAppend | llist.c:151-241 | appending to a sorted list and sorting again places the item behind all that are not greater |
| MergeSort.SortRearranges | llist.c:151-241 | whatever the comparator says, no item is lost or doubled |
| MergeSort.MergeClass | llist.c:196-219 | merging puts the equal elements of the first run before those of the second |
| MergeSort.PassRuns | llist.c:163-226 | a pass over sorted runs of length k leaves sorted runs of length 2k |
| LinkedList.MergeRuns | llist.c:190-221 | the inner loop relinks two runs into the merge of their cells behind what was merged, touching no other cell |
| LinkedList.OnePass | llist.c:160-226 | one pass of the outer loop terminates, keeps every cell, and reports at most one merge exactly if the list is sorted after it |
| LinkedList.PintList.Sort | llist.c:151-241 | on a non-empty list it returns the same header with the sorted contents and the same cells; on an empty one it returns null |
| LinkedList.PintList.Empty | llist.c:247-253 | true exactly for a list without items |
| LinkedList.PintList.Head | llist.c:315-321 | the first item, or nothing |
| LinkedList.PintList.AddToTail | llist.c:261-283 | the contents with the item behind |
| LinkedList.PintList.Search | llist.c:342-358 | the first item that matches |
| LinkedList.PintList.Rem | llist.c:366-389 | takes out the first item that matches and leaves the rest in order |
| Binomial.BinomialSize | heap.c:82-89 | a tree of degree k has two to the k nodes |
| Binomial.UnionShape | heap.c:160-198 | the union of two root lists with growing degrees has growing degrees and binomial trees |
| Binomial.UnionOrdered | heap.c:160-198 | the union of heap-ordered root lists is heap-ordered |
| Binomial.UnionVals | heap.c:160-198 | the union holds the values of both |
| Binomial.MinIndexUnbeaten | heap.c:136-158 | no root beats the one found |
| Binomial.ExtractCorrect | heap.c:200-213 | taking out the minimum root keeps shape and order, removes exactly its value, and nothing in the heap beats it |
| Binomial.InsertCorrect | heap.c:216-242 | inserting keeps shape, order and a cached minimum nothing beats, and adds exactly the value |
| Binomial.PeekCorrect | heap.c:268-274 | peeking keeps the heap and its values; what is cached then beats or equals everything, and nothing is cached only in an empty heap |
| Binomial.TakeCorrect | heap.c:276-293 | taking from a heap with values returns one that nothing beats and removes exactly it |
| BinomialHeap.HeapLink | heap.c:82-89 | the pointers of the child and its new root become those of the linked tree |
| BinomialHeap.HeapMerge | heap.c:92-113 | the two root lists are relinked into one by degree |
| BinomialHeap.HeapReverse | heap.c:116-134 | the children are relinked in reverse order and lose their parent |
| BinomialHeap.HeapMin | heap.c:136-158 | finds the first root that no later one beats, and the root before it |
| BinomialHeap.HeapUnion | heap.c:160-198 | merging and linking in place leaves exactly the union of the two root lists, on the same nodes |
| BinomialHeap.HeapExtractMin | heap.c:200-213 | unhooks the minimum root and joins its children to the other roots; nothing from an empty heap |
| BinomialHeap.BinHeap.Insert | heap.c:216-242 | the heap of objects follows the insertion on values, over the old nodes and the new one |
| BinomialHeap.BinHeap.Peek | heap.c:268-274 | returns a node whose value nothing beats, or null for an empty heap, and keeps the values |
| BinomialHeap.BinHeap.Take | heap.c:276-293 | returns a node whose value nothing beats; exactly that node and value leave the heap |
| FairQueue.TagCost | scheduler_SFQD.c:231-265 | finish minus start tag is the length in units of weight kilobytes, at least one |
| FairQueue.StartsAtLater | scheduler_SFQD.c:283-301 | a request starts at the later of virtual time and its application's last finish tag, ends as much later as it costs, and its end becomes that tag |
| FairQueue.EnqueueKeeps | scheduler_SFQD.c:299-301 | a new item goes behind all others of its application, and the tags of a backlog stay contiguous |
| FairQueue.TimeNeverDecreases | scheduler_SFQD.c:495-498 | virtual time never decreases over a run |
| FairQueue.Fairness | scheduler_SFQD.c:231-301 | over any stretch of any run in which two applications always wait, the tag cost dispatched for them differs by at most one largest request of each |
| FairQueue.ServedOnce | scheduler_SFQD.c:439-498 | over any run each item leaves once or still waits, and items leave in the order of their start tags |
| Sfqd.SortAfterAppend | llist.c:63-77 | appending and sorting later by start tag alone is placing the item at once behind every start tag not larger |
| Sfqd.UnbeatenIsFirst | scheduler_SFQD.c:132-156 | the value that the heap's comparator beats by none is the first in dispatch order |
| Sfqd.Scheduler.AddItem | scheduler_SFQD.c:158-184 | either queue then holds the items with the new one in its place; only a lost list refuses |
| Sfqd.Scheduler.RemoveFirst | scheduler_SFQD.c:439-491 | either queue gives up the first item in dispatch order; an unsorted empty list is lost |
| Sfqd.Scheduler.Enqueue | scheduler_SFQD.c:267-372 | the new state of tags, queue and depth, the answer whether a slot was free, and when the program exits instead |
| Sfqd.Scheduler.Dequeue | scheduler_SFQD.c:427-522 | returns the first item in dispatch order and sets virtual time to its start tag, or frees a slot |
| Sfqd.DispatchAll | scheduler_SFQD.c:439-493 | any sequence of calls returns on both queues the same items in order of start tag and id; the list run dies exactly if a dequeue comes first and an enqueue later |
| SfqdDriver.AdmissionHolds | message.c:392-411 | in every state of every run the depth counts the requests out and is at most the configured one, a free slot means an empty queue, a request is locked exactly if its item is queued, the locked assertion holds and the sort meets no empty list |
| SfqdDriver.DispatchedIsItself | message.c:392-405 | an enqueue told to go dequeues the very item it enqueued |
| SfqdDriver.CompleteKeeps | proxy2.c:852-871 | a completion keeps the invariant and dispatches a locked request |
| SfqdDriver.Proxy.ReceiveRequest | message.c:392-411 | the proxy on the real list queue never fails to queue a request, and takes the modelled step |
| SfqdDriver.Proxy.CompleteRequest | message.c:955-969 | the proxy takes the modelled step, and the assertion on the lock in its body is proved |
| SfqdFull.LookaheadExact | scheduler_SFQD_Full.c:485-534 | in every mode and for every comparator enqueue, whose item may stand anywhere in the sorted list, answers dispatched exactly if the dequeue that follows returns the item just enqueued |
| SfqdFull.ServedInLine | scheduler_SFQD_Full.c:210-237 | after every run a new request goes at once exactly if it fits and is ahead of every other queued one that does, and a completion lets go exactly the request that fits and is ahead of every other that does; ahead is smaller by the comparator, else older |
| SfqdFull.ServedOnce | scheduler_SFQD_Full.c:702-767 | over every run each request leaves the queue once or still waits, and virtual time is the start tag of the one that left last |
| SfqdFull.TagCost | scheduler_SFQD_Full.c:278-317 | finish minus start tag is the length in units of weight times 32 bytes, at least one |
| SfqdFull.StartsAtLater | scheduler_SFQD_Full.c:278-398 | the tags of a request as in SFQ(D); it weighs one slot unless it is over the threshold |
| SfqdFull.LowestSocketGoes | llist.c:63-77 | with the comparator as it reads the items, a completion lets go the request of the lowest socket that fits, the oldest of those |
| SfqdFull.StepAccounts | scheduler_SFQD_Full.c:702-787 | in every mode a step keeps ids distinct, at most all slots in use, those in use the ones of the requests out where weights are taken always or never, and the small requests counted unless a large one weighs one slot |
| SfqdFull.NeverOverCapacity | scheduler_SFQD_Full.c:626-787 | over every run, in every mode, no more slots in use than there are, and no more requests out than slots in use if each weighs something |
| SfqdBooks.SmallCountExact | scheduler_SFQD_Full.c:649-654 | the small requests are counted right over all runs exactly if a large one does not weigh one slot, there is no slot, or no application |
| SfqdBooks.SmallCountDrifts | scheduler_SFQD_Full.c:649-654 | else one large request received and finished leaves the count at minus one |
| SfqdBooks.SlotsExact | scheduler_SFQD_Full.c:702-712 | the slots in use are those of the requests out over all runs exactly in the hard mode, without blocking, with a factor of one, or with a positive one of at least the depth (or no application) |
| SfqdBooks.SlotsDrift | scheduler_SFQD_Full.c:698-765 | else a small request and a large one behind it suffice to part them |
| SfqdBooks.NoneFitsExact | scheduler_SFQD_Full.c:702-788 | no request that fits is left waiting after any step of any run, exactly with no application, with a factor of one, in the hard mode with a factor of zero or above the depth, without blocking, or in the soft mode with one slot at most and a factor above one |
| SfqdBooks.HardLeavesOne | scheduler_SFQD_Full.c:702-731 | in the hard mode, with a factor from two to the depth, a large request received, small ones that fill the server, two more, and the large one completing leave one that fits |
| SfqdBooks.ZeroLeavesOne | scheduler_SFQD_Full.c:716-719 | in the soft mode, with a factor of zero, a large request that waits fits once a small one comes |
| SfqdBooks.SoftLeavesOne | scheduler_SFQD_Full.c:649-731 | in the soft mode, with a larger factor and two slots or more, the last small request completing leaves a large one that now fits |
| SfqdBooks.LaterTagFirst | llist.c:63-77 | two requests wait, and the one with the larger start tag and the lower socket goes first |
| SfqdFull.Scheduler.AddToQueue | scheduler_SFQD_Full.c:223-234 | the list holds what the sort makes of its items and the new one, on the same header |
| SfqdFull.Scheduler.Append | scheduler_SFQD_Full.c:340-455 | tags, weight, small count and sorted queue after an enqueue |
| SfqdFull.Scheduler.LooksAhead | scheduler_SFQD_Full.c:489-516 | the scan of the linked list finds out whether the new item, wherever it stands, is the first that fits |
| SfqdFull.Scheduler.Enqueue | scheduler_SFQD_Full.c:319-534 | the new state, and an answer that is true exactly if the next dequeue would return this item |
| SfqdFull.Scheduler.FindFit | scheduler_SFQD_Full.c:713-729 | the scan of the linked list finds the first item that fits beside what remains out |
| SfqdFull.Scheduler.TakeFit | scheduler_SFQD_Full.c:713-731 | taking that item out by its id takes out that very item |
| SfqdFull.Scheduler.Dequeue | scheduler_SFQD_Full.c:620-788 | returns that item and leaves the books of depth, small count, virtual time and queue as modelled |
| Sfqd3.DiffsSum | scheduler_SFQD3.c:73-83 | throughputs that add up to the total, and weights to the total weight (`config.c:510`), give differences that add up to at least 0 and less than the number of applications, so some difference is at most 0 |
| Sfqd3.NextIsLeast | scheduler_SFQD3.c:526-571 | the scan returns a request of smallest start tag among all open applications, and nothing only if none is open |
| Sfqd3.StartsAtLater | scheduler_SFQD3.c:243-268 | a request starts at the later of its application's virtual time and last finish tag, and ends as much later as its length in units of weight |
| Sfqd3.DiffIsCreditLessShare | scheduler_SFQD3.c:73-83 | over every run an application's throughput is what was counted for it, the total what was counted for all, and its difference the one less its share of the other by weight |
| Sfqd3.NothingLost | scheduler_SFQD3.c:215-589 | over every run each request of an application waits, is out, or has completed, once |
| Sfqd3.ReceiveKeeps | scheduler_SFQD3.c:326-357 | a request told to go is the one the scan over all applications then returns; either way whoever has requests queued has its depth full or rests |
| Sfqd3.CompleteKeeps | scheduler_SFQD3.c:460-588 | a completion keeps that, and dispatches from the application that completed or from none |
| Sfqd3.RecountKeeps | message.c:909-936 | bringing the differences up to date and draining whoever stops resting keeps that |
| Sfqd3.NeverAllResting | scheduler_SFQD3.c:326-588 | over every run whoever has requests queued has its depth full or rests, and some difference is at most 0 |
| Sfqd3.WithinDepth | scheduler_SFQD3.c:441-589 | over every run an application's depth in use is the number of its requests out and at most its depth, and exactly that if it has requests queued and does not rest |
| Sfqd3.StepBooked | message.c:902-939 | every step, those that drain several requests included, keeps that |
| Sfqd3.Scheduler.Enqueue | scheduler_SFQD3.c:215-357 | the new state, and whether the request may go |
| Sfqd3.Scheduler.Scan | scheduler_SFQD3.c:526-558 | the loop finds the open application the model picks |
| Sfqd3.Scheduler.GetNextRequest | scheduler_SFQD3.c:441-589 | for each of its three reasons the item returned and the new state |
| Sfqd3.Scheduler.CountThroughput | message.c:902-939 | credits the throughput to the application it is counted for and brings every difference up to date |
| Sfqd3.Scheduler.DrainApp | message.c:918-936 | dequeues for one application until nothing comes; what comes is the front of its queue, in order |
| Avatar.EfficiencyRange | scheduler_2LSFQD.c:1256-1285 | the efficiency of a class is a NaN exactly if nothing is left of its deadline and its percentile is zero; else it lies between 0.001 and 1000 |
| Avatar.EfficiencyIs | scheduler_2LSFQD.c:1256-1285 | what is left of the deadline over the percentile; where that is above 1000, what is left over the deadline; at least 0.001; and 1.1 where it is below -1000 |
| Avatar.DecideCases | scheduler_2LSFQD.c:1293-1402 | for one class which exit is taken when, and that a decision leaves a positive threshold |
| Avatar.ExitsExactlyWhen | scheduler_2LSFQD.c:1218-1407 | the second exit is never taken, the first exactly under a condition on the inputs |
| Avatar.TakesFirstExit | scheduler_2LSFQD.c:1293-1357 | an input that takes the first exit: a window that sees two requests complete, the second of which had waited out its deadline, with a percentile of zero |
| Avatar.ThresholdInRange | scheduler_2LSFQD.c:1404-1415 | without a zero over zero the controller decides and sets a threshold between 1 and infinity |
| Avatar.WindowDecides | scheduler_2LSFQD.c:1205-1415 | without a zero over zero: a class below infinity ends at infinity if what it bears is below the least that comes, else at the smaller of that and the most that comes, but keeps its threshold if it bears that much and the window never reached it; one at infinity comes down to the larger of what it would have borne and the least that comes, unless what comes is nine tenths of the completed; the next threshold is the least of theirs and infinity, and the window overloaded exactly if every class is crowded |
| Avatar.NaNEnds | scheduler_2LSFQD.c:1293-1402 | what becomes of a class with a zero over zero where the controller does not exit |
| Avatar.HalvesThreshold | scheduler_2LSFQD.c:1324-1337 | a class that waited half its deadline, in a full window, halves the threshold |
| Avatar.CeilIs | scheduler_2LSFQD.c:1415 | the threshold set is the least integer not below it |
| Avatar.Analyse | scheduler_2LSFQD.c:1224-1408 | the loop over the classes, on the array of their thresholds, computes the analysis |
| TwoLevel.RateBound | scheduler_2LSFQD.c:571-604 | between two replenishments the sizes admitted for an application, nested admissions included, add up to at most the replenished amount |
| TwoLevel.TakesTurns | scheduler_2LSFQD.c:566-606 | while nothing goes out: between two admissions of one application every other that can pay after the first is admitted |
| TwoLevel.QuotaIsRate | scheduler_2LSFQD.c:1467-1478 | a fresh amount is the rate times the replenish time, to less than a byte for each millisecond |
| TwoLevel.CountsAre | scheduler_2LSFQD.c:1169-1198 | the counts of arrivals, of those due, and of those due in a stretch of time are the numbers of such requests |
| TwoLevel.HistorySnoc | scheduler_2LSFQD.c:583-593 | how a happening changes the credits left, and that one that is covered overdraws nothing |
| TwoLevel.Scheduler.Replenish | scheduler_2LSFQD.c:1467-1478 | every application gets its full amount |
| TwoLevel.Scheduler.UpdateSpareness | scheduler_2LSFQD.c:1531-1539 | replenishes exactly while less than nine tenths of the threshold is outstanding |
| TwoLevel.Scheduler.Admit | scheduler_2LSFQD.c:578-593 | takes the first request of an application and charges for it; credits stay what the history leaves and never go negative |
| TwoLevel.Scheduler.DequeueAll | scheduler_2LSFQD.c:522-545 | terminates from every state although credits are refilled inside it, loses no request, and stops only when no application can afford its first request; while nothing goes out the applications are admitted in turn |
| TwoLevel.Scheduler.Dequeue | scheduler_2LSFQD.c:557-616 | admits the first request of the first application from the turn on that can pay, charges for it and moves the turn on behind it, and shrinks the measure; or has tried every application and changes nothing |
| TwoLevel.Scheduler.NextAdmissible | scheduler_2LSFQD.c:566-606 | stops at the first application from the turn on that can pay, or is back where it began |
| TwoLevel.Scheduler.Put | scheduler_2LSFQD.c:626-654 | the request goes to the end of the queue, which stays in deadline order, and the window's counters follow |
| TwoLevel.Scheduler.EdfEnqueue | scheduler_2LSFQD.c:620-670 | afterwards the lower queue is empty or the threshold reached, and no request is lost |
| TwoLevel.Scheduler.CountReady | scheduler_2LSFQD.c:691-718 | counts the requests at the head that have missed their deadline or find fewer outstanding than the threshold, up to the first that does not |
| TwoLevel.Scheduler.EdfDequeueAll | scheduler_2LSFQD.c:672-753 | afterwards the lower queue is empty or the threshold reached; if requests went out, credits were replenished where there was room to spare and all that could be admitted was; else nothing changed |
| TwoLevel.Scheduler.SendOut | scheduler_2LSFQD.c:720-731 | the counted requests go out from the head in order, unchanged, and no pop meets an empty queue |
| TwoLevel.Scheduler.EdfDequeue | scheduler_2LSFQD.c:757-816 | the head goes out, the counters of arrivals follow; nothing from an empty queue |
| TwoLevel.Scheduler.Enqueue | scheduler_2LSFQD.c:457-500 | the request is in the scheduler; if credits were enough all that can be admitted is; if not, they are replenished exactly where there is room to spare, and if those are too few, or there is no room, it just waits behind its application's others; exactly when all that can be admitted has been; an empty scheduler with a slot sends it straight out |
| TwoLevel.LeftWaiting | scheduler_2LSFQD.c:476-497 | a run from the start after which a request of 100 bytes waits with 209600 credits and room below |
| TwoLevel.Scheduler.Complete | scheduler_2LSFQD.c:1007-1057 | the request leaves, the window counts it as arrived again if it arrived in this window and as due if its deadline lies in it, and the lower queue is empty or the threshold reached; if all that could be admitted was, it still is |
| TwoLevel.Scheduler.CountDue | scheduler_2LSFQD.c:1176-1198 | the loop counts exactly the queued requests due in the next window, although it stops at the first one due later |
| TwoLevel.Scheduler.Observe | scheduler_2LSFQD.c:1169-1216 | the two estimates of what comes, the lower of which is never above the upper |
| TwoLevel.Scheduler.TimeWindow | scheduler_2LSFQD.c:1131-1464 | the analysis is made of what the queues show at the end of the window and sets the next threshold; a turn of the window thread never takes the second exit; without a zero over zero it ends with a threshold between 1 and infinity, and with the lower queue empty or the threshold reached; counters start afresh, credits are replenished only if it was overloaded or a request went out; if all that could be admitted was, it still is |
| Broadcast.StepKeeps | scheduler_DSFQ.c:681-919 | every step of every thread keeps the accounts between every two proxies |
| Broadcast.ConservationOfBytes | scheduler_DSFQ.c:681-919 | in every interleaving, for each sender, receiver and application: what the run added is pending, unsent, on its way, in the receiver's hands or applied; and applied is due or used |
| Broadcast.NeverOverwritten | scheduler_DSFQ.c:690-729 | when the coordinator may fire no buffer is unsent, and no message tells less than the least amount |
| Dsfq.BytesConserved | scheduler_DSFQ.c:227-251 | the same for the bytes of DSFQ, whose coordinator is woken at the threshold exactly and whose messages tell of at least the threshold |
| Dsfq.WokenAtThreshold | scheduler_DSFQ.c:226-238 | over every run the coordinator is awake exactly while there are enough bytes to tell |
| Dsfq.DelayPutsOff | scheduler_DSFQ.c:247-251 | the start tag is the later of virtual time and the last finish tag put off by the whole units of weight kilobytes in the delay |
| Dsfq.TagsGrowByDelay | scheduler_DSFQ.c:241-267 | an application's last finish tag grows at least by its requests' costs and the units of the delays they use up, and by exactly that while it stays ahead of virtual time |
| Dsfq.UnitsOfDelays | scheduler_DSFQ.c:247 | with one weight those units are all delay used up, but for less than one for each request |
| Dsfq.Proxy.CountRequest | scheduler_DSFQ.c:226-238 | counts the bytes and wakes the coordinator exactly at the threshold |
| Dsfq.Proxy.TagRequest | scheduler_DSFQ.c:241-267 | uses up all delay due for the application and puts the start tag off by it; the delay used and the last finish tags stay those of the requests tagged |
| Dsfq.Proxy.Trigger | scheduler_DSFQ.c:681-732 | copies what is pending to every peer's buffer and starts a broadcast |
| Dsfq.Proxy.SendTo | scheduler_DSFQ.c:768-783 | the message handed to the socket is the one in the buffer and tells of at least the threshold |
| Dsfq.Proxy.CheckComplete | scheduler_DSFQ.c:807-828 | the broadcast is over exactly if no buffer is unsent |
| Dsfq.Proxy.ApplyNext | scheduler_DSFQ.c:907-919 | the next amount of a message is added to what is due |
| Vdsfq.StepRefines | scheduler_vDSFQ.c:244-992 | every step but the timer's is the step of the broadcast machinery it is named after |
| Vdsfq.TriggeredRegular | scheduler_vDSFQ.c:756-803 | the message built from the application states is exactly what is pending, and each application is told once |
| Vdsfq.ToldAtMostOnce | scheduler_vDSFQ.c:967-992 | over every run each application a proxy has told is one announcement to each peer, unsent, on its way or delivered, and no other is any; what a proxy believes is the number of peers delivered, at most all; the counter is the number of applications seen but not told |
| Vdsfq.WokenRightly | scheduler_vDSFQ.c:240-266 | over every run an application is seen exactly if a request of it came; the coordinator is woken once there is enough to tell and never with nothing to tell; and the next request wakes it exactly if there is then enough, or the timer is up and there is anything |
| Vdsfq.Proxy.constructor | scheduler_vDSFQ.c:126-134 | a proxy starts in the initial state of the system, and well formed |
| Vdsfq.Proxy.Announce | scheduler_vDSFQ.c:240-265 | the application state, counters and flags after an enqueue |
| Vdsfq.StepTimer | scheduler_vDSFQ.c:429-441 | the timer is up from when it goes off until a broadcast |
| Vdsfq.Proxy.TagRequest | scheduler_vDSFQ.c:270-305 | what is believed of the peers, times the length, puts the start tag off, and is not used up |
| Vdsfq.Proxy.Trigger | scheduler_vDSFQ.c:733-803 | message, application states, buffers and flags after the coordinator's turn |
| Vdsfq.Proxy.ApplyNext | scheduler_vDSFQ.c:981-992 | the next count of a message is added to what the proxy believes |
| Relay.StepOrderly | proxy2.c:604-703 | receiving, sending, unlocking and picking keep 0 <= head <= tail <= size for every message and one message at a time on the socket |
| Relay.WholeMessages | proxy2.c:906-1007 | over every interleaving the bytes written are whole received messages, each once, then the first bytes of the one being sent, and none of a locked message |
| Relay.WhatCameIn | proxy2.c:604-689 | over every run the data of all messages, joined in order of arrival, is all that was received; each is the stretch of it behind those before, of the size it began with; as many bytes went out as were sent; and a message is locked exactly until it is unlocked |
| Relay.PicksFirst | message.c:154-181 | a free socket takes the first message that may go, and none only if there is none |
| Relay.NextPicked | proxy2.c:960-1006 | when a message is out whole the next that may go is picked |
| Relay.FirstSendable | llist.c:53-61 | the first message with unsent bytes that is not locked |
| Relay.Connection.ReceiveBytes | proxy2.c:611-701 | the bytes go behind what has come of the message; a full message is no longer being received |
| Relay.Connection.UpdateCurrentSend | message.c:154-181 | with nothing being sent the first sendable message is picked, and it is not locked |
| Relay.Connection.PrepareEvents | proxy2.c:158-217 | waits for the socket to be writable exactly if a message being sent has unsent bytes |
| Relay.Connection.SendBytes | proxy2.c:923-1006 | the bytes written are the next of the message; when it is out whole another is picked |

## Left out

- Sfqd3.Scheduler.TakeFrom: each application's heap is kept as its items in dispatch order, so it does not model the heap's pointers again; `Binomial` and `Sfqd.UnbeatenIsFirst` say why the heap gives them in that order.
- TwoLevel.Scheduler.Put: the lists of this scheduler are sequences, so the in-place relinking of `PINT_llist_sort` is not modelled again; the sort is that of `MergeSort`.
- TwoLevel.Scheduler.TimeWindow: where the smallest threshold is a NaN, C leaves the converted integer open; the model lets it be any.
- Sockets, polling, thread creation, logging and statistics: input and output.
- Wire decoding, share computation and offsets (`dump.c`, `utility.c`): sizes are inputs.
- `heap_union`, `heap_decrease`, `heap_delete` and the per-application counts of the heap: re-counting through insertion, a cached minimum ignored, and a count read through a struct cast.
- Partial sends and receives of broadcasts: offsets are scaled by the size of a struct; each message to a peer is atomic here.
- The lock that the two-level enqueue leaves on a request: it matches by socket rather than by request. Its percentile estimation and response-time lists are inputs to the window controller.
- `dsfq_dequeue`: a list queue sorted when it is dequeued, as in `Sfqd`.
- The vDSFQ queue: a list that is sorted in the enqueue, and only behind a request that is held back; its dequeue takes the head and does not sort (`scheduler_vDSFQ.c:367-400`).
- The heap mode of `scheduler_SFQD_Full.c`: a compile-time switch that is off.
- The `vdsfq_left` flag: it only chooses what is logged.
- Request clean-up after the last message of a tag, `config_tag` and port changes in the relay: their safety depends on the peers.
- Address ranges, dictionaries and option parsing (`config.c`, `dictionary.c`, `iniparser.c`): linear scans.
- `scheduler_SFQD2.c`, `scheduler_vDSFQ2.c`, `scheduler_DSFQ_Full.c`, `scheduler_IEDF.c`, `proxy2.i.c`: near copies or old versions.
- The MPI benchmarks and the cost model's averaging.
