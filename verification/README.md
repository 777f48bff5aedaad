# A verified model of libivy

libivy is distributed shared memory. Every node maps the same region with all pages closed; a load
or store to a closed page faults, and the fault handler gets the page through a manager, node 0. The
manager keeps an owner and a copyset for each page, fetches the page from its owner (which loses
write access, or all access), invalidates the readers before a write, and hands ownership on. Nodes
talk through remote calls whose arguments and results are text. This project models that protocol,
the text formats, and the three programs the repository runs on the shared memory, and proves that
the applications see one flat memory and that the programs compute what they are for.

`dafny verify dfyconfig.toml` checks everything.

## How the model is laid out

| file | contents |
|---|---|
| `types.dfy` | words, pages, loads and stores; one flat memory as the specification |
| `protocol.dfy` | the step machine of one page: application accesses, fault handlers, the manager's service, the remote handlers, each lock, copy, reply and install a step of its own |
| `coherence.dfy` | the invariant of that machine, and that every step keeps it |
| `system.dfy` | any number of pages and one application thread per node; refinement of flat memory |
| `guarantees.dfy` | what the invariant means in every reachable state |
| `progress.dfy`, `lonefault.dfy` | exactly when a service can be completed, how many calls every run of it makes, and that an undisturbed one ends |
| `atomic.dfy` | a fault that nothing disturbs is one atomic step |
| `retries.dfy` | a fault whose calls fail and are made again: what kind it stays, and what it comes to |
| `histories.dfy` | the histories of loads and stores that runs can show are exactly those of a flat memory |
| `races.dfy` | concrete runs in which a guarantee fails when a hypothesis is dropped |
| `careful.dfy`, `nodezero.dfy` | exactly which services that start before node 0 has installed a reply let an application see a stale value, in any run |
| `lostinvalidations.dfy` | exactly when an ignored failed invalidation lets an application see a stale value |
| `numbers.dfy`, `pagetext.dfy`, `requests.dfy` | the text formats and their round trips |
| `ivy.dfy`, `cluster.dfy`, `region.dfy` | the nodes as objects that run the handlers on these texts, with calls that get lost |
| `programs.dfy` | what a program on the shared memory is, and how its accesses chain together |
| `pingpong.dfy`, `pdot.dfy`, `psort.dfy` | the three programs, as machines over the accesses they make |
| `stopping.dfy`, `psortends.dfy`, `pdotends.dfy` | whether the turn-taking workers can stop, and that the sort and the dot product can always be completed |
| `sorting.dfy`, `merging.dfy`, `shares.dfy` | bubble sort, multi-way merge, and how workers share elements |
| `division.dfy` | two facts about quotients |

The protocol is modelled twice. In the step machine (`PageProtocol`) a run is any sequence of enabled
steps: `Enabled` says when a step can be taken and `Do` what it changes; a wait for a lock or for an
answer is a step that is not enabled. The page copies are made in chunks of any size, so that
applications and handlers can interleave between any two words. In the objects (`IvyNodes`,
`IvyCluster`, `IvyApplications`) one fault runs from start to end, on maps that the methods update in
place, on hex and decimal text, and with a list that says which remote calls are lost; what a whole
fault does to the maps is proved to be the atomic step of `AtomicFaults`, which in turn is one of the
runs of the step machine.

The programs are machines as well: `Next` says which load or store each thread makes next and what
it does with the value, `Follow` runs a sequence of accesses. The theorems quantify over all
interleavings (`Follow(...).Some?`) of accesses that a run of the protocol produced. Each field of a
shared header is a cell of its own, as the source's fields are different objects; 64-bit wrap-around
is explicit.

## Hypotheses

These are part of the statements, because the code depends on them.

* The manager is node 0. The code calls node 0 and compares owners with 0 (src/libivy/libivy.cc:394,
  467, 609, 651).
* Each node has one application thread, which is blocked while its fault is handled, and which is in
  the fault handler of at most one page (`SharedRegion.Elsewhere`).
* A remote call either runs its handler and returns the result, or fails without effect.
* An invalidation answers "ok". src/libivy/libivy.cc:489 drops the error of a failed one;
  `LostInvalidations.LostInvalidationHarmsIff` says exactly when an application can then see a stale
  value, and `Races.LostInvalidationGoesUnnoticed` is a run in which it does.
* While node 0 has a reply it has not installed yet, no service starts unless both the reply and the
  request are for reading (`PageProtocol.Guard`). Node 0 holds no page lock in its own fault handler
  (src/libivy/libivy.cc:516, 604-628). The hypothesis holds by itself when node 0 only serves, as in
  pdot; in psort and pingpong node 0 runs a thread too, and the theorems about them are about runs
  that respect it. `NodeZero.UnguardedStartHarmsIff` proves that for a reply not touched yet it rules
  out just the starts after which an application can see a stale value.
* This hypothesis and the one on invalidations are more than is needed, and `careful.dfy` says what is:
  it is enough that no step of the run is harmful (`CarefulRuns.HarmfulStep`). Such runs see one flat
  memory too, and have the same histories, so that what is proved of the programs holds in them
  (`CarefulRuns.CarefulHistoriesExactly`); `NodeZero.FirstHarmIff` proves that a harmful step is
  just one after which an application can see a stale value.
* Where a statement has a parameter `strict`, it holds for both values; `true` adds that no fetch
  made for a writer fails. Only `SingleWriter` and `RecordIsComplete` need it, and
  `OnlyBlockedWritersKeepCopies`, `RetriesAreHarmless` and `FailedFetchLeavesACopy` say what is left
  without it.

## Where the code does not do what one would expect

* The overview calls the ownership model fixed; in the code the owner changes with every write fault
  of another node (src/libivy/libivy.cc:492). The model follows the code.
* "Single writer or many readers" is false as a plain statement: a reader's handler opens its page
  read-write while it copies the reply in (src/libivy/libivy.cc:626), while the owner has a copy;
  `Races.ReaderOpensItsPage` is such a run. `SingleWriter` proves that it holds outside that window,
  and that it fails inside it for every reader that is not the owner, unless a write service has
  already taken the owner's copy.
* Flat memory is false of the code when node 0 faults while other nodes do. Its fault handler installs
  a reply without a lock, so a service can start in between (src/libivy/libivy.cc:516, 604-628,
  633-689); the window is wide, because the retry loops sleep a second after the manager's lock is
  given back and before node 0 sees the reply (src/libivy/libivy.cc:778, 814), and psort and pingpong
  run a thread on node 0. `Races.NodeZeroLosesAStore` is a run in which a store is lost;
  `NodeZero.UnguardedStartHarmsIff` is the exact condition for one start, `NodeZero.FirstHarmIff` for
  any step of any run.
* Even with only readers node 0 can be left behind: a fetch for another reader write-protects a page
  that node 0 owns while node 0 copies its own reply into it (src/libivy/libivy.cc:347, 626-627). The
  copy then faults inside the handler, with that signal blocked (src/libivy/libivy.cc:270-279). POSIX
  leaves this undefined, and Linux ends the process; as node 0 is the manager, its services end with
  it. The model has a thread that goes no further instead, while everybody else's steps go on: no load
  is wrong (`CarefulRuns.CarefulRunsAreFlat`), and node 0's fault never ends (`NodeZero.ZeroGetsStuck`,
  `NodeZero.ZeroFinishesIff`), but results that say what can still happen, such as
  `LoneFaults.LoneFaultEnds` and `ServiceProgress.ServiceCompletesIff`, do not describe the code any
  more once a fetch has closed a page under node 0's copy.
* Two nodes that upgrade the same page can block each other for good without any failure
  (`Races.DeadlockIsReachable`). `ServiceProgress.ServiceCompletesIff` gives the exact condition.
* If K does not divide the number of elements, psort loses the elements behind the last window and
  pdot their products; `Psort.PsortOnIvy` and `Pdot.PdotOnIvy` give the exact conditions, and
  `Pdot.ShortVectorsAreLost` is an input with a wrong answer.
* Pingpong can hang: a slow worker sees the counter at the bound and stops although it is its turn, and
  a worker that is waiting behind it waits for good (src/workloads/pingpong/pingpong.cc:61-64).
  `PingpongStops.WholeProgramStopsIff` proves that the workers can stop from every state the program
  gets into if and only if there is one worker. With two it takes a worker that passes its turn test
  before the manager has stored 1 (`PingpongStops.TwoCanHang`); if the manager's store comes first,
  two are safe and three are not (`PingpongStops.CanAlwaysStopIff`).
* A pingpong worker that passes its turn test before the manager has stored 1 can lose that store
  (`Pingpong.EarlyWorkerLosesAnIncrement`). `Pingpong.PromisedIff` gives the exact condition at the
  moment of the store: it has wiped out no increment, and nobody is between the turn test and the
  increment but the worker whose turn comes with 1, with no other value loaded.

## Model

| member | source | states |
|---|---|---|
| `Coherence.InitInv` | src/libivy/libivy.cc:138-157 | a freshly mapped region, closed everywhere and owned by node 0, satisfies the invariant |
| `Coherence.StepKeeps` | src/libivy/libivy.cc:331-743 | every step of every handler, failed calls and fetches included, keeps the invariant; only a store changes the current contents of the page, and only in its word |
| `Coherence.RunKeeps` | src/libivy/libivy.cc:331-743 | so does every run |
| `SharedRegion.MoveRefines` | src/libivy/libivy.cc:366-506 | one step on one page of the region is no access, a load of the current value, or a store to flat memory |
| `SharedRegion.RefinesFlatMemory` | src/libivy/libivy.cc:331-583 | in every run, from any coherent region, each load returns the value of the latest store to that word, and the contents are what the stores made them |
| `SharedRegion.LoadsSeeLatestStores` | src/libivy/libivy.cc:138-157 | the same from the freshly mapped region, which reads as zeros |
| `SharedRegion.PageSeesItsOwnRun` | src/libivy/libivy.cc:366-371 | seen from one page, a run of the region is a run of that page alone |
| `SharedRegion.PagesCommute` | src/libivy/libivy.cc:425-431 | steps on different pages, not both of one application thread, commute, and neither disables the other |
| `PageGuarantees.SingleWriter` | src/libivy/libivy.cc:425-506 | while a node has the page writable no other node has any access, unless it is a reader copying its reply in; a copy beside such a reader does exist if it is not the owner and no write service has its reply yet; a reader that is the owner is node 0, with no write service going on and copies only at recorded readers |
| `Races.ReaderOpensItsPage` | src/libivy/libivy.cc:625-628 | a run without any failure reaches a state with one node's page writable and another node holding a copy |
| `PageGuarantees.OnlyBlockedWritersKeepCopies` | src/libivy/libivy.cc:475-483 | with failed write fetches, a copy beside a writer is only at a node blocked in its own write fault |
| `PageGuarantees.RetriesAreHarmless` | src/libivy/libivy.cc:811-818 | every node with access is in the copyset, is the owner, or is blocked in its own write fault; a running thread with access reads current contents |
| `PageGuarantees.RecordIsComplete` | src/libivy/ivypagetbl.hh:26-40 | with the manager's lock free, access and grants in flight are only at the owner and the copyset, and every copy and reply is current |
| `PageGuarantees.RequesterIsNotCalled` | src/libivy/libivy.cc:454-476 | a requester is neither fetched from nor invalidated while it is being served |
| `PageGuarantees.EmptyReplyIsSound` | src/libivy/libivy.cc:472-473 | the reply is empty exactly for a writer that is a recorded owner other than node 0, whose memory is current; any other reply is the current page |
| `PageGuarantees.ContentsHaveOnePlace` | src/libivy/libivy.cc:467-492 | a write reply is only on its way to the recorded owner; the current contents are in the owner's memory, in that reply, or in the copied part of one and the rest of the other |
| `PageGuarantees.FetchIsASnapshot` | src/libivy/libivy.cc:337-361 | whatever runs while the owner's page is copied out, the page sent is the owner's page as it was when it stopped being writable |
| `PageGuarantees.LostInvalidationExactly` | src/libivy/libivy.cc:489 | ignoring a failed invalidation keeps the invariant if and only if none of the skipped nodes has or awaits a copy, other than one a failed write fetch may have left |
| `LostInvalidations.LostInvalidationHarmsIff` | src/libivy/libivy.cc:489 | after ignoring it, a run exists in which a load does not return the latest store if and only if a skipped node awaits a copy, or has one and is not blocked in its own write fault |
| `ServiceProgress.StuckForever` | src/libivy/libivy.cc:556-564 | if a node the manager must still lock waits for the manager with that lock held, no failure-free run ever ends the service |
| `ServiceProgress.EveryRunCounts` | src/libivy/libivy.cc:692-715 | in every run within one service without a failed fetch, whatever else is interleaved, the calls made and the calls left add up to the calls left at its start |
| `ServiceProgress.ServiceCompletesIff` | src/libivy/libivy.cc:692-715 | a service can be completed without failure if and only if there is no such node; every run of it makes at most the calls left, exactly these if it ends, and from its beginning they are at most 1 + the size of the copyset |
| `ServiceProgress.LoneFaultCompletes` | src/libivy/libivy.cc:508-547 | with one outstanding fault there is no such node |
| `LoneFaults.LoneFaultEnds` | src/libivy/libivy.cc:366-506 | with one outstanding fault, every run of the service, in any order of steps, is bounded in its steps other than the applications' loads and stores, has an enabled one of these steps until the requester is answered, and makes at most 1 + the size of the copyset calls |
| `AtomicFaults.UndisturbedFault` | src/libivy/libivy.cc:508-583 | a whole fault of any node, node 0 included, taken alone, is a run of the step machine and amounts to one atomic step that keeps the invariant and the contents |
| `FaultRetries.FaultKeepsItsKind` | src/libivy/libivy.cc:515-581 | in every run, whatever fails and whatever others do, a fault is requested, retried, served and installed as the kind it was raised as, until its thread raises another; on any node but 0, when all that is left is to give the lock back, the node has the access it asked for |
| `FaultRetries.FaultWithRetries` | src/libivy/libivy.cc:508-583 | a fault of any node, with any number of failed calls and fetches but no other fault or access: whenever its thread runs again the state is the atomic step's; between two tries nothing has changed but the requester's entry in the copyset, and that exactly if a fetch has failed; only calls to another node fail |
| `Histories.HistoriesExactly` | src/libivy/libivy.cc:235-268 | applications on n nodes can see a sequence of loads and stores on the protocol if and only if it is a legal history of one flat memory of zeros |
| `Races.GuardIsNeeded` | src/libivy/libivy.cc:604-628 | if a service for a reader starts before node 0 has installed a write grant, the reader can be sent node 0's old memory |
| `NodeZero.UnguardedStartHarmsIff` | src/libivy/libivy.cc:604-689 | after a service starts with a reply of node 0 not installed, a run exists in which a load does not return the latest store if and only if: the reply is untouched and it or the request is for writing; or it is a half copied page for writing that node 0's memory still differs from; or the reply is for reading, the request for writing, and node 0 can still finish its copy |
| `NodeZero.FirstHarmIff` | src/libivy/libivy.cc:331-743 | after any run of a page without a harmful step, whatever the next step is, it makes a load that does not return the latest store possible if and only if it is harmful: a start as above, or ignoring a failed invalidation while a skipped node will get to read its copy |
| `CarefulRuns.CarefulRunsAreFlat` | src/libivy/libivy.cc:331-743 | in every run of the region without a harmful step, other unguarded starts and lost invalidations included, each load returns the latest store, and the contents are what the stores made them |
| `CarefulRuns.CarefulHistoriesExactly` | src/libivy/libivy.cc:235-268 | these runs show the same histories of loads and stores as the runs under the hypotheses |
| `NodeZero.ZeroGetsStuck` | src/libivy/libivy.cc:347-357 | a run without failures and with guarded starts closes a page that node 0 owns while node 0 copies a read reply into it |
| `NodeZero.StuckForGood` | src/libivy/libivy.cc:626-627 | from there node 0's thread takes no step in any run; in the code its process may end here, see above |
| `NodeZero.ZeroFinishesIff` | src/libivy/libivy.cc:604-689 | once node 0 has its answer, a run in which its fault ends exists if and only if it has not been closed under its copy like this |
| `Races.NodeZeroLosesAStore` | src/libivy/libivy.cc:633-689 | without the hypothesis on node 0 there is a run whose loads and stores are not those of a flat memory |
| `Races.LostInvalidationGoesUnnoticed` | src/libivy/libivy.cc:489 | after one failed invalidation there is a run whose loads and stores are not those of a flat memory |
| `Races.FailedFetchLeavesACopy` | src/libivy/libivy.cc:456-483 | after a failed write fetch a node can have read access beside a running writer |
| `Races.DeadlockIsReachable` | src/libivy/libivy.cc:549-564 | two crossed upgrades reach a state from which, if nothing fails, neither ever gets its answer |
| `NumberText.StoulOfDigits` | src/libivy/libivy.cc:766-770 | a string of digits parses to the number it denotes, or is out of range |
| `NumberText.StoulOfText` | src/libivy/libivy.cc:766-770 | white space and a '+' in front of the digits and anything behind them do not matter; a '-' subtracts from 2^64; out of range is decided by the digits alone |
| `NumberText.ToStringAt` | src/libivy/libivy.cc:595-601 | the k-th character from the right of a printed number is its digit for 10^k |
| `NumberText.StoulOfToString` | src/libivy/libivy.cc:595-601 | parsing a printed 64-bit number gives the number |
| `NumberText.ToStringOfStoul` | src/libivy/libivy.cc:595-601 | printing the parse of a digit string without leading zero gives the string |
| `PageText.ToHex` | src/libivy/common.hh:67-81 | the loop prints the first `len` bytes as two upper-case hex digits each |
| `PageText.FromHex` | src/libivy/common.hh:83-94 | the loop fills the first half of a buffer as long as the text with the byte of each pair, or fails with the error of the first pair that does not parse |
| `PageText.PairIsRead` | src/libivy/common.hh:86-90 | a pair that begins with a hex digit of either case is the number of both characters, or of the first alone if the second is no digit or is missing |
| `PageText.BadPairFails` | src/libivy/common.hh:86-90 | a text whose first character is no digit, sign or white space is refused as invalid |
| `PageText.BytesOfHexText` | src/libivy/common.hh:67-94 | decoding the text of any bytes gives the bytes |
| `PageText.HexTextOfBytes` | src/libivy/common.hh:67-94 | every even-length upper-case hex text decodes, and encoding the result gives the text |
| `PageText.PageTextRoundTrip` | src/libivy/libivy.cc:745-756 | a page of words comes back from its text |
| `PageText.PageTextAt` | src/libivy/libivy.cc:745-756 | in that text the words lie one after the other and each word's bytes lowest first: the characters at 16j + 2k and behind it are the two upper-case hex digits of byte k of word j, and are read as that byte |
| `RequestText.PageAlign` | src/libivy/common.hh:38-44 | the multiple of 4096 at or just below the address |
| `RequestText.RequestRoundTrip` | src/libivy/libivy.cc:595-611 | parsing a printed "addr:node" request gives the aligned address and the node, for all 64-bit values |
| `RequestText.RequestNamesThePage` | src/libivy/libivy.cc:595-601 | all addresses of a page are sent as the same text; its first number is a multiple of 4096 at or just below the address, its second one the node |
| `RequestText.RequestOfText` | src/libivy/libivy.cc:758-770 | printing what a text "address:node" without superfluous digits and with an aligned address parses to gives the text |
| `RequestText.RequestWithoutColon` | src/libivy/libivy.cc:758-770 | digits without a ':' are read as the address and, without the last digit, as the node; a single digit is refused |
| `RequestText.FetchOfText` | src/libivy/libivy.cc:168-194 | a text "address:rd" parses to a fetch that leaves read-only access, "address:none" to one that leaves none, and printing that fetch gives the text |
| `RequestText.InvalidationOfText` | src/libivy/libivy.cc:700-723 | printing what an aligned address parses to gives its text |
| `RequestText.FetchRoundTrip` | src/libivy/libivy.cc:168-194 | parsing a printed "addr:rd" or "addr:none" gives address and access |
| `RequestText.InvalidationRoundTrip` | src/libivy/libivy.cc:700-723 | parsing a printed invalidation gives the page's address |
| `IvyNodes.IvyPageTable.Insert` | src/libivy/libivy.cc:387 | the reader joins the page's copyset; owner and other pages stay |
| `IvyNodes.IvyPageTable.Erase` | src/libivy/libivy.cc:456 | the writer leaves the page's copyset; owner and other pages stay |
| `IvyNodes.IvyPageTable.SetOwner` | src/libivy/libivy.cc:491-492 | the copyset is emptied and the writer recorded as owner |
| `IvyNodes.Ivy.ReadPage` | src/libivy/libivy.cc:745-756 | the text of the node's page (see `PageText.PageTextAt`), which must be open to be read |
| `IvyNodes.Ivy.FetchPg` | src/libivy/libivy.cc:331-364 | sends the node's page and leaves it with the access asked for, the lock given back |
| `IvyNodes.Ivy.FetchPgAdapter` | src/libivy/libivy.cc:168-194 | does so for the parsed request, or fails on it without effect |
| `IvyNodes.Ivy.InvalidateAdapter` | src/libivy/libivy.cc:717-743 | closes the parsed page and answers ok, or fails on the text without effect |
| `IvyNodes.Ivy.InstallRead` | src/libivy/libivy.cc:623-628 | the page's text becomes the node's memory, left read-only |
| `IvyNodes.Ivy.InstallWrite` | src/libivy/libivy.cc:664-686 | the page is opened; its memory becomes the page of a full reply and stays for an empty one |
| `IvyCluster.Cluster.SendInvalidations` | src/libivy/libivy.cc:692-715 | every listed node, and no other, loses its access to the page |
| `IvyCluster.Cluster.ServRdRq` | src/libivy/libivy.cc:366-423 | the reader is recorded and sent the owner's page, the owner is left read-only, all locks are given back; a lost fetch changes only the copyset |
| `IvyCluster.Cluster.ServWrRq` | src/libivy/libivy.cc:425-506 | owner and readers lose access, the writer becomes owner and is sent the page unless it owned it, all locks are given back; a lost fetch only erases the writer from the copyset |
| `IvyCluster.Cluster.ServeReadUntilDone` | src/libivy/libivy.cc:772-784 | the retry loop ends, and has the effect of the one service that went through |
| `IvyCluster.Cluster.ServeWriteUntilDone` | src/libivy/libivy.cc:808-821 | the retry loop ends, and has the effect of one service, although each lost try had erased the writer |
| `IvyCluster.Cluster.ServRdRqAdapter` | src/libivy/libivy.cc:758-785 | the printed request of any node is parsed back and served |
| `IvyCluster.Cluster.ServWrRqAdapter` | src/libivy/libivy.cc:787-822 | the printed request of any node is parsed back and served |
| `IvyCluster.Cluster.GetRdPageFromMngr` | src/libivy/libivy.cc:594-631 | the reader ends with the owner's page, read-only like the owner; a lost request changes nothing |
| `IvyCluster.Cluster.GetWrPageFromMngr` | src/libivy/libivy.cc:633-689 | the writer ends as owner with the page writable and current, everyone else closed; a lost request changes nothing |
| `IvyCluster.Cluster.FaultHandler` | src/libivy/libivy.cc:508-583 | whatever is lost on the way, the handler ends, the faulting page has taken the atomic step, every other page is as it was, and no lock is held; each lost request and fetch, and no other call, is made again |
| `IvyCluster.Cluster.AppLoad` | src/libivy/libivy.cc:235-268 | a load returns the current value and changes no page's contents; if the page was closed to the node it has taken the atomic read fault, and otherwise it and all other pages are exactly as they were |
| `IvyCluster.Cluster.AppStore` | src/libivy/libivy.cc:235-268 | a store changes exactly its word of its page's contents; the page is as it was, or if it was not writable as the atomic write fault leaves it, with the word set in the node's copy, and all other pages are exactly as they were |
| `IvyCluster.WriteView` | src/libivy/libivy.cc:633-689 | the maps after a write fault are, page by page, the atomic write step |
| `IvyCluster.ReadView` | src/libivy/libivy.cc:594-631 | the maps after a read fault are, page by page, the atomic read step |
| `IvyApplications.Region.Perform` | src/libivy/libivy.cc:235-268 | any sequence of loads and stores of any nodes, with any remote calls lost, sees one flat memory, and leaves the access, copies, owner and copyset of every page as the sequence of atomic faults and stores does |
| `Pingpong.NextKeeps` | src/workloads/pingpong/pingpong.cc:61-70 | every access keeps the counter equal to one plus the increments done; a store comes only from the worker whose turn it is, and adds one |
| `Pingpong.TakesTurns` | src/workloads/pingpong/pingpong.cc:56-74 | so does every run of W workers over flat memory: the counter stays at most ITERATIONS + W - 1, and each store comes in turn and adds one |
| `Pingpong.PromisedIff` | src/workloads/pingpong/pingpong.cc:56-74 | from the manager's store on, all that holds in every continuation if and only if the store has wiped out no increment and nobody is past the turn test but the worker whose turn comes with 1, with no other value loaded |
| `Pingpong.CounterOnIvy` | src/workloads/pingpong/pingpong.cc:61-74 | under that condition, in every run on the coherence protocol: turns, no lost increment, and the bound |
| `Pingpong.WholeProgramOnIvy` | src/workloads/pingpong/pingpong.cc:47-74 | the same for the whole program from the freshly mapped region, with any accesses of workers before the manager's store |
| `Pingpong.EarlyWorkerLosesAnIncrement` | src/workloads/pingpong/pingpong.cc:56-64 | an input on which the condition fails: a worker past its turn test on the initial 0 wipes the manager's store out |
| `PingpongStops.OneOrTwoCanAlwaysStop` | src/workloads/pingpong/pingpong.cc:61-74 | after a manager's store that finds one or two workers in turn and nobody stopped, a continuation in which all stop exists from every state they get into |
| `PingpongStops.StoppedSawTheBound` | src/workloads/pingpong/pingpong.cc:61 | in every run of any number of workers, the last access of a worker that has stopped is a load of the counter at ITERATIONS or above |
| `PingpongStops.StopsAtTheBound` | src/workloads/pingpong/pingpong.cc:61-70 | among workers in turn, once one has stopped the counter stays between ITERATIONS and ITERATIONS + W - 1 |
| `PingpongStops.HungForever` | src/workloads/pingpong/pingpong.cc:61-64 | once the counter is past the bound and the worker whose turn it is has stopped, a waiting worker waits in every continuation |
| `PingpongStops.ThreeCanHang` | src/workloads/pingpong/pingpong.cc:61-74 | for every W >= 3 there is a run into such a state |
| `PingpongStops.CanAlwaysStopIff` | src/workloads/pingpong/pingpong.cc:61-74 | if the manager's store comes before any access of a worker, W workers can stop from every state they get into if and only if W is at most 2 |
| `PingpongStops.LoneStops` | src/workloads/pingpong/pingpong.cc:61-74 | a lone worker can stop from any state, whatever the counter |
| `PingpongStops.TwoCanHang` | src/workloads/pingpong/pingpong.cc:56-74 | if worker 1 has passed its turn test before the manager's store, two workers have a run after which they cannot both stop |
| `PingpongStops.WholeProgramStopsIff` | src/workloads/pingpong/pingpong.cc:47-74 | in the whole program on the protocol, with any accesses of workers before the manager's store, the workers can stop from every state they get into if and only if there is one worker |
| `Shares.SharesFit` | src/workloads/psort/psort.cpp:86-99 | K windows of n / K elements cover everything but the remainder |
| `Shares.WindowInside` | src/workloads/pdot/pdot.cc:94-98 | each worker's window ends where the next begins, inside the data |
| `Sorting.SweepCarriesMaximum` | src/workloads/psort/psort.cpp:108-114 | during a pass the largest element so far is right before the next comparison, and what was settled stays |
| `Sorting.PassesSettle` | src/workloads/psort/psort.cpp:107-115 | after n full passes the last n elements are in place, and the elements are the same |
| `Sorting.BubbleSortSorts` | src/workloads/psort/psort.cpp:107-115 | as many passes as elements sort the window |
| `Sorting.SortWindow` | src/workloads/psort/psort.cpp:98-115 | the nested loops sort the window in place, a permutation, and touch nothing outside it |
| `Merging.SmallestHead` | src/workloads/psort/psort.cpp:171-183 | the scan always finds a window, the head it returns is the smallest live one, even among words equal to the largest one |
| `Merging.EmitKeeps` | src/workloads/psort/psort.cpp:168-188 | emitting the smallest head keeps the output sorted, below everything left, and made of exactly what was taken |
| `Merging.MergeWindows` | src/workloads/psort/psort.cpp:143-189 | the merge of K sorted windows ends and emits a sorted permutation of all the windows' elements |
| `Psort.AccessKeeps` | src/workloads/psort/psort.cpp:107-115 | each single load or store of a worker leads from one state of the sort of its original window to the next |
| `Psort.OwnCellsDisjoint` | src/workloads/psort/psort.cpp:94-99 | the cells different workers store to are disjoint, and are neither header fields others read nor the tail |
| `Psort.BossKeeps` | src/workloads/psort/psort.cpp:143-284 | every access of the coordinator keeps the invariant: what is published, which workers are known done, what is merged |
| `Psort.WorkerKeeps` | src/workloads/psort/psort.cpp:74-141 | every access of a worker keeps it too |
| `Psort.RunKeeps` | src/workloads/psort/psort.cpp:74-284 | so does every run over flat memory |
| `Psort.PsortOnIvy` | src/workloads/psort/psort.cpp:317-323 | in every run on the coherence protocol the merge starts only after all workers are done, the data then is one array that does not depend on the interleaving, and the output is sorted and a permutation of the input if and only if K divides its length |
| `PsortEnds.FinishWorker` | src/workloads/psort/psort.cpp:74-141 | once the data is published, any worker can run to its end alone, and only its own state changes |
| `PsortEnds.CanAlwaysFinish` | src/workloads/psort/psort.cpp:74-284 | over flat memory, no run of the sort is a dead end: every one can be continued until the merge has its output |
| `PsortEnds.CanAlwaysFinishOnIvy` | src/workloads/psort/psort.cpp:317-323 | the history of every protocol run that shows the sort can be continued, in a run of the protocol, to the output |
| `Pdot.MultWorker` | src/workloads/pdot/pdot.cc:94-115 | the worker's loop computes its part of the dot product modulo 2^64 |
| `Pdot.MergeWorker` | src/workloads/pdot/pdot.cc:144-154 | the coordinator's loop adds up the published parts modulo 2^64 |
| `Pdot.DotSwaps` | src/workloads/pdot/pdot.cc:112-115 | the dot product is the same when the two vectors are swapped |
| `Pdot.DotAdds` | src/workloads/pdot/pdot.cc:112-115 | it is additive in the first vector |
| `Pdot.DotOfUnit` | src/workloads/pdot/pdot.cc:112-115 | with the i-th unit vector it is entry i of the other, if the range holds i |
| `Pdot.WrapTakesMultiples` | src/workloads/pdot/pdot.cc:112-115 | what wrapping around takes away from a sum is a multiple of 2^64 |
| `Pdot.DotSplits` | src/workloads/pdot/pdot.cc:112-115 | the dot product of adjacent ranges is the sum of theirs |
| `Pdot.BossKeeps` | src/workloads/pdot/pdot.cc:190-240 | every access of the coordinator keeps the invariant: its scan of the done flags is not atomic, but a flag once seen stays |
| `Pdot.WorkerKeeps` | src/workloads/pdot/pdot.cc:86-142 | every access of a worker keeps it too |
| `Pdot.RunKeeps` | src/workloads/pdot/pdot.cc:86-240 | so does every run over flat memory |
| `Pdot.AnswerIsDot` | src/workloads/pdot/pdot.cc:144-154 | the answer is the full dot product modulo 2^64 if and only if the products behind the last window add up to a multiple of 2^64 |
| `Pdot.EvenSharesCoverAll` | src/workloads/pdot/pdot.cc:94-98 | in particular if K divides the length of the vectors |
| `Pdot.PdotOnIvy` | src/workloads/pdot/pdot.cc:211-240 | in every run on the coherence protocol the coordinator adds up only after every part is published, and its answer is the dot product if and only if the products behind the last window add up to a multiple of 2^64, so always if K divides the length, and then it is the exact sum if that is below 2^64 |
| `Pdot.ShortVectorsAreLost` | src/workloads/pdot/pdot.cc:94-98 | an input with a wrong answer: with two workers and vectors of one entry no product is added |
| `PdotEnds.CanAlwaysFinish` | src/workloads/pdot/pdot.cc:86-240 | over flat memory, no run of the program is a dead end: every one can be continued to the answer |
| `PdotEnds.CanAlwaysFinishOnIvy` | src/workloads/pdot/pdot.cc:211-240 | the history of every protocol run that shows the program can be continued, in a run of the protocol, to the answer |

## Left out

- The HTTP server and clients of src/libivy/rpcserver.cc: a remote call is a step, or a call of the handler, that may fail without effect.
- Calls whose handler runs late or twice after a timeout: the code does not keep its guarantees then.
- mmap, mprotect, sigaction, register inspection and the reader of /proc/self/maps: a fault is raised exactly when the access is insufficient.
- The JSON configuration, the constructor and callback registration: the initial state is taken directly.
- Several application threads in one node: excluded by the hypotheses above.
- A service that overlaps the installation of a reply on node 0, in the invariant `Coherence.Inv` and in the objects: `careful.dfy` and `nodezero.dfy` cover it.
- The `access` field of the page table's entries: the code writes it and never reads it.
- The manager's info locks in the step machine: they are taken and given back only under the page lock of the same page. The objects model them.
- Global freedom from deadlock: false, see above.
- Fairness: nothing says that a service that can be completed will be.
- Sleeps, logging and the loads made only to log a value, the dump functions, the canary, `ca_va`, `drop_shm`.
- The repeated loads of `header.elems` in the merge: the coordinator loads it once, as nobody stores to it any more.
- The bytes of the header's flags: two flags in one word are two cells, so a store to one does not touch the other.
- Input files whose first number is not the number of numbers that follow.
- The latency benchmarks, the analysis scripts and the build files: nothing in them to prove.
