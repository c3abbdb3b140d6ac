# Operating-systems labs: a verified model

The repository is a set of operating-systems labs in C. This project models the
parts of it whose correctness is not evident from one function, and proves what
they are for, for every input, every run and any number of threads.

| module | source | what is modelled |
|---|---|---|
| `EventMonitor`, `MonitorHandover` | `sem_05/lab_03/reader-writer_win/main.c` | a reader/writer monitor built by hand from two auto-reset events, three counters and a mutex |
| `BakeryServer` | `sem_05/rpc/bakery_2/bakery_server.c` | a ticket server with a lock-free scan over the slots |
| `TicketDispenser` | `sem_05/rpc/compile/0` | a ticket server with two counters |
| `TicketQueue` | both | the abstract FIFO ticket queue that both refine |
| `Semaphores` | all semaphore labs | `semop` as an all-or-nothing fold over the operation array |
| `RingServer`, `RingHistory` | `lab_sockets/lab_03/lab_03/server_1.c` | the threaded bounded buffer |
| `LinearBuffer`, `BufferSections` | `sem_05/lab_03/producer-consumer/main.c` | the same protocol over a page that never wraps |
| `BoundedQueue`, `PollingServers` | `lab_sockets/lab_03/lab_03/server_2.c`, `lab_sockets/lab_03/multiplex/server.c` | the two non-blocking bounded buffers |
| `RwLock`, `LetterTable`, `LetterHistory`, `SharedLetter` | `lab_sockets/lab_03/mt/server.c`, `sem_05/lab_03/reader-writer/main.c` | two semaphore encodings of one readers/writers lock and the programs on top of them |
| `FileTree`, `Traversal`, `WalkOrder`, `DirectoryWalk` | `lab_fs/main.c` | two walks of a directory tree, by full path and by changing directory |
| `CookiePot` | `lab_module/task_03/fortune.c` | a message store in a byte array with two indices |
| `MapLines`, `MapScanner`, `PagemapFile` | `lab_proc/main.c` | the scanner of memory-map lines, the page loop and the pagemap reader |
| `Tally`, `Alphabet`, `CStrings`, `Options` | | sums over the threads, the letters that are written in turn, NUL-terminated strings in a buffer, a value that may be missing |

## How it is built

A concurrent program is a class with the shared variables of the source and one
program counter per thread. A method is a function of the source, or a part of
one, and makes the one atomic step at which a thread stands: one load, one store
or one system call. An unlocked `x++` is a load and a store. The contract of each
such method says that the new state is `Next` of the old one, a pure function.
The lemmas are about `Next` and about `Exec`, which runs an arbitrary schedule
over an arbitrary number of threads. `Run` is the scheduler loop; it is proved
equal to `Exec` and to keep the invariant.

What a program does is also said without `Next` and the other specification
functions: `MonitorHandover` follows one thread of the monitor through a run,
`LetterHistory` and `RingHistory` watch the requests and answers of one thread,
`BufferSections`, `SharedLetter.SectionEnds`, `BakeryServer.EveryTicketIsStored`
and the last part of `TicketDispenser` follow one call to its end, and
`WalkOrder` says which calls a walk has to make by the routes through the tree.

The sequential programs are classes over arrays (the path buffer, the cookie
pot, the map buffer) whose methods are proved against a specification on
sequences, trees and lists, with the properties proved about the specification.

What each part assumes is in its `requires` clauses: accesses to single words
are sequentially consistent; each client of the slot-scan server has its own
slot, calls RESULT after REGISTER has returned and registers again only after
RESULT has returned; a client of the two-counter server polls only with its own
ticket; the directory tree does not change, readable directories can be
searched, paths fit the buffer and entry names are non-empty, distinct and free
of slashes; map lines are well formed, reads end with
a line, and ranges are page-aligned.

## What was found

- The test in `lab_module/task_03/fortune.c:53` lets through two kinds of request
  that store outside the pot: one byte more than the room left
  (`CookiePot.FullPotIsOverrun`), and nothing at all while the pot is empty
  (`CookiePot.EmptyPotIsUnderrun`). `CookiePot.AcceptedStores` shows that there are
  no others.
- A message that, with its newline, fills the page comes back with a NUL in
  place of the newline (`CookiePot.WrittenLineReadsBack`).
- The relative walk of `lab_fs/main.c` ends in the parent of the start directory.
  That is the working directory it began in if and only if the argument spells
  an entry of it, as `x` and `./x` do, or both are the root (`RestoredIff`).
  Otherwise, if the argument is relative, the two walks of `compare` start from
  elsewhere than the walk of `main`; they still agree with each other, but may
  find nothing (`NestedStartIsLost`). An absolute argument is the same from
  everywhere, and all three walks agree (`Program.WalkAndCompare`).
- The mutex in `sem_05/rpc/compile/0/bakery_server.c:19-22` is commented out; the
  handler is safe because its worker thread in `bakery_svc.c` holds `send_mutex`
  around it, and `TicketDispenser` relies on that.
- In both readers/writers encodings the two queue semaphores are zero between
  calls, because `semop` applies an array at once: waiting on them never blocks,
  and they give nobody precedence (`RwLock.CallEffect`).
- In the slot-scan server the tie-break on the slot number is never reached with
  effect (`BakeryServer.NoTies`).

## Model

| member | source | states |
|---|---|---|
| `EventMonitor.StepKeepsInv` | sem_05/lab_03/reader-writer_win/main.c:27-101 | every atomic step of every thread keeps the global invariant: one token, counters equal to the threads they count, letter and wrap count right, unlocked read-modify-writes undisturbed, a queued reader behind every signalled `can_read` |
| `EventMonitor.TokenKept` | sem_05/lab_03/reader-writer_win/main.c:27-61 | every step keeps the one token: an event is consumed by whoever goes in and set by whoever comes out |
| `EventMonitor.CountersKept` | sem_05/lab_03/reader-writer_win/main.c:28-56 | every step keeps the two queue counters, `active_readers` and the mutex equal to the numbers of threads at the places they stand for |
| `EventMonitor.SupplyKept` | sem_05/lab_03/reader-writer_win/main.c:53-60 | every step keeps a waiting reader behind a signalled `can_read`, and, without writers, some reader that can still take `can_write` |
| `EventMonitor.ExecKeepsInv` | sem_05/lab_03/reader-writer_win/main.c:27-101 | the invariant holds after every schedule of any number of readers and writers |
| `EventMonitor.MutualExclusion` | sem_05/lab_03/reader-writer_win/main.c:27-61 | in every run (`can_read` signalled) + (`can_write` signalled) + (threads inside) is 1; no two threads are inside together; `active_readers` is 0 or 1; a step of a thread outside changes neither it nor `symbol` nor `cnt` |
| `EventMonitor.LettersInOrder` | sem_05/lab_03/reader-writer_win/main.c:63-83 | the unlocked updates of `symbol` lose nothing: it is always the letter of the last completed write, in the cycle a..z, and there are never more than 79 writes |
| `EventMonitor.QueueHasReader` | sem_05/lab_03/reader-writer_win/main.c:53-57 | a writer that reads `read_queue > 0` and will signal `can_read` has a reader that really is still waiting to be let in |
| `EventMonitor.NoDeadlock` | sem_05/lab_03/reader-writer_win/main.c:27-101 | for every non-empty mix of readers and writers, no reachable state with `cnt < 3` leaves every thread unable to move |
| `EventMonitor.RankPaysForMoves` | sem_05/lab_03/reader-writer_win/main.c:27-101 | over any run, steps made plus the remaining ranks are at most the ranks at the start plus 16 for each entry: every step that is not an entry lowers a rank |
| `EventMonitor.ThreadsKeepEntering` | sem_05/lab_03/reader-writer_win/main.c:27-101 | a run of n threads that makes more than 4n + 16e steps has let threads in more than e times, whatever the schedule |
| `EventMonitor.ClosedForever` | sem_05/lab_03/reader-writer_win/main.c:65-83 | the writer that raises `cnt` to 3 keeps the token: after it nobody ever enters again, and once it has wrapped the letter the shared data never change again |
| `EventMonitor.Monitor.constructor` | sem_05/lab_03/reader-writer_win/main.c:9-20 | the initial globals and events with any numbers of readers and writers form an initial state |
| `EventMonitor.Monitor.StartReadQueue` | sem_05/lab_03/reader-writer_win/main.c:27-30 | each step of the queueing half of `start_read` is the transition of the state machine and nothing else |
| `EventMonitor.Monitor.StartReadEnter` | sem_05/lab_03/reader-writer_win/main.c:32-35 | the same for the half under `bmutex`, with the load and the store of `active_readers` apart |
| `EventMonitor.Monitor.StopRead` | sem_05/lab_03/reader-writer_win/main.c:38-43 | the same for `stop_read`, whose decrement is not locked |
| `EventMonitor.Monitor.StartWrite` | sem_05/lab_03/reader-writer_win/main.c:45-51 | the same for `start_write` |
| `EventMonitor.Monitor.StopWrite` | sem_05/lab_03/reader-writer_win/main.c:53-61 | the same for `stop_write` |
| `EventMonitor.Monitor.Reader` | sem_05/lab_03/reader-writer_win/main.c:90-101 | the same for the loop of `reader` |
| `EventMonitor.Monitor.Writer` | sem_05/lab_03/reader-writer_win/main.c:63-88 | the same for the loop of `writer`, with the loads and stores of `symbol` and `cnt` apart |
| `EventMonitor.Monitor.Run` | sem_05/lab_03/reader-writer_win/main.c:103-143 | an arbitrary scheduler over the shared fields ends in the state of the specification run and keeps the invariant |
| `MonitorHandover.WriterHandsOver` | sem_05/lab_03/reader-writer_win/main.c:53-61 | in every run, a writer that stands at the test of `read_queue` and makes its next two steps, whatever the others do before and between, has then signalled `can_read` if and only if `read_queue` was positive at the test, and `can_write` if and only if it was not |
| `MonitorHandover.ReaderHandsOver` | sem_05/lab_03/reader-writer_win/main.c:38-43 | in every run a reader in `stop_read` has, after its remaining steps, signalled `can_write` and not `can_read`, whatever the others do between |
| `MonitorHandover.CountedAlone` | sem_05/lab_03/reader-writer_win/main.c:32-43 | while a reader is inside, `active_readers` counts it alone and neither event is signalled |
| `MonitorHandover.ReaderGivesWay` | sem_05/lab_03/reader-writer_win/main.c:29-31 | a reader that finds a writer queued never takes `can_write`: until it is inside, however long that takes, it waits for `can_read` |
| `MonitorHandover.ReaderTries` | sem_05/lab_03/reader-writer_win/main.c:29-31 | a reader that finds none queued goes in with `can_write` if that is signalled at its next step, and otherwise waits for `can_read` until it is inside |
| `MonitorHandover.WriterGivesWay` | sem_05/lab_03/reader-writer_win/main.c:47-49 | a writer that finds a reader active never takes `can_read`: until it is inside it waits for `can_write` |
| `MonitorHandover.WriterTries` | sem_05/lab_03/reader-writer_win/main.c:47-49 | a writer that finds none active goes in with `can_read` if that is signalled at its next step, and otherwise waits for `can_write` until it is inside |
| `MonitorHandover.ReaderRound` | sem_05/lab_03/reader-writer_win/main.c:90-101 | from any shared state, a reader alone takes one event, leaves all counters as they were and sets `can_write`; with neither event it ends up queued and waiting |
| `MonitorHandover.WriterRound` | sem_05/lab_03/reader-writer_win/main.c:63-88 | from any shared state, a writer alone takes one event, writes the next letter, counts the wrap, and sets `can_read` exactly if a reader queues, `can_write` otherwise; the writer that counts the third wrap sets none |
| `MonitorHandover.LoopsEnd` | sem_05/lab_03/reader-writer_win/main.c:65-92 | both loops end once `cnt` is 3 |
| `BakeryServer.StepKeepsInv` | sem_05/rpc/bakery_2/bakery_server.c:17-56 | every single read or write of either handler keeps the invariant: the mutex, the issued and not yet served tickets, and what a scanner knows of the slots it has passed |
| `BakeryServer.ScansKept` | sem_05/rpc/bakery_2/bakery_server.c:45-48 | a slot once passed stays empty or above the ticket of the scanner, although `numbers[i]` is read three times per pass while others register and finish |
| `BakeryServer.OutstandingKept` | sem_05/rpc/bakery_2/bakery_server.c:25-53 | every step keeps the tickets issued and not yet served a gapless interval, each held by one client |
| `BakeryServer.OldestAtClear` | sem_05/rpc/bakery_2/bakery_server.c:45-53 | a client whose scan is over holds the ticket after the last one served |
| `BakeryServer.OneClientServed` | sem_05/rpc/bakery_2/bakery_server.c:34-56 | in every run at most one client is between the end of its scan and the clearing of its slot, and its ticket is the next to be served |
| `BakeryServer.ServedInOrder` | sem_05/rpc/bakery_2/bakery_server.c:17-53 | in every run the log of served tickets is 1, 2, .., k, and the tickets held are exactly k+1 .. `current_ticket`, each by one client, a ticket issued but not yet stored included |
| `BakeryServer.RefinesTicketQueue` | sem_05/rpc/bakery_2/bakery_server.c:17-56 | every step is a step of the abstract ticket queue or invisible to it: the store of `current_ticket` issues, the clearing of a slot serves the oldest |
| `BakeryServer.RunRefines` | sem_05/rpc/bakery_2/bakery_server.c:17-56 | every run is a run of the abstract ticket queue, which after each number of turns is in the state that the server then represents |
| `BakeryServer.OwnStepCounts` | sem_05/rpc/bakery_2/bakery_server.c:45-53 | the client with the oldest ticket is never held at a slot: each of its own steps lowers what it still needs |
| `BakeryServer.OtherStepHarmless` | sem_05/rpc/bakery_2/bakery_server.c:17-56 | no step of another client makes the oldest client need more |
| `BakeryServer.OldestIsServed` | sem_05/rpc/bakery_2/bakery_server.c:23-56 | whatever the schedule, the client with the oldest ticket is served within 5 slots + 7 turns of its own |
| `BakeryServer.TicketsStay` | sem_05/rpc/bakery_2/bakery_server.c:17-56 | in every run, whoever holds one of the tickets issued before it has held that ticket all the time |
| `BakeryServer.EveryTicketIsServed` | sem_05/rpc/bakery_2/bakery_server.c:17-56 | ticket v is served within as many rounds as there are tickets up to v still to serve, if its holder and the holders of older tickets get 5 slots + 7 turns in each; the others may do what they like |
| `BakeryServer.NoTies` | sem_05/rpc/bakery_2/bakery_server.c:47 | the third operand of the test (equal tickets, smaller slot) is never decisive: no two slots hold the same ticket |
| `BakeryServer.Server.constructor` | sem_05/rpc/bakery_2/bakery_server.c:13-15 | empty slots, counter zero and a free mutex form an initial state |
| `BakeryServer.Server.Register` | sem_05/rpc/bakery_2/bakery_server.c:17-32 | each step of `register_proc_1_svc` on the array and the counter is the transition of the state machine |
| `BakeryServer.Server.Result` | sem_05/rpc/bakery_2/bakery_server.c:34-56 | the same for `result_proc_1_svc` |
| `BakeryServer.Server.Run` | sem_05/rpc/bakery_2/bakery_server.c:17-56 | an arbitrary scheduler ends in the state of the specification run and keeps the invariant |
| `BakeryServer.EveryTicketIsStored` | sem_05/rpc/bakery_2/bakery_server.c:23-31 | a call of REGISTER gets the mutex exactly while no other call has it, and then, whatever the others do, the slot of its client holds the next ticket and the mutex is free after five more of its own turns |
| `TicketDispenser.StepKeepsInv` | sem_05/rpc/compile/0/bakery_server.c:13-46 | every step of the two handlers keeps the invariant: the waiting tickets are the interval between the two counters, each held once |
| `TicketDispenser.ServedInOrder` | sem_05/rpc/compile/0/bakery_server.c:13-46 | in every run the tickets are served as 0, 1, 2, .., each once, and the tickets held are exactly those from `client_number_service` up to `client_num` |
| `TicketDispenser.RefinesTicketQueue` | sem_05/rpc/compile/0/bakery_server.c:13-46 | the same abstract ticket queue as the scanning server: one store issues, the other serves the oldest, a poll with another ticket changes nothing |
| `TicketDispenser.RunRefines` | sem_05/rpc/compile/0/bakery_server.c:13-46 | the same for the two-counter server and the same abstract ticket queue |
| `TicketDispenser.PollIsAnswered` | sem_05/rpc/compile/0/bakery_server.c:33-43 | a poll with the number in `client_number_service`, once it is handled, is served after three steps of its own, whatever the others do |
| `TicketDispenser.PollBegins` | sem_05/rpc/compile/0/bakery_server.c:33-36 | a poll can begin exactly when no other is being handled, and it is served if and only if its number is the one in `client_number_service` |
| `TicketDispenser.EveryPollEnds` | sem_05/rpc/compile/0/bakery_server.c:27-46 | every poll that begins leaves the dispatch thread within four more of its own turns, whatever the others do: back with its number and nothing served if that is not the one to be served, served as one more otherwise |
| `TicketDispenser.EveryNumberIsGiven` | sem_05/rpc/compile/0/bakery_svc.c:41-46 | a call of GET_NUMBER gets `send_mutex` exactly while no other call has it, and then its client has the number of `client_num`, which is one more, and the mutex is free, after four more of its own turns |
| `TicketDispenser.LocksKept` | sem_05/rpc/compile/0/bakery_svc.c:41-46 | `send_mutex` is held by exactly the worker thread between lock and unlock, and one handler at a time runs on the dispatch thread |
| `TicketDispenser.Server.constructor` | sem_05/rpc/compile/0/bakery_server.c:9-10 | both counters zero and nobody calling form an initial state |
| `TicketDispenser.Server.GetNumber` | sem_05/rpc/compile/0/bakery_svc.c:29-52 | each step of the worker thread around `get_number_1_svc` is the transition of the state machine |
| `TicketDispenser.Server.BakeryProc` | sem_05/rpc/compile/0/bakery_server.c:27-46 | the same for `bakery_proc_1_svc` |
| `TicketDispenser.Server.Run` | sem_05/rpc/compile/0/bakery_server.c:13-46 | an arbitrary scheduler ends in the state of the specification run and keeps the invariant |
| `Semaphores.SemopAdds` | lab_sockets/lab_03/mt/server.c:27-42 | a completed call adds to every semaphore the sum of its operations on it and leaves none negative; any other outcome has no new values at all |
| `Semaphores.SemopWaits` | lab_sockets/lab_03/lab_03/server_2.c:22-25 | without `IPC_NOWAIT` a call never reports EAGAIN, with it on every operation it never sleeps |
| `RingServer.StepKeepsInv` | lab_sockets/lab_03/lab_03/server_1.c:53-110 | every step of every client thread keeps the invariant on semaphores, indices and ring |
| `RingServer.PutKept` | lab_sockets/lab_03/lab_03/server_1.c:63-78 | the store goes to a cell that holds no letter in flight |
| `RingServer.GetKept` | lab_sockets/lab_03/lab_03/server_1.c:85-99 | the load finds the oldest letter in flight |
| `RingServer.DeliveredInOrder` | lab_sockets/lab_03/lab_03/server_1.c:60-99 | in every interleaving the letters got are a prefix of the letters put, at most 26 are in flight and each is still in its cell; with nobody inside, `tail` and `head` are the put and got counts modulo 26 |
| `RingServer.SemaphoreBalance` | lab_sockets/lab_03/lab_03/server_1.c:25-28 | in every reachable state EMPTY + FULL + (threads inside) = 26 and MUTEX + (threads inside) = 1, so at most one thread is inside |
| `RingServer.NeverStuck` | lab_sockets/lab_03/lab_03/server_1.c:60-99 | a thread inside always goes on; with nobody inside a put can start if and only if fewer than 26 letters are in flight, a get if and only if some letter is |
| `RingServer.Server.constructor` | lab_sockets/lab_03/lab_03/server_1.c:152-154 | the semaphore values set up by `main` and an empty ring form an initial state |
| `RingServer.Server.ProcessClient` | lab_sockets/lab_03/lab_03/server_1.c:45-117 | each statement of the request loop on the ring, the indices and the semaphores is the transition of the state machine |
| `RingServer.Server.Run` | lab_sockets/lab_03/lab_03/server_1.c:45-117 | an arbitrary scheduler over arbitrary requests ends in the state of the specification run and keeps the invariant |
| `RingHistory.RequestsCarriedOut` | lab_sockets/lab_03/lab_03/server_1.c:62-108 | in every run the requests that a thread has taken are, in order, those it has carried out, each put with the letter it was sent, and at most one more; when it is idle, all are carried out |
| `RingHistory.RequestEnds` | lab_sockets/lab_03/lab_03/server_1.c:62-108 | whatever the others do, a thread that is inside, or whose start call goes through, is idle again within five turns of its own |
| `LinearBuffer.StepKeepsInv` | sem_05/lab_03/producer-consumer/main.c:34-78 | every step of every process keeps the invariant that ties the pointers, the page and the letter to the history |
| `LinearBuffer.Simulates` | sem_05/lab_03/producer-consumer/main.c:34-78 | each step of a process is zero, one or two turns of the 26-cell ring server from the corresponding state |
| `LinearBuffer.RefinesRing` | sem_05/lab_03/producer-consumer/main.c:34-78 | every run of the processes is a run of the ring server |
| `LinearBuffer.SameDelivery` | sem_05/lab_03/producer-consumer/main.c:34-78 | under the matching schedule ring and linear buffer deliver the same letters, letter j got is `a` + j % 26, at most 26 are in flight, and the letters put are the beginning of the page |
| `LinearBuffer.NextLetter` | sem_05/lab_03/producer-consumer/main.c:44-46 | the increment and the wrap after z take the letter of put j to the letter of put j + 1 |
| `LinearBuffer.PageKept` | sem_05/lab_03/producer-consumer/main.c:44-48 | every step keeps the letters put at the beginning of the page, in order, each the letter of its number |
| `LinearBuffer.Processes.constructor` | sem_05/lab_03/producer-consumer/main.c:82-128 | the semaphore values, pointers and first letter set up by `main` form an initial state, and so does the corresponding ring |
| `LinearBuffer.Processes.Producer` | sem_05/lab_03/producer-consumer/main.c:34-57 | each statement of `producer` on the shared page and pointers is the transition of the state machine |
| `LinearBuffer.Processes.Consumer` | sem_05/lab_03/producer-consumer/main.c:59-78 | the same for `consumer` |
| `LinearBuffer.Processes.Run` | sem_05/lab_03/producer-consumer/main.c:130-147 | an arbitrary scheduler ends in the state of the specification run and keeps the invariant |
| `BufferSections.RoundEnds` | sem_05/lab_03/producer-consumer/main.c:32-78 | in every state that a run reaches, whatever the others do, a process whose start call goes through is back at it within nine turns of its own; a producer has then stored exactly the next letter, a consumer loaded exactly the oldest one, and nobody else any |
| `BoundedQueue.FirstInFirstOut` | lab_sockets/lab_03/lab_03/server_2.c:60-112 | for every command list, what was queued followed by what was accepted is what was got followed by what is left, and the queue never exceeds 26 |
| `BoundedQueue.OneMore` | lab_sockets/lab_03/lab_03/server_2.c:49-119 | serving one more command at the end of a list extends the replies by its reply in the queue reached |
| `BoundedQueue.RefusedIff` | lab_sockets/lab_03/lab_03/server_2.c:60-112 | in every command list, a get is answered with the next of the accepted letters, and as empty if and only if as many have been got as accepted; a put is refused if and only if 26 more have been accepted than got |
| `BoundedQueue.ReplyAt` | lab_sockets/lab_03/lab_03/server_2.c:49-119 | the reply to a command is that in the queue which the commands before it leave |
| `PollingServers.RecordServer.constructor` | lab_sockets/lab_03/lab_03/server_2.c:162-163 | the semaphore values set up by `main` and an unused ring represent the empty queue |
| `PollingServers.EpollServer.constructor` | lab_sockets/lab_03/multiplex/server.c:144-145 | the same for the second server |
| `PollingServers.QueueAfterPut` | lab_sockets/lab_03/lab_03/server_2.c:72-75 | the store, the advance of `tail` and the two semaphore operations append the letter to the queue that the ring represents |
| `PollingServers.QueueAfterGet` | lab_sockets/lab_03/lab_03/server_2.c:97-100 | the load and the advance of `head` take the first letter off that queue |
| `PollingServers.RecordServer.Serve` | lab_sockets/lab_03/lab_03/server_2.c:60-112 | a put below 26 letters answers 0 and appends, at 26 it answers 1 and changes nothing; a get takes the first letter and answers 0 with it, of an empty queue it answers 2 and changes nothing; so the failure branches after the two stop calls never decide the status sent |
| `PollingServers.RecordServer.ServeAll` | lab_sockets/lab_03/lab_03/server_2.c:49-119 | for every request list the answers are those of the bounded FIFO queue |
| `PollingServers.EpollServer.HandleClientCommand` | lab_sockets/lab_03/multiplex/server.c:49-112 | the same with codes 0, 3 and 4 in the reused buffer, of which the length of a pointer is sent |
| `PollingServers.EpollServer.HandlePut` | lab_sockets/lab_03/multiplex/server.c:59-81 | the put: code 3 with the queue unchanged at 26 letters, code 0 and appended otherwise |
| `PollingServers.EpollServer.HandleGet` | lab_sockets/lab_03/multiplex/server.c:83-107 | the get: code 4 exactly if the queue is empty, otherwise code 0 and its first letter, written over the first two characters of the request |
| `PollingServers.EpollServer.HandleAll` | lab_sockets/lab_03/multiplex/server.c:49-112 | for every list of buffers the messages sent are those of the bounded FIFO queue |
| `PollingServers.SameAnswers` | lab_sockets/lab_03/multiplex/server.c:57-112 | asked the same command in the same queue, the answers of both servers decode to the same reply |
| `PollingServers.SameReplies` | lab_sockets/lab_03/multiplex/server.c:49-112 | the answers of both servers to whole lists of the same commands decode to the same replies, those of the bounded queue |
| `PollingServers.ServeBoth` | lab_sockets/lab_03/lab_03/server_2.c:49-119 | two fresh servers, each asked the same commands in its own encoding, are understood alike by their clients |
| `RwLock.FiveOps` | lab_sockets/lab_03/mt/server.c:27-39 | a five-operation start call succeeds exactly when its two tests do, and leaves only its net effect: the first operation is taken back by the last |
| `RwLock.CallEffect` | lab_sockets/lab_03/mt/server.c:27-42 | both encodings implement one lock: a call goes through exactly when the lock admits it, counts the caller in or out, and leaves every queue semaphore at zero, so waiting on one never blocks |
| `RwLock.CallKeepsLock` | sem_05/lab_03/reader-writer/main.c:19-33 | a completed call of any thread keeps: active semaphores equal to the threads inside, at most one writer, no reader beside it |
| `RwLock.WriterAlone` | sem_05/lab_03/reader-writer/main.c:19-33 | a thread inside as a writer excludes every other thread |
| `LetterTable.StepKeepsInv` | lab_sockets/lab_03/mt/server.c:67-156 | every step of every client thread keeps the invariant on lock, table, grants and replies |
| `LetterTable.TableKept` | lab_sockets/lab_03/mt/server.c:110-128 | every step keeps: a cell is blank exactly when its letter was granted, no letter is granted twice, and there are as many grants as OK replies sent or owed |
| `LetterTable.LedgerKept` | lab_sockets/lab_03/mt/server.c:110-147 | every step keeps: the OK replies carry different letters, all granted, and the letter of an OK still owed is granted and in none of them |
| `LetterTable.FullKept` | lab_sockets/lab_03/mt/server.c:130-143 | every reply computes `full` true exactly from the one that takes the last letter on |
| `LetterTable.FullByCount` | lab_sockets/lab_03/mt/server.c:130-135 | the scan finds no letter left if and only if as many cells are blank as there are |
| `LetterTable.WritersExclude` | lab_sockets/lab_03/mt/server.c:27-42 | in every run READER and SHADOW_WRITER count the threads inside, WRITER is free exactly without a writer, both queue semaphores are zero, and a writer is alone |
| `LetterTable.StartsWhenAdmitted` | lab_sockets/lab_03/mt/server.c:78-108 | in every reachable state a thread can take its next step if and only if the lock admits it; a start call that goes through leads inside; a thread inside is never held up |
| `LetterTable.LettersGrantedOnce` | lab_sockets/lab_03/mt/server.c:110-147 | in every run no two OK replies carry the same letter, and a letter whose OK is owed has been in none; every OK is for a granted letter; the OK replies sent or owed are as many as the blank cells; `full` is true exactly from the reply that takes the last letter on; a cell not granted still holds its letter |
| `LetterTable.CopiesAreSnapshots` | lab_sockets/lab_03/mt/server.c:84-97 | while a reader copies the table element by element nobody changes it: what it sends is the table at one moment |
| `LetterTable.Server.constructor` | lab_sockets/lab_03/mt/server.c:185-197 | the semaphore values and the alphabet set up by `main` form an initial state |
| `LetterTable.Server.ProcessClient` | lab_sockets/lab_03/mt/server.c:44-160 | each statement of the request loop, one cell of the copy or of the full check per step, is the transition of the state machine |
| `LetterTable.Server.Run` | lab_sockets/lab_03/mt/server.c:44-160 | an arbitrary scheduler over arbitrary requests ends in the state of the specification run and keeps the invariant |
| `LetterHistory.RequestsAnswered` | lab_sockets/lab_03/mt/server.c:67-160 | in every run the requests that a thread has taken are, in order, those it has answered, each write with the letter it asked for, and at most one more; the cells it has made blank are those of the letters it answered with OK, and at most one more |
| `LetterHistory.RefusedIff` | lab_sockets/lab_03/mt/server.c:110-128 | in every run a letter is refused if and only if an earlier reply has granted it |
| `LetterHistory.RequestEnds` | lab_sockets/lab_03/mt/server.c:78-160 | whatever the others do, a thread that is inside, or whose start call goes through, is idle again within 26 turns of its own |
| `SharedLetter.EveryWriteCounts` | sem_05/lab_03/reader-writer/main.c:44-87 | in every run the active semaphores count the processes inside and the queue semaphores are zero, a writer is alone, no increment is lost, and every reader prints the letter of the writes completed by then, never fewer than an earlier reader saw and never the code after z |
| `SharedLetter.SectionEnds` | sem_05/lab_03/reader-writer/main.c:44-87 | in every state that a run reaches, a start call goes through exactly when the lock admits it; whatever the others do, a reader then prints once and is back within two more turns, a writer writes once and is back within six |
| `SharedLetter.Processes.constructor` | sem_05/lab_03/reader-writer/main.c:100-132 | the semaphore values and the first letter set up by `main` form an initial state |
| `SharedLetter.Processes.Reader` | sem_05/lab_03/reader-writer/main.c:44-60 | each statement of `reader` is the transition of the state machine |
| `SharedLetter.Processes.Writer` | sem_05/lab_03/reader-writer/main.c:62-87 | the same for `writer`, with load, store, test and wrap of the letter apart |
| `SharedLetter.Processes.Run` | sem_05/lab_03/reader-writer/main.c:139-150 | an arbitrary scheduler ends in the state of the specification run and keeps the invariant |
| `FileTree.ComponentsAppend` | lab_fs/main.c:82-94 | appending a slash changes no component of a path, appending a name adds one, and the name is what the renderer finds behind the last slash |
| `FileTree.LstatEntry` | lab_fs/main.c:71-94 | the full path of an entry leads to that entry of the directory |
| `FileTree.LstatBare` | lab_fs/main.c:117-138 | from inside a directory the bare name of an entry leads to the same entry |
| `FileTree.ScanName` | lab_fs/main.c:174-179 | scanning back to the last slash of a path separates the last name from the components before it |
| `FileTree.BaseNameIs` | lab_fs/main.c:174-179 | the name printed is what follows the last slash of the path, or the whole path if it has none |
| `FileTree.LeadsToSpelled` | lab_fs/main.c:129-147 | a path that leads somewhere leads to what its names spell, "." staying and ".." going up |
| `Traversal.ReportConcat` | lab_fs/main.c:90-99 | reporting two lists of calls stops in the first exactly if one of its calls is objected to |
| `Traversal.SameViews` | lab_fs/main.c:64-153 | on every tree the calls of both walks have the same levels, kinds, last names and lines, an unreadable directory with its leftover slash included |
| `Traversal.WalksAgree` | lab_fs/main.c:64-153 | on every tree and for every callback that sees only level, kind, name and line, both walks make the same reports, stop at the same one and return the same result |
| `Traversal.ReportAll` | lab_fs/main.c:192 | a callback that never objects gets every call |
| `Traversal.BothReportAll` | lab_fs/main.c:64-193 | with `myfunc`, which never objects, both walks report the whole tree, and the same view of it |
| `WalkOrder.WalkIsOrdered` | lab_fs/main.c:64-152 | on every tree and for every callback, a walk calls back once for every place that a route of names other than "." and ".." leads to through listable directories, with its path, its depth and its kind, and once more for every directory that cannot be listed; parents come first, siblings in entry order; it stops at the first answer that is not zero, and only there |
| `WalkOrder.ReportIs` | lab_fs/main.c:64-152 | the calls made are a prefix of those due, all but the last answered with zero, whose answer is the result; with result zero all are made |
| `WalkOrder.PathsDiffer` | lab_fs/main.c:85-96 | by full path, no two calls name the same path |
| `DirectoryWalk.Program.DopathNo` | lab_fs/main.c:64-108 | makes exactly the preorder callbacks up to and including the first non-zero one and returns it; restores `*level`; restores the path string in the shared buffer exactly unless an unopenable directory left its slash |
| `DirectoryWalk.Program.EnterNo` | lab_fs/main.c:80-107 | from `strlen` on: the slash, the directory if it opens, and the slash away again only then |
| `DirectoryWalk.Program.AppendSlash` | lab_fs/main.c:80-83 | the in-place append at the terminator adds one slash and tells where it ends |
| `DirectoryWalk.Program.DescendNo` | lab_fs/main.c:88-102 | the loop over the entries, in place in one buffer: it reports the entries in order up to the first objection and keeps the directory prefix |
| `DirectoryWalk.Program.VisitNo` | lab_fs/main.c:92-98 | the visit of one entry behind the prefix |
| `DirectoryWalk.Program.DopathChdir` | lab_fs/main.c:110-153 | makes the same preorder callbacks under bare names, restores `*level`, and ends in the parent of the directory it entered |
| `DirectoryWalk.Program.EnterChdir` | lab_fs/main.c:126-152 | from `opendir` on: into the directory, through it, and one level up |
| `DirectoryWalk.Program.DescendChdir` | lab_fs/main.c:132-144 | the loop over the entries ends in the working directory it began in |
| `DirectoryWalk.Program.VisitChdir` | lab_fs/main.c:136-142 | every nested call returns with the working directory it was entered with |
| `DirectoryWalk.Program.Myfunc` | lab_fs/main.c:155-193 | prints four characters for every level, the last four of them the branch, and the last name, or the argument itself at the top; nothing for the error kinds; never stops the walk |
| `DirectoryWalk.Program.Start` | lab_fs/main.c:43-46 | the copied argument is the string of the buffer, whose last byte may then be cleared |
| `DirectoryWalk.Program.MyftwNo` | lab_fs/main.c:40-50 | the whole walk by full path calls back for every place below the argument, in order, until the callback objects |
| `DirectoryWalk.Program.MyftwChdir` | lab_fs/main.c:52-62 | the whole walk by bare names does too, and says where it leaves the working directory |
| `DirectoryWalk.Program.Compare` | lab_fs/main.c:208-223 | for every argument the two walks of `compare` make the preorder reports of the tree there and report and return the same |
| `DirectoryWalk.Program.WalkAndCompare` | lab_fs/main.c:18-29 | the walk of `main` and the two of `compare` after it: each reports the tree its working directory shows, and all three agree if the argument is absolute, is not entered, or spells an entry of the working directory |
| `DirectoryWalk.RestoredIff` | lab_fs/main.c:129-147 | for every argument that is entered, the final `chdir("..")` leads back if and only if the argument spells the working directory and one name more, or the root from the root |
| `DirectoryWalk.Program.EndsWhereItBegan` | lab_fs/main.c:117-152 | for every argument, a relative walk ends where it began if and only if it does not go into the start directory or the argument leads back |
| `DirectoryWalk.RestoredIffOneName` | lab_fs/main.c:129-147 | without dots: a relative argument is restored if and only if it is a single name, an absolute one if and only if it is the working directory and one name more |
| `DirectoryWalk.RestoredFromDotIffRoot` | lab_fs/main.c:129-147 | started at "." the walk ends where it began if and only if that is the root |
| `DirectoryWalk.NestedStartIsLost` | lab_fs/main.c:18-29 | an argument x/y, readable, for which the second walk over the same argument finds nothing |
| `CookiePot.SplitFlatten` | lab_module/task_03/fortune.c:66-67 | a byte string that ends with a terminator is the concatenation of the NUL-terminated messages it splits into |
| `CookiePot.WrittenKeeps` | lab_module/task_03/fortune.c:60-67 | a write appends its bytes with the last one replaced, and moves no earlier message and no read position |
| `CookiePot.PassIsComplete` | lab_module/task_03/fortune.c:50-103 | what the reads of any mix of writes and reads return is, in order, whole rounds, each over all the messages there were when the next one began, and then the lines of the first messages up to the next one to read; the messages of each round are a prefix of those of the next |
| `CookiePot.ReturnedInRounds` | lab_module/task_03/fortune.c:75-103 | the same from any state of the pot, the lines of the round under way included |
| `CookiePot.RoundsGrow` | lab_module/task_03/fortune.c:50-103 | the messages of every round extend those of the round before |
| `CookiePot.ReadsGoRound` | lab_module/task_03/fortune.c:83-102 | without writes in between, read i returns message (cursor + i) modulo the number of messages |
| `CookiePot.ReadAfterRounds` | lab_module/task_03/fortune.c:83-102 | after q whole rounds and k messages the next read returns message k |
| `CookiePot.WrittenLineReadsBack` | lab_module/task_03/fortune.c:60-102 | a line written with its newline is read back byte for byte if and only if it is shorter than the pot; one that fills it comes back with a NUL for its newline |
| `CookiePot.AcceptedStores` | lab_module/task_03/fortune.c:53-67 | a request that passes the test stores inside the pot if and only if it is not one byte longer than the room left, and not empty while the pot is |
| `CookiePot.FullPotIsOverrun` | lab_module/task_03/fortune.c:53-67 | one byte for a full pot passes the test and is stored behind the pot |
| `CookiePot.EmptyPotIsUnderrun` | lab_module/task_03/fortune.c:53-67 | an empty request for an empty pot passes the test and its terminator is stored before the pot |
| `CookiePot.FitsIffStored` | lab_module/task_03/fortune.c:53-67 | a request is accepted and stored inside the pot if and only if it fits the room left and one of the two is not empty |
| `CookiePot.Module.constructor` | lab_module/task_03/fortune.c:112-149 | the empty, zeroed pot represents no messages |
| `CookiePot.Module.FortuneWrite` | lab_module/task_03/fortune.c:50-73 | for every request: -ENOSPC exactly if the test fails, a store outside the pot exactly if the request passes it and does not fit, -EFAULT if the copy breaks off, all with the messages unchanged; otherwise the message list grows by the bytes written, and the byte array and `writeInd` represent it |
| `CookiePot.AppendedBytes` | lab_module/task_03/fortune.c:66-67 | the bytes of the pot after a write are those of the longer message list, an empty write included |
| `CookiePot.Module.CopyFromUser` | lab_module/task_03/fortune.c:60-64 | a copy, complete or not, leaves the bytes before `writeInd` alone, and leaves the pot exactly if the request is longer than the room left |
| `CookiePot.Module.Snprintf` | lab_module/task_03/fortune.c:89 | the return value is the message length plus one, which is also its stored length with the NUL, and the buffer holds what a read returns |
| `CookiePot.Module.FortuneRead` | lab_module/task_03/fortune.c:75-103 | end of file, -EFAULT and success: the next message in turn is returned and `readInd` lands on a message boundary again |
| `CookiePot.Module.ServeAll` | lab_module/task_03/fortune.c:50-103 | any sequence of writes and fresh reads runs as the list of messages does, where a write without room changes nothing |
| `MapLines.ValueOfPadded` | lab_proc/main.c:359-396 | the hexadecimal value of a printed address is that address, leading zeros included |
| `MapScanner.LineStart` | lab_proc/main.c:354-358 | the backward search stops at the beginning of the line that ends at the newline |
| `MapScanner.HexField` | lab_proc/main.c:359-375 | the in-place accumulation of a field yields its hexadecimal value, without overflow, and stops at its end |
| `MapScanner.SkipFields` | lab_proc/main.c:398-403 | four rounds of the skip end exactly behind the four fields, empty ones included |
| `MapScanner.SkipTo` | lab_proc/main.c:376-377 | the forward search stops at the first occurrence |
| `MapScanner.SkipBlanks` | lab_proc/main.c:404-405 | the blanks before the name are passed, and no character of it |
| `MapScanner.ParseRange` | lab_proc/main.c:354-396 | from the newline back to the beginning of the line and forward through both numbers: their values, and the position behind them |
| `MapScanner.ParseName` | lab_proc/main.c:398-408 | from there the extent of the name, up to the newline |
| `MapScanner.NextPage` | lab_proc/main.c:419 | between page boundaries the address steps to the next one without passing the end or wrapping round |
| `MapScanner.ParseLine` | lab_proc/main.c:353-411 | the parse recovers exactly the printed bounds and the extent of the name |
| `MapScanner.TakeName` | lab_proc/main.c:409-410 | the temporary terminator makes the name the string that is printed |
| `MapScanner.PageLoop` | lab_proc/main.c:419-432 | the loop reports the pages of the range whose entry is read, in order, however the bytes of the entries are split over reads, and never wraps round |
| `MapScanner.RowsAreTheReadable` | lab_proc/main.c:417-433 | the rows of a range are, in increasing order of address, exactly the pages of the range whose entry can be read, each with its own entry and the name |
| `MapScanner.RowsAreThePages` | lab_proc/main.c:417-433 | when every entry of the range can be read the rows are exactly its (high - low) / page consecutive pages |
| `MapScanner.HandleLine` | lab_proc/main.c:348-435 | one newline: the page count is stored, the rows of the range are reported under the printed name, and the buffer is as before |
| `MapScanner.ReportRange` | lab_proc/main.c:409-434 | from the terminator to the newline put back: the count, the rows, and an unchanged buffer |
| `MapScanner.ScanBuffer` | lab_proc/main.c:345-436 | scanning a buffer of whole printed lines handles every line once, in order, and leaves the buffer unchanged, whatever stands behind the text |
| `MapScanner.ReadChunk` | lab_proc/main.c:341-436 | one read over whatever the last one left, and its scan, extend the counts and rows by those of its lines |
| `MapScanner.FprintfPagemapInfo` | lab_proc/main.c:339-437 | over all reads that each end with a line, there is for every line in order the number of 4096-byte pages of its range, and the rows are the readable pages of the lines, one line after the other |
| `MapScanner.AllRowsReported` | lab_proc/main.c:345-436 | the rows of all lines are, line by line, exactly the readable pages of the line, in increasing order |
| `PagemapFile.UnpackPacked` | lab_proc/main.c:276-280 | no field of an entry disturbs another: packing the fields and unpacking the word gives them back |
| `PagemapFile.SameEntry` | lab_proc/main.c:276-280 | two words give the same entry if and only if they agree outside bits 56 to 60 |
| `PagemapFile.PackUnpacked` | lab_proc/main.c:276-280 | the entry keeps all of the word but bits 56 to 60 |
| `PagemapFile.WordBytes` | lab_proc/main.c:268-269 | byte k read is byte k of the word, counted from the low end |
| `PagemapFile.PositiveReadsComplete` | lab_proc/main.c:265-275 | an entry is read as long as every call returns at least one byte |
| `PagemapFile.PagemapGetEntry` | lab_proc/main.c:259-282 | however the eight bytes are split over calls of `pread`, each field of the entry is made of its bits of the bytes from (vaddr / 4096) * 8 on, and there is an entry if and only if the calls find eight bytes before one of them finds nothing |
| `PagemapFile.CompletesIff` | lab_proc/main.c:265-275 | from any call on, the reading completes if and only if the calls find the bytes still missing before one of them finds nothing |
| `PagemapFile.GetIsEntry` | lab_proc/main.c:268-280 | which bits of which bytes of the file the fields of an entry are |
| `PagemapFile.EntryFields` | lab_proc/main.c:276-280 | `present`, `swapped` and `file_page` are the top bits of byte 7, `soft_dirty` the top bit of byte 6, `pfn` the 55 bits below |
| `PagemapFile.PhysicalParts` | lab_proc/main.c:308 | the physical address keeps the offset in the page always, and the frame number if and only if it has at most 52 bits |
| `PagemapFile.FramesApart` | lab_proc/main.c:308 | two virtual addresses get the same physical address if and only if they have the same frame and the same offset |
| `PagemapFile.VirtToPhysUser` | lab_proc/main.c:291-310 | success if and only if the file opens and the entry is read; then the address is computed from the frame of that entry |

## Left out

- Sockets, epoll, RPC stubs, fork, wait, signals, clocks, timing measurements and log files: what they deliver is a parameter, what they record is not modelled.
- Weak memory and compiler reordering: the spin loops and the unlocked counters are read as sequentially consistent accesses to single words.
- `sem_05/lab_03/reader-writer_win/main.c`: the console event that the writer generates at `cnt >= 3` has no effect in the model; the run goes on and `ClosedForever` says what it then cannot do. Return values of the waits other than "signalled" and "timed out" are not modelled.
- EventMonitor.NoDeadlock: says nothing of states with `cnt` = 3, where the writer inside keeps the token and the process is being ended.
- BakeryServer.EveryTicketIsServed: bounds turns, not time; which client is scheduled is the scheduler's choice, and a client that never calls RESULT holds up those after it.
- TicketDispenser.PollIsAnswered: begins when the poll is handled; a client whose polls always find the dispatch thread busy, or that stops polling, is not served.
- `sem_05/rpc/bakery_2/bakery_server.c`: the reduction of the client number modulo `MAX_CLIENTS` (each client is taken to have its own slot), the time stamp, the address of a local variable that is returned, and the stub file beside it, whose names do not match.
- TicketDispenser.ServedInOrder: the reply of the dispatch thread is sent under `send_mutex` and is not held up by it in the model; a failing clock, which uses up a ticket without a reply, is left out.
- TicketDispenser.EveryNumberIsGiven: for the same reason a worker is not held up by a reply of the dispatch thread.
- BufferSections.RoundEnds: a producer for whose letter the page has no room left is not covered.
- Overflow of `current_ticket`, `client_num`, `client_number_service` and the queue counters: they are unbounded integers here.
- LinearBuffer.SameDelivery: a store beyond the shared page is not a step of the model, so it covers the runs whose letters fit the page.
- SharedLetter.EveryWriteCounts: the `count` of wraps that each writer process keeps for itself, and the signal it sends at 2, are left out.
- LetterTable.LettersGrantedOnce: letter indices are in range; the branch for an invalid index reads outside the array in the source and is not modelled. The shutdown signal sent when the table is full is left out.
- LetterHistory.RequestsAnswered: a request of an unknown kind is ignored, as in the source, and not counted.
- PollingServers.RecordServer.Serve: failures of `semop` other than EAGAIN, which end the process, are left out; the same holds for the other semaphore programs.
- DirectoryWalk.Program.WalkAndCompare: the growing of the buffer in `path_alloc`, the timing, and the errors of `chdir` and `closedir` are left out.
- FileTree.LeadsToSpelled: there are no symbolic links in the tree. On a real system `lstat` of a link with a slash behind it follows the link and `chdir("..")` then lands beside its target; and a slash behind the name of a file, which resolves here, makes `lstat` fail.
- DirectoryWalk.Program.Myfunc: the messages on standard error, in which the two walks name paths differently, are left out.
- Traversal.WalksAgree: is about callbacks that see level, kind, last name and printed line; a callback that looks at the whole path can tell the walks apart.
- CookiePot.Module.FortuneWrite: a store outside the pot ends the request there; what lies around the pot is not modelled. `copy_from_user` is taken to fill up with zeros what it cannot copy.
- CookiePot.Module.FortuneRead: `copy_to_user` either succeeds or fails as a whole; that the source ignores the length the caller asks for is kept.
- MapScanner.FprintfPagemapInfo: a line that is split over two reads is not recovered by the source, whose `offset` stays zero, and is excluded; the header line, the file names and failing opens are left out.
- MapScanner.PageLoop: the pagemap file does not change, and what a call of `pread` finds ready depends on the page and the number of the call for it only.
- PagemapFile.Word: the lowest byte of a word is first in memory, as on the machines the program is written for.
- PagemapFile.VirtToPhysUser: multiplication in 64 bits without sign; a compiler that multiplies the 55-bit field as a signed number agrees for frames below 2^51. The descriptor that stays open on failure is left out.
- The page size is 4096 throughout.
- The other programs of the repository: `sem_05/rpc/new_bakery`, `sem_05/rpc/for-review/bakery_3` and `sem_05/rpc/bakery (2)` do not start or wait as intended; the kernel modules `lab_tasklet`, `lab_vfs`, `task_01` and `task_02`, `lab_buf_io`, the daemon, the calculator and the pipe demos are thin layers over foreign calls.
