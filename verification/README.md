# Verified model of the grpcwatch client library

This project models the two stateful parts of the client library and proves what they promise.

**The etcd-backed concurrency package.** Software transactional memory with four isolation levels, a distributed
mutex and leader election, all over one revisioned key-value store. The store is modelled concretely: a history of
snapshots indexed by revision, atomic compare-then-else transactions that add at most one revision, reads now or at a
past revision, watches from a revision, and lease expiry.

**The client load balancer.** The balancer's three maps, the connectivity recorder with its wrapping 64-bit counters,
and the round-robin picker.

Code that updates fields is modelled by classes (`Stm`, `Mutex`, `Election`, `Recorder`, `RoundRobinPicker`,
`Balancer`) whose methods follow the source's branches and loops and are proved against specification functions.
`Cluster` is the server as one client sees it: before each request any number of other clients' pending transactions
may commit. On top of the same specification functions there are whole-run state machines (`StmRuns`, `MutexRuns`,
`ElectionRuns`): a run is any list of steps, a step is one request of one client, an RPC failure, a lease expiry or an
outside write, and the main results hold for every list of steps. The objects are tied to the machines: each call of
`Lock`, `Unlock`, `Campaign`, `Proclaim`, `Resign` and each instruction of a transaction body is proved to be a path of
the machine's own steps, interleaved with whatever the others commit.

| file | content |
|---|---|
| Store.dfy, Cluster.dfy | store history, transactions, watches, interference by other clients |
| Programs.dfy | transaction bodies and what they mean when they run alone |
| StmSpec.dfy, Stm.dfy, RunStm.dfy | calls on a transaction, the transaction object, the retry loop |
| StmRuns.dfy, StmTraps.dfy | whole runs of many transactions; two ways to lose a guarantee, and exactly when |
| Queue.dfy, Waiting.dfy, Paths.dfy | the line of keys under a prefix; waitDelete and waitDeletes; paths of steps |
| MutexSpec.dfy, Mutex.dfy | a mutex's steps; the mutex object |
| MutexRuns.dfy, MutexLeases.dfy | whole runs of many mutexes; when a nil return means ownership |
| ElectionSpec.dfy, Election.dfy | a candidate's steps; the election object |
| ElectionRuns.dfy, ElectionLeases.dfy | whole runs of many candidates; when a nil return means leadership |
| Hearing.dfy, Observe.dfy | what an observer is told; observing an election |
| Connectivity.dfy, RoundRobin.dfy, Balancer.dfy | recorder, picker, balancer |

`dafny verify dfyconfig.toml` checks the project.

## Where the code does not do what its comments say

- **Write conflicts** (`stm.go:46-47`). SerializableSnapshot is documented to check for write conflicts. A key that
  another client deletes after the snapshot compares as revision 0 and passes the guard. `DeletedKeySlipsThrough`
  gives such a run; `WriteGuardExact` says precisely which keys pass (absent now, or unchanged since `first()`).
  Serializability itself is not affected.
- **Snapshot of the first read** (`stm.go:49-50`). At the stmSerializable levels `Rev` of a key the transaction has
  already written, before it has read anything, reads the store without fixing the snapshot revision
  (`SnapshotFixedExactly` says for which bodies that can happen), and later reads may come from other revisions.
  `SnapshotExactly`: every attempt of every run keeps to one revision, if and only if the body cannot get from such a
  `Rev` to a read of another entry (`Mixes`). Such an attempt still cannot commit.
- **Get of several keys** returns the value of whichever key is already cached. `MultiKeyGetExactly` says which key is
  answered, at all levels, and exactly when it is the first one: one cached or prefetched key is enough to change the
  answer. Bodies here use single-key Gets; the leading Get of WithPrefetch takes any list.
- **Lock and Campaign can return nil without the lock or the leadership**, if the session's own lease expires while they
  wait (`NilWithoutOwnership`, `NilWithoutElection`). `OwnerWhileLeaseLasts` and `ElectedWhileLeaseLasts`: in every run,
  a nil return means ownership, or leadership, if and only if the session's lease has not expired since the key was
  stored or found.

## Assumptions

- One linearised store. Revisions are int64: what is said about retries making progress is said of runs that stay below
  revision 2^63-1.
- A transaction body is deterministic: its next call is a function of the answers so far. For `RunSTM` it ends whatever
  it is answered, after any number of calls; no bound is assumed.
- One mutex or election object per session and prefix; only they write under the prefix, apart from lease expiry; no
  nested prefixes; a session's key is attached to its own lease. The server refuses empty keys, and transactions that
  write a key twice.
- Sub-connection handles are 64-bit addresses other than nil; NewSubConn returns a new one or fails. The handlers run
  under the balancer's lock, so each is one step. Connection states are those of gRPC. `Run` delivers Shutdown only of
  sub-connections that gRPC was told to remove; `ShutdownBreaksAddresses` says what any other Shutdown would do.

## Model

| member | source | states |
|---|---|---|
| Store.ModRevDetermines | grpclient/concurrency/stm.go:364-369 | the fact the commit guard rests on: comparing modification revisions (0 for a missing key) compares the whole entry, over any stretch of history |
| Store.SameIncarnation | grpclient/concurrency/key.go:51-53 | a create revision identifies an uninterrupted incarnation of a key |
| Store.CommitMeans | grpclient/concurrency/stm.go:236-243 | what a transaction of puts and deletes does to each key, and when it takes a revision |
| StmSpec.GetKeepsReads | grpclient/concurrency/stm.go:246-251 | no Get at any level forgets or changes a cached read, and a prefetched response never shadows a visible one |
| StmSpec.RevKeepsReads | grpclient/concurrency/stm.go:262-267 | the same for Rev, which leaves the key in the read set and answers from it |
| StmSpec.GetAnswers | grpclient/concurrency/stm.go:309-329 | a Get answers the transaction's own last write, else the value of the entry its read set then holds, "" if that is a missing key; an entry already held is answered unchanged |
| StmSpec.FreshRead | grpclient/concurrency/stm.go:309-329 | a read of a key neither held nor written answers the store's value, now or at the fixed revision, and keeps entry and header; at the two stmSerializable levels, and only there, the first one fixes the revision |
| StmSpec.FirstReadAnswers | grpclient/concurrency/stm.go:371-376 | the first Get at each level answers the key's present value, or ""; the first Rev its modification revision, or 0 |
| StmSpec.OwnWriteAnswers | grpclient/concurrency/stm.go:246-259 | a Get after a Put answers what was put, after a Del "" |
| StmSpec.GetSourced | grpclient/concurrency/stm.go:280-297 | every cached response is the store's entry at some revision between the attempt's base and the response's header |
| StmSpec.PassedReadsAreCurrent | grpclient/concurrency/stm.go:207-214 | a passed read guard means the whole read set is current, however old its responses |
| StmSpec.CommitsExactly | grpclient/concurrency/stm.go:106-128 | a commit succeeds: at Serializable and RepeatableReads if and only if everything read is still what the store holds, whoever touched what is written; at ReadCommitted always; at SerializableSnapshot if and only if, besides, each written key is absent or unchanged since first() |
| StmSpec.ConflictNeedsProgress | grpclient/concurrency/stm.go:140-167 | a failed commit happens strictly after the attempt's base revision and never with an empty read set |
| StmSpec.NoReadsNeverConflict | grpclient/concurrency/stm.go:196-205 | with an empty read set first()+1 is the largest int64 and the write guard holds for every store |
| StmSpec.WriteGuardExact | grpclient/concurrency/stm.go:227-234 | the write guard passes a key if and only if it is absent or unchanged since first() |
| StmSpec.FirstCommitterWins | grpclient/concurrency/stm.go:106-114 | after a successful SerializableSnapshot commit no written key that is present had been touched since first() |
| StmSpec.DeletedKeySlipsThrough | grpclient/concurrency/stm.go:227-234 | a concurrent delete of a written key does not stop the commit |
| StmSpec.FailedCommitPrefetches | grpclient/concurrency/stm.go:346-362 | a failed commit leaves exactly its read set's keys in the prefetch, as of the commit's revision |
| StmSpec.PrefetchIsReread | grpclient/concurrency/stm.go:313-319 | one Get or Rev that uses a prefetched entry is answered like a fresh read of the key at the entry's revision; RetryRereadsAtFailedCommit says it of whole attempts |
| Stm.CommitOrderIrrelevant | grpclient/concurrency/stm.go:236-243 | every order of listing the pending writes gives the same store |
| Stm.Stm.constructor | grpclient/concurrency/stm.go:104-133 | a new transaction of each level |
| Stm.Stm.Fetch | grpclient/concurrency/stm.go:280-297 | one request at most; result and read set are those of the specification at the store it reached |
| Stm.Stm.Get | grpclient/concurrency/stm.go:309-329 | whole new state and value of a Get, for plain and serializable transactions; FreshRead, GetAnswers and OwnWriteAnswers say what the value is |
| Stm.Stm.Rev | grpclient/concurrency/stm.go:331-334 | whole new state and revision of a Rev |
| Stm.Stm.Put | grpclient/concurrency/stm.go:254-256 | buffers the write |
| Stm.Stm.Del | grpclient/concurrency/stm.go:259-259 | buffers the deletion with an empty value |
| Stm.Stm.Reset | grpclient/concurrency/stm.go:299-302 | clears read and write set and keeps prefetch and revision option |
| Stm.Stm.First | grpclient/concurrency/stm.go:197-205 | the least header revision in the read set, at most the largest int64 minus one |
| Stm.Stm.ReadCmps | grpclient/concurrency/stm.go:208-214 | in whatever map order: the comparisons hold exactly of the stores where the read set is current |
| Stm.Stm.WriteCmps | grpclient/concurrency/stm.go:228-234 | in whatever map order: the comparisons hold exactly where no written key is that new |
| Stm.Stm.Conflicts | grpclient/concurrency/stm.go:111-128 | per level, the comparison list decides conflict-freedom, which CommitsExactly spells out |
| Stm.Stm.Puts | grpclient/concurrency/stm.go:237-243 | lists each pending write once |
| Stm.Stm.Gets | grpclient/concurrency/stm.go:336-344 | lists each key of the read set once |
| Stm.Stm.Commit | grpclient/concurrency/stm.go:346-362 | new store, verdict and new fields of a commit, for plain and serializable transactions; CommitsExactly says when it succeeds, CommitMeans what it stores |
| RunStm.RunSTM | grpclient/concurrency/stm.go:140-167 | the call ends for every body that ends whatever it is answered; failed commits never outnumber the transactions others commit meanwhile; a commit writes exactly the body's writes, and under guarded levels the body saw what it sees alone at that point |
| RunStm.TryOnce | grpclient/concurrency/stm.go:154-162 | one turn of the retry loop; a conflict moves the base revision strictly forward |
| RunStm.Call | grpclient/concurrency/stm.go:246-267 | an instruction of the body, run on the transaction object, is the whole-run machine's step on the store it reached |
| Programs.SoloRunUnique | grpclient/concurrency/stm.go:156-158 | a body run alone on a snapshot has one completed run |
| Programs.OverlayIsLastWrites | grpclient/concurrency/stm.go:254-259 | what is buffered for a key is the body's last write of it, and nothing if it has none |
| Programs.SoloRunMeans | grpclient/concurrency/stm.go:371-376 | each answer of a solo run: the last own write, else the value in the snapshot or ""; for Rev the modification revision or 0 |
| Programs.QuietPathsAgree | grpclient/concurrency/stm.go:313-319 | a deterministic body's first read is the same key in every attempt |
| StmRuns.Serializability | grpclient/concurrency/stm.go:140-167 | for all clients and interleavings the store is the replay of the committed transactions in commit order, each of which got the answers it gets alone at its turn |
| StmRuns.CommittedAttemptRanSolo | grpclient/concurrency/stm.go:269-278 | a successful guarded commit implies the attempt's log is a solo run on the commit-time store, and its writes are the body's |
| StmRuns.TransactionsInTheirTurn | grpclient/concurrency/stm.go:140-167 | in every run each transaction event ran to its Finish, was answered its own last writes or the entries of the store just before it, and left each key as its last write says and every other key alone |
| StmRuns.CommittedAnswersAreCurrent | grpclient/concurrency/stm.go:269-278 | when a guarded attempt commits, each of its answers is its own last write or the entry in the store at that moment |
| StmRuns.CommitWritesLastWrites | grpclient/concurrency/stm.go:236-243 | at all four levels a commit stores exactly the body's last write of each key, under one new revision |
| StmRuns.CommittedAreReplayed | grpclient/concurrency/stm.go:140-167 | in every run the replayed transactions are those of the clients whose guarded commit succeeded, exactly one for each, with the answers of the attempt that committed |
| StmRuns.RepeatableAnswers | grpclient/concurrency/stm.go:246-251 | at all four levels a Get answers the last own write, else like every earlier Get of the key |
| StmRuns.SnapshotReads | grpclient/concurrency/stm.go:304-329 | at the two serializable levels, in any attempt of any run, all foreign answers come from one revision no older than the attempt, with WithPrefetch or for every body that cannot mix |
| StmRuns.RetryRereadsAtFailedCommit | grpclient/concurrency/stm.go:313-319 | a retry behaves exactly as if it read every key again at the revision of the failed commit, whatever comes from the prefetch |
| StmRuns.RetriesBounded | grpclient/concurrency/stm.go:140-167 | failed commits never outnumber the revisions the store has gained since the call began |
| StmRuns.ConflictsAdvance | grpclient/concurrency/stm.go:346-362 | failed commits of one call happen at strictly increasing revisions |
| StmRuns.LoneClientNeverRetries | grpclient/concurrency/stm.go:140-167 | a client alone with the store never conflicts |
| StmRuns.PrefetchCoherence | grpclient/concurrency/stm.go:357-360 | in every reachable state every prefetched response is the store's entry at the last failed commit's revision |
| StmTraps.RevBeforeGetMixesRevisions | grpclient/concurrency/stm.go:331-334 | every body that can get from a Rev of a written key that comes first to a read of another entry, however much later, has a run whose answers fit no single revision |
| StmTraps.SnapshotExactly | grpclient/concurrency/stm.go:319-334 | every attempt of every run keeps to one revision, if and only if the body cannot get from such a Rev to a read of another entry |
| StmTraps.SnapshotFixedExactly | grpclient/concurrency/stm.go:319-327 | all runs fix the snapshot revision by the first read, if and only if the body never asks for the revision of a written key before it |
| StmTraps.MultiKeyGetExactly | grpclient/concurrency/stm.go:285-288 | which key of the list a Get answers, at all levels, and exactly when it is the first |
| Queue.KeyOfInjective | grpclient/concurrency/mutex.go:46-46 | different leases have different keys under a prefix |
| Queue.KeyReadsBack | grpclient/concurrency/mutex.go:46-46 | a session's key is the name, a slash, and lower-case hexadecimal without leading zeros that reads back as the lease |
| Queue.LeastStays | grpclient/concurrency/mutex.go:70-75 | the first in line stays first while its key lives |
| Queue.PredecessorsOnlyLeave | grpclient/concurrency/key.go:50-53 | the keys created up to a revision only ever leave |
| Waiting.WaitDelete | grpclient/concurrency/key.go:26-46 | returns nil as soon as a deletion at or after the revision is delivered; otherwise it has watched the key from that revision on without a gap, no delivery brought its deletion, and the context or the watch has ended |
| Waiting.WaitDeletes | grpclient/concurrency/key.go:50-72 | succeeds only at a revision where no key under the prefix was created up to maxCreateRev, after at most as many waits as there were such keys; fails only if the waiting or a request fails; what it saw on the way is a course of answers and deletions |
| Waiting.LastLeaves | grpclient/concurrency/key.go:66-70 | each successful wait makes the set of predecessors strictly smaller |
| Waiting.DeletedSince | grpclient/concurrency/key.go:68-68 | a watch from the revision of the query misses no end of the watched incarnation |
| Waiting.NobodyBetween | grpclient/concurrency/key.go:51-68 | no key is, or comes, between the watched key and the waiter's own place |
| Mutex.Mutex.constructor | grpclient/concurrency/mutex.go:36-38 | a new mutex |
| MutexSpec.WaitIsPath | grpclient/concurrency/key.go:55-71 | the course of a wait is a path of the machine's polls and deliveries |
| Mutex.Mutex.Join | grpclient/concurrency/mutex.go:46-68 | the first transaction stores the key if missing, and myRev is its create revision |
| Mutex.Mutex.Lock | grpclient/concurrency/mutex.go:42-90 | nil only with nobody older at the header's revision, hence first in line while the key lives; what a failed request or wait leaves; the key is the one KeyReadsBack describes; the call is a path of the member's steps |
| Mutex.Mutex.Unlock | grpclient/concurrency/mutex.go:92-100 | deletes the remembered key and forgets it, or changes nothing if the request fails; the member's step of that name |
| Mutex.Mutex.IsOwner | grpclient/concurrency/mutex.go:102-104 | the comparison holds exactly while the locked incarnation is present |
| MutexRuns.MutualExclusion | grpclient/concurrency/mutex.go:42-90 | in every run at most one mutex owns the lock, and its key is the oldest under the prefix |
| MutexRuns.NoOvertaking | grpclient/concurrency/mutex.go:78-80 | the owner is older than every waiting place |
| MutexRuns.LockTakesPlace | grpclient/concurrency/mutex.go:49-76 | Lock takes a place, with an empty value under the session's lease and everyone else ahead, or keeps the one it has, and returns at once if and only if it is first |
| MutexRuns.TurnComes | grpclient/concurrency/key.go:55-71 | a waiting mutex that has become first owns the lock after its own next delivery and poll |
| MutexRuns.WatchesNextInLine | grpclient/concurrency/key.go:66-68 | in every run nobody is in the line between the place a waiting mutex watches and its own |
| MutexRuns.OneIsWoken | grpclient/concurrency/key.go:51-68 | of the waiting mutexes that still have their place no two watch the same place, so a release wakes one |
| MutexRuns.UnlockTouchesOwnKeyOnly | grpclient/concurrency/mutex.go:92-100 | unlocking or giving up removes the session's own key and touches no other key at all, but for the one-byte zero key on a second Unlock |
| MutexRuns.OwnersInOrder | grpclient/concurrency/mutex.go:102-104 | over a whole run the create revisions of successive owners never decrease, and grow when the lock passes on |
| MutexLeases.OwnerWhileLeaseLasts | grpclient/concurrency/mutex.go:42-90 | in every run a mutex whose Lock returned nil owns the lock if and only if its session's lease has not expired since |
| MutexLeases.OneHolderWhileLeasesLast | grpclient/concurrency/mutex.go:42-90 | of the mutexes whose Lock returned nil and whose leases last there is at most one |
| MutexLeases.NilWithoutOwnership | grpclient/concurrency/mutex.go:78-90 | a run in which Lock returns nil and the lock is not owned |
| Election.Election.constructor | grpclient/concurrency/election.go:44-46 | a new election |
| Election.Election.Nominate | grpclient/concurrency/election.go:73-86 | the first transaction of Campaign and the fields it sets |
| Election.Election.Campaign | grpclient/concurrency/election.go:69-111 | nil only after the key held the value and nobody older was left, hence leader while the key lives; what each failure leaves; the key is the one KeyReadsBack describes; the call is a path of the candidate's steps |
| ElectionSpec.WaitIsPath | grpclient/concurrency/election.go:97-98 | the course of a candidate's wait is a path of the machine's polls and deliveries |
| Election.Election.Proclaim | grpclient/concurrency/election.go:114-134 | stores the value exactly if the remembered incarnation is present, else forgets the key; a failed request, as on a forgotten key, changes nothing; the candidate's step of that name |
| Election.Election.Resign | grpclient/concurrency/election.go:138-151 | deletes the key exactly if the remembered incarnation is present, and forgets it, even if the request fails, which leaves the header; the candidate's step of that name |
| Election.Election.Leader | grpclient/concurrency/election.go:155-165 | the first-created entry under the prefix, or no leader exactly if there is none, unless the request fails |
| ElectionRuns.OneLeader | grpclient/concurrency/election.go:62-68 | in every run at most one candidate is elected |
| ElectionRuns.LeaderStability | grpclient/concurrency/election.go:155-165 | whatever others do, while the winner's key lives Leader() answers it with its latest value |
| ElectionRuns.ProclaimIsFenced | grpclient/concurrency/election.go:114-134 | after a successful Campaign, Proclaim reaches the store if and only if the candidate is the elected leader, which it remains, its entry being the new value under its lease in the same incarnation |
| ElectionRuns.ResignIsFenced | grpclient/concurrency/election.go:138-151 | resigning removes the remembered incarnation of the candidate's own key if that is there, and nothing else |
| ElectionRuns.CampaignTakesPlace | grpclient/concurrency/election.go:73-95 | Campaign takes a place, with the value under the session's lease, or keeps the one it has, and proposes the value next if the key holds another |
| ElectionRuns.TurnComes | grpclient/concurrency/election.go:97-110 | a waiting candidate that has become first is elected, with the value it campaigned for, after its own next delivery and poll |
| ElectionRuns.WatchesNextInLine | grpclient/concurrency/key.go:66-68 | in every run nobody is in the line between the place a waiting candidate watches and its own |
| ElectionRuns.LeadersInOrder | grpclient/concurrency/election.go:69-111 | over a whole run the create revisions of successive leaders never decrease, and grow when the leadership passes on |
| ElectionLeases.ElectedWhileLeaseLasts | grpclient/concurrency/election.go:69-111 | in every run a candidate whose Campaign returned nil is the elected leader if and only if its session's lease has not expired since |
| ElectionLeases.NilWithoutElection | grpclient/concurrency/election.go:97-110 | a run in which Campaign returns nil and the candidate is not elected |
| Observe.Observe | grpclient/concurrency/election.go:180-260 | the posts are exactly what the observer has been told since it began, in order and without a gap: the leader each time it asked, the first put under an empty prefix, every value delivered for the leader up to its deletion, except what was pending when the context was done; every post was the first-created entry at some revision; consecutive posts are the next version of the same leader or a younger leader after the last version of the old one; up to date when it ends |
| Observe.LeadersInOrder | grpclient/concurrency/election.go:167-173 | create revisions of posted leaders never decrease and grow on a change of leader |
| Observe.NoVersionSkipped | grpclient/concurrency/election.go:233-256 | between posts of one leader no version of its entry is skipped |
| Observe.EveryVersionPosted | grpclient/concurrency/election.go:229-258 | every version of the observed leader's entry since its first post is among the posts, up to the revision accounted for |
| Observe.AwaitPut | grpclient/concurrency/election.go:195-217 | the first put on an empty prefix is the first in line at its own revision |
| Observe.PostEvents | grpclient/concurrency/election.go:239-256 | the events of a delivery are posted in order up to the deletion |
| Observe.Follow | grpclient/concurrency/election.go:229-258 | a leader is followed until its deletion |
| Connectivity.CountFits | grpclient/balancer/connectivity/connectivity.go:28-30 | a 64-bit counter can hold every possible recount |
| Connectivity.TransitionCounts | grpclient/balancer/connectivity/connectivity.go:53-64 | what a report does to the states changes each recount by the transition, and the wrapping difference lands exactly on the new recount |
| Connectivity.Recorder.RecordTransition | grpclient/balancer/connectivity/connectivity.go:49-74 | counters move by the transition; of any states the counters are right for, the current state is Ready if and only if some is Ready, Connecting if and only if none is Ready and some is Connecting, TransientFailure if and only if neither |
| RoundRobin.ExactShare | grpclient/balancer/picker/roundrobin.go:35-61 | how often each sub-connection comes up in m consecutive picks |
| RoundRobin.Fairness | grpclient/balancer/picker/roundrobin.go:35-61 | m/n times, rounded down or up |
| RoundRobin.FullTurn | grpclient/balancer/picker/roundrobin.go:35-61 | n consecutive picks are a permutation |
| RoundRobin.PickAt | grpclient/balancer/picker/roundrobin.go:43-48 | pick number j is j places after the cursor, round the end |
| RoundRobin.RoundRobinPicker.constructor | grpclient/balancer/picker/roundrobin.go:12-22 | holds each given sub-connection once |
| RoundRobin.RoundRobinPicker.Pick | grpclient/balancer/picker/roundrobin.go:35-61 | picks at the cursor, keeps it in range, and continues the sequence the fairness results are about |
| Balancer.Balancer.constructor | grpclient/balancer/balancer.go:52-75 | a new balancer satisfies all invariants |
| Balancer.Balancer.HandleResolvedAddrs | grpclient/balancer/balancer.go:113-150 | exactly the resolved addresses keep or get a sub-connection, except those gRPC refused; each new one is told to connect once; exactly the sub-connections of the other addresses are removed; repeating an update changes nothing |
| Balancer.Balancer.HandleSubConnStateChange | grpclient/balancer/balancer.go:153-190 | new maps, exact recorder, coherent picker and what gRPC is told; the address maps break if and only if a current sub-connection shuts down |
| Balancer.Balancer.ShutdownBreaksAddresses | grpclient/balancer/balancer.go:166-171 | the exact condition under which the address maps stay consistent |
| Balancer.Balancer.UpdatePicker | grpclient/balancer/balancer.go:192-211 | the new picker holds exactly the ready sub-connections of current addresses, or is the transient-failure one |
| Balancer.Balancer.Pick | grpclient/balancer/picker/roundrobin.go:35-61 | succeeds with a ready sub-connection whenever a current one is ready; fails transiently exactly in aggregate TransientFailure |
| Balancer.Run | grpclient/balancer/balancer.go:113-190 | for every sequence of updates, reports and calls, with Shutdown only of removed sub-connections: at every moment address maps, aggregate state and picker agree with the recorded states, and every event changes exactly what it should and gets the answer it should |
| Balancer.CallsServed | grpclient/balancer/picker/roundrobin.go:35-41 | in every run a call is refused only if no sub-connection of a current address is ready, and gets one recorded ready |
| Balancer.CallsRotate | grpclient/balancer/balancer.go:183-186 | in every run, while no sub-connection becomes ready or stops being ready, calls get the sub-connections in turn, whatever updates and other reports come between: the k-th call gets the one k places on |
| Balancer.UpdateExactly | grpclient/balancer/balancer.go:113-150 | in every run an update has gRPC remove exactly the sub-connections of addresses that are gone; the others keep theirs, each new one is unused before, idle and told to connect, and all else is unchanged |
| Balancer.ReportAggregates | grpclient/balancer/connectivity/connectivity.go:66-73 | in every run, after every report, the current state that gRPC is told, with the picker in use, is Ready, Connecting or TransientFailure exactly as the recorded states say |
| Balancer.ReportRebuilds | grpclient/balancer/balancer.go:183-211 | in every run a report rebuilds the picker exactly if readiness changes or TransientFailure begins or ends, for exactly the ready sub-connections of current addresses; any other leaves the rotation where it is |
| Balancer.AnnouncementStays | grpclient/balancer/balancer.go:153-190 | in every run updates, calls and reports about forgotten sub-connections leave the state and what gRPC was told alone |
| Balancer.AddressesOnlyByUpdate | grpclient/balancer/balancer.go:113-150 | in every run the current addresses change only by an update, to those it lists and gRPC did not refuse |

## Left out

- RunSTM: RPC errors are not modelled in the transaction object, only as steps of the whole-run machine. Nowhere is an error modelled whose transaction took effect at the server.
- RunSTM: the goroutine, the channel and the panics that carry errors out of the body.
- ReadCommitted has no commit guard; beyond repeatable reads and own writes nothing is claimed for it. Its commits take part in the runs as plain writes.
- ResumeElection, which starts from a leader key and revision given by the caller, and lockerMutex, a wrapper that panics on errors.
- Observe: one Go channel send is one post; nothing is said about how long a receiver waits.
- Session keep-alive and TTL timing: only that the keys of a lease disappear at an arbitrary step.
- Pick: the done callback, and the picker policies other than round robin, whose constructors panic.
- HandleResolvedAddrs: addresses are compared as plain values; the metadata of resolver.Address is not modelled.
- The resolver, the watch client and server, configuration, logging and generated code.
