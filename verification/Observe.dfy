/** Observing an election: a client follows the first key in the line and posts every value it sees. */
module Observe {
  import opened Store
  import opened Cluster
  import opened Queue
  import opened Waiting
  import opened Hearing

  // The entry stands unchanged at every revision from..to.
  ghost predicate Standing(h: History, kv: KV, from: nat, to: nat) {
    to <= |h| && forall r | from <= r < to :: Lookup(h[r], kv.key) == Some(kv)
  }

  // At some revision, no later than the header's, the entry was the first in line.
  ghost predicate Truthful(h: History, pfx: Key, p: Post) {
    p.rev < |h| && exists r | p.kv.modRev <= r <= p.rev :: IsFirstCreated(h[r], pfx, Some(p.kv))
  }

  // The same leader, in the same incarnation; the second post is the very next version of its entry.
  ghost predicate Renews(h: History, p: Post, q: Post) {
    && q.kv.key == p.kv.key && q.kv.createRev == p.kv.createRev && p.kv.modRev < q.kv.modRev
    && Standing(h, p.kv, p.kv.modRev, q.kv.modRev)
  }

  // A younger leader; the first post was the last version of its predecessor before its deletion.
  ghost predicate Replaces(h: History, p: Post, q: Post) {
    && p.kv.createRev < q.kv.createRev
    && exists d | p.kv.modRev < d <= q.rev :: Deleted(h, p.kv.key, d) && Standing(h, p.kv, p.kv.modRev, d)
  }

  ghost predicate LinkedAt(h: History, posts: seq<Post>, i: nat)
    requires 0 < i < |posts|
  {
    Renews(h, posts[i - 1], posts[i]) || Replaces(h, posts[i - 1], posts[i])
  }

  // What the observer guarantees about the list of its posts.
  ghost predicate Chain(h: History, pfx: Key, posts: seq<Post>) {
    && (forall i | 0 <= i < |posts| :: Truthful(h, pfx, posts[i]))
    && (forall i | 0 < i < |posts| :: LinkedAt(h, posts, i))
  }

  /** Along the posts the leader's create revision never decreases, and it grows whenever the leader changes. */
  lemma {:induction false} LeadersInOrder(h: History, pfx: Key, posts: seq<Post>, i: nat, j: nat)
    requires Chain(h, pfx, posts) && i < j < |posts|
    ensures posts[i].kv.createRev <= posts[j].kv.createRev
    ensures posts[i].kv.key != posts[j].kv.key ==> posts[i].kv.createRev < posts[j].kv.createRev
    ensures posts[i].kv.createRev == posts[j].kv.createRev ==> posts[i].kv.modRev < posts[j].kv.modRev
    decreases j
  {
    assert LinkedAt(h, posts, j);
    if i < j - 1 {
      LeadersInOrder(h, pfx, posts, i, j - 1);
    }
  }

  lemma SameLeaderRenewed(h: History, pfx: Key, posts: seq<Post>, i: nat, j: nat)
    requires Chain(h, pfx, posts) && i < j < |posts| && posts[i].kv.createRev == posts[j].kv.createRev
    ensures posts[i].kv.createRev == posts[j - 1].kv.createRev && Renews(h, posts[j - 1], posts[j])
  {
    assert LinkedAt(h, posts, j);
    if i < j - 1 {
      LeadersInOrder(h, pfx, posts, i, j - 1);
    }
  }

  /** While one leader is observed, no version of its entry is skipped between two posts. */
  lemma {:induction false} NoVersionSkipped(h: History, pfx: Key, posts: seq<Post>, i: nat, j: nat, r: nat)
    requires Valid(h) && Chain(h, pfx, posts) && i <= j < |posts|
    requires posts[i].kv.createRev == posts[j].kv.createRev
    requires posts[i].kv.modRev <= r < |h| && r < posts[j].kv.modRev
    ensures exists k | i <= k < j :: Lookup(h[r], posts[k].kv.key) == Some(posts[k].kv)
    decreases j
  {
    if i < j {
      SameLeaderRenewed(h, pfx, posts, i, j);
      if r < posts[j - 1].kv.modRev {
        NoVersionSkipped(h, pfx, posts, i, j - 1, r);
      }
    }
  }

  // ---------- Assumption on the other clients ----------

  ghost predicate DistinctSince(h: History, start: nat, pfx: Key) {
    forall r | start <= r < |h| :: DistinctCreates(h[r], pfx)
  }

  // Since the observation began every key under the prefix has had its own create revision, and the transactions
  // still to come store at most one key there each.
  ghost predicate OrderlyLine(h: History, bs: seq<Batch>, start: nat, pfx: Key) {
    start < |h| && DistinctSince(h, start, pfx) && forall i | 0 <= i < |bs| :: Orderly(pfx, bs[i])
  }

  lemma {:induction false} CommitAllOrderly(h: History, bs: seq<Batch>, start: nat, pfx: Key)
    requires Valid(h) && OrderlyLine(h, bs, start, pfx)
    ensures start < |CommitAll(h, bs)| && DistinctSince(CommitAll(h, bs), start, pfx)
    decreases |bs|
  {
    if bs != [] {
      CommitExtends(h, bs[0]);
      DistinctCreatesKept(h, pfx, bs[0]);
      CommitAllOrderly(Commit(h, bs[0]), bs[1..], start, pfx);
    }
  }

  lemma InterferedOrderly(h: History, bs: seq<Batch>, h': History, bs': seq<Batch>, start: nat, pfx: Key)
    requires Valid(h) && OrderlyLine(h, bs, start, pfx) && Interfered(h, bs, h', bs')
    ensures OrderlyLine(h', bs', start, pfx)
  {
    var n: nat :| FirstCommitted(h, bs, n, h', bs');
    CommitAllOrderly(h, bs[..n], start, pfx);
  }

  // ---------- Where the observer is ----------

  // Following the leader last posted, with every revision before `from` handled.
  ghost predicate Following(h: History, pfx: Key, posts: seq<Post>, from: nat) {
    && posts != [] && Chain(h, pfx, posts)
    && var kv := posts[|posts| - 1].kv;
       && 0 < kv.modRev < from <= |h|
       && Standing(h, kv, kv.modRev, from) && IsFirstCreated(h[from - 1], pfx, Some(kv))
  }

  // Between leaders: the one last posted was deleted at revision `d`.
  ghost predicate Between(h: History, pfx: Key, posts: seq<Post>, d: nat) {
    && Chain(h, pfx, posts)
    && (posts != [] ==>
          && Following(h, pfx, posts, d)
          && Deleted(h, posts[|posts| - 1].kv.key, d))
  }

  lemma ChainLater(h: History, h': History, pfx: Key, posts: seq<Post>)
    requires h <= h' && Chain(h, pfx, posts)
    ensures Chain(h', pfx, posts)
  {
    forall i | 0 <= i < |posts|
      ensures Truthful(h', pfx, posts[i])
    {
      var r :| posts[i].kv.modRev <= r <= posts[i].rev && IsFirstCreated(h[r], pfx, Some(posts[i].kv));
      assert h'[r] == h[r];
    }
    forall i | 0 < i < |posts|
      ensures LinkedAt(h', posts, i)
    {
      assert LinkedAt(h, posts, i);
      LinkLater(h, h', posts[i - 1], posts[i]);
    }
  }

  lemma LinkLater(h: History, h': History, p: Post, q: Post)
    requires h <= h' && (Renews(h, p, q) || Replaces(h, p, q))
    ensures Renews(h', p, q) || Replaces(h', p, q)
  {
    if !Renews(h, p, q) {
      var d :| p.kv.modRev < d <= q.rev && Deleted(h, p.kv.key, d) && Standing(h, p.kv, p.kv.modRev, d);
      assert Deleted(h', p.kv.key, d) && Standing(h', p.kv, p.kv.modRev, d);
    }
  }

  lemma FollowingLater(h: History, h': History, pfx: Key, posts: seq<Post>, from: nat)
    requires h <= h' && Following(h, pfx, posts, from)
    ensures Following(h', pfx, posts, from)
  {
    ChainLater(h, h', pfx, posts);
    assert h'[from - 1] == h[from - 1];
  }

  lemma BetweenLater(h: History, h': History, pfx: Key, posts: seq<Post>, d: nat)
    requires h <= h' && Between(h, pfx, posts, d)
    ensures Between(h', pfx, posts, d)
  {
    ChainLater(h, h', pfx, posts);
    if posts != [] {
      FollowingLater(h, h', pfx, posts, d);
    }
  }

  lemma ChainAppend(h: History, pfx: Key, posts: seq<Post>, q: Post)
    requires Chain(h, pfx, posts) && Truthful(h, pfx, q)
    requires posts != [] ==> Renews(h, posts[|posts| - 1], q) || Replaces(h, posts[|posts| - 1], q)
    ensures Chain(h, pfx, posts + [q])
  {
    var all := posts + [q];
    forall i | 0 < i < |all|
      ensures LinkedAt(h, all, i)
    {
      if i < |posts| {
        assert LinkedAt(h, posts, i);
      }
    }
  }

  // ---------- One event at a time ----------

  lemma {:induction false} StandsWithoutEvents(h: History, kv: KV, m: nat, a: nat, b: nat)
    requires Valid(h) && m < a <= b <= |h| && 0 < a && Standing(h, kv, m, a)
    requires forall r, e | a <= r < b :: !Happened(h, One(kv.key), r, e)
    ensures Standing(h, kv, m, b)
    decreases b
  {
    if a < b {
      StandsWithoutEvents(h, kv, m, a, b - 1);
      var r := b - 1;
      assert Lookup(h[r - 1], kv.key) == Some(kv);
      if Lookup(h[r], kv.key) != Some(kv) {
        ChangeIsAnEvent(h, kv.key, r);
      }
    }
  }

  lemma ChangeIsAnEvent(h: History, key: Key, r: nat)
    requires Valid(h) && 0 < r < |h| && Lookup(h[r - 1], key).Some? && Lookup(h[r], key) != Lookup(h[r - 1], key)
    ensures exists e :: Happened(h, One(key), r, e)
  {
    assert Transition(h[r - 1], h[r], r);
    var e := if key in h[r] then PutEvent(h[r][key]) else DeleteEvent(key, r);
    assert Happened(h, One(key), r, e);
  }

  // The first revision not covered by the first i events of a batch, and the revision of the next one.
  function Handled(evs: seq<Event>, from: nat, i: nat): nat
    requires i <= |evs|
  {
    if i == 0 then from else EventRev(evs[i - 1]) + 1
  }

  function Upcoming(evs: seq<Event>, to: nat, i: nat): nat
    requires i <= |evs|
  {
    if i < |evs| then EventRev(evs[i]) else to
  }

  lemma NothingBetweenEvents(h: History, key: Key, from: nat, to: nat, evs: seq<Event>, i: nat)
    requires 0 < from <= to <= |h| && Events(h, One(key), from, to, evs) && i <= |evs|
    ensures Handled(evs, from, i) <= Upcoming(evs, to, i)
    ensures forall r, e | Handled(evs, from, i) <= r < Upcoming(evs, to, i) :: !Happened(h, One(key), r, e)
  {
  }

  lemma FollowOn(h: History, pfx: Key, posts: seq<Post>, a: nat, b: nat)
    requires Valid(h) && Following(h, pfx, posts, a) && a <= b <= |h|
    requires var kv := posts[|posts| - 1].kv; forall r, e | a <= r < b :: !Happened(h, One(kv.key), r, e)
    ensures Following(h, pfx, posts, b)
  {
    var kv := posts[|posts| - 1].kv;
    StandsWithoutEvents(h, kv, kv.modRev, a, b);
    assert Lookup(h[b - 1], kv.key) == Some(kv);
    LeastStays(h, a - 1, b - 1, pfx, kv.key);
  }

  lemma PutFollows(h: History, pfx: Key, posts: seq<Post>, b: nat, q: Post)
    requires Valid(h) && Following(h, pfx, posts, b) && b <= q.rev < |h|
    requires Happened(h, One(posts[|posts| - 1].kv.key), b, PutEvent(q.kv))
    ensures Following(h, pfx, posts + [q], b + 1)
  {
    var p := posts[|posts| - 1];
    assert Lookup(h[b - 1], p.kv.key) == Some(p.kv);
    assert Transition(h[b - 1], h[b], b);
    LeastStays(h, b - 1, b, pfx, p.kv.key);
    assert Renews(h, p, q);
    assert IsFirstCreated(h[b], pfx, Some(q.kv));
    ChainAppend(h, pfx, posts, q);
  }

  lemma DeleteEnds(h: History, pfx: Key, posts: seq<Post>, b: nat)
    requires Following(h, pfx, posts, b) && b < |h|
    requires Happened(h, One(posts[|posts| - 1].kv.key), b, DeleteEvent(posts[|posts| - 1].kv.key, b))
    ensures Between(h, pfx, posts, b)
  {
  }

  lemma YoungerLeader(h: History, start: nat, pfx: Key, old': KV, d: nat, r: nat, kv: KV)
    requires Valid(h) && DistinctSince(h, start, pfx) && start < d <= r < |h|
    requires IsFirstCreated(h[d - 1], pfx, Some(old')) && Deleted(h, old'.key, d)
    requires IsFirstCreated(h[r], pfx, Some(kv))
    ensures old'.createRev < kv.createRev
  {
    RevisionBounds(h, d - 1, old'.key);
    if kv.createRev < d {
      SameIncarnation(h, d - 1, r, kv.key);
      if kv.createRev == old'.createRev {
        assert DistinctCreates(h[d - 1], pfx);
        assert kv.key == old'.key;
        SameIncarnation(h, d, r, kv.key);
      }
    }
  }

  lemma NewLeader(h: History, start: nat, pfx: Key, posts: seq<Post>, d: nat, r: nat, kv: KV)
    requires Valid(h) && DistinctSince(h, start, pfx) && r < |h|
    requires posts != [] ==> start < d <= r
    requires Between(h, pfx, posts, d) && IsFirstCreated(h[r], pfx, Some(kv))
    ensures Following(h, pfx, posts + [Post(r, kv)], r + 1)
  {
    var q := Post(r, kv);
    RevisionBounds(h, r, kv.key);
    forall s | kv.modRev <= s < r + 1
      ensures Lookup(h[s], kv.key) == Some(kv)
    {
      Steady(h, s, r, kv.key);
    }
    if posts != [] {
      var p := posts[|posts| - 1];
      YoungerLeader(h, start, pfx, p.kv, d, r, kv);
      assert Replaces(h, p, q);
    }
    ChainAppend(h, pfx, posts, q);
  }

  // ---------- Waiting for a first candidate ----------

  ghost predicate EmptyLine(h: History, pfx: Key, a: nat, b: nat) {
    b <= |h| && forall r, k | a <= r < b && k in h[r] :: !(pfx <= k)
  }

  lemma {:induction false} EmptyWithoutPuts(h: History, pfx: Key, a: nat, from: nat, b: nat)
    requires Valid(h) && 0 < a < from <= b <= |h| && EmptyLine(h, pfx, a, from)
    requires forall r, kv | from <= r < b :: !Happened(h, Prefix(pfx), r, PutEvent(kv))
    ensures EmptyLine(h, pfx, a, b)
    decreases b
  {
    if from < b {
      EmptyWithoutPuts(h, pfx, a, from, b - 1);
      var r := b - 1;
      forall k | k in h[r]
        ensures !(pfx <= k)
      {
        if pfx <= k {
          NewKeyIsAPut(h, pfx, r, k);
        }
      }
    }
  }

  lemma NewKeyIsAPut(h: History, pfx: Key, r: nat, k: Key)
    requires Valid(h) && 0 < r < |h| && pfx <= k && k in h[r] && k !in h[r - 1]
    ensures exists kv :: Happened(h, Prefix(pfx), r, PutEvent(kv))
  {
    assert Transition(h[r - 1], h[r], r);
    assert Happened(h, Prefix(pfx), r, PutEvent(h[r][k]));
  }

  lemma FirstPutLeads(h: History, pfx: Key, a: nat, r: nat, kv: KV)
    requires Valid(h) && 0 < a < r < |h| && EmptyLine(h, pfx, a, r)
    requires Happened(h, Prefix(pfx), r, PutEvent(kv))
    ensures IsFirstCreated(h[r], pfx, Some(kv)) && kv.createRev == r
  {
    assert Transition(h[r - 1], h[r], r);
    forall k | k in h[r] && pfx <= k
      ensures h[r][k].createRev == r
    {
      assert k !in h[r - 1];
    }
  }

  lemma NoPutBefore(h: History, pfx: Key, from: nat, to: nat, evs: seq<Event>, i: nat)
    requires 0 < from <= to <= |h| && Events(h, Prefix(pfx), from, to, evs) && i <= |evs|
    requires forall j | 0 <= j < i :: evs[j].DeleteEvent?
    ensures Upcoming(evs, to, i) <= to
    ensures forall r, kv | from <= r < Upcoming(evs, to, i) :: !Happened(h, Prefix(pfx), r, PutEvent(kv))
  {
  }

  // ---------- Why it ends, and what has been posted then ----------

  // Every revision before `n` is accounted for: the last post is the leader's newest version, or its leader is
  // gone and nobody has entered the line since it was looked at.
  ghost predicate UpToDate(h: History, pfx: Key, start: nat, posts: seq<Post>, n: nat) {
    || Following(h, pfx, posts, n)
    || exists d: nat, a: nat | d <= a < n :: start <= a && Between(h, pfx, posts, d) && EmptyLine(h, pfx, a, n)
  }

  // Revision `n` is past everything delivered; or the last leader came with the last delivery, and the watch on
  // its key has brought nothing yet.
  ghost predicate PastDeliveries(posts: seq<Post>, handedFrom: nat, handedTo: nat, n: nat) {
    || handedTo <= n
    || (posts != [] && handedFrom < n && var p := posts[|posts| - 1]; p.kv.createRev == p.rev == n - 1)
  }

  // Nothing delivered is missing among the posts, except the pending one; if the next leader could not be asked
  // for, the last delivery has brought the deletion of the previous one.
  ghost predicate Complete(h: History, pfx: Key, start: nat, handedFrom: nat, handedTo: nat,
                           posts: seq<Post>, ending: Ending)
  {
    match ending
    case WatchOver =>
      exists n | start < n <= |h| :: UpToDate(h, pfx, start, posts, n) && PastDeliveries(posts, handedFrom, handedTo, n)
    case Cancelled(p) =>
      exists n | start < n <= |h| :: handedFrom < n && Following(h, pfx, posts + [p], n)
    case GetFailed =>
      posts == [] || exists d | start < d < |h| :: handedFrom <= d && Between(h, pfx, posts, d)
  }

  // What the caller can tell of why it ended.
  predicate Shown(c: Cluster, ending: Ending)
    reads c
  {
    match ending
    case WatchOver => c.ctxDone || c.lost
    case Cancelled(_) => c.ctxDone
    case GetFailed => c.failed
  }

  // No such thing has happened since.
  twostate predicate Undisturbed(c: Cluster)
    reads c
  {
    c.ctxDone == old(c.ctxDone) && c.lost == old(c.lost) && c.failed == old(c.failed)
  }

  /** While the observer follows a leader, every version its entry has had since its first post is among the posts,
      up to the revision that is accounted for. */
  lemma {:induction false} EveryVersionPosted(h: History, pfx: Key, posts: seq<Post>, n: nat, i: nat, r: nat)
    requires Valid(h) && Following(h, pfx, posts, n) && i < |posts|
    requires posts[i].kv.createRev == posts[|posts| - 1].kv.createRev && posts[i].kv.modRev <= r < n
    ensures exists k | i <= k < |posts| :: Lookup(h[r], posts[k].kv.key) == Some(posts[k].kv)
  {
    var last := |posts| - 1;
    if r < posts[last].kv.modRev {
      NoVersionSkipped(h, pfx, posts, i, last, r);
    } else {
      assert Lookup(h[r], posts[last].kv.key) == Some(posts[last].kv);
    }
  }

  lemma FollowingComplete(h: History, pfx: Key, start: nat, handedFrom: nat, handedTo: nat, posts: seq<Post>, n: nat)
    requires Following(h, pfx, posts, n) && start < n && PastDeliveries(posts, handedFrom, handedTo, n)
    ensures Complete(h, pfx, start, handedFrom, handedTo, posts, WatchOver)
  {
    assert UpToDate(h, pfx, start, posts, n);
  }

  lemma IdleComplete(h: History, pfx: Key, start: nat, handedFrom: nat, handedTo: nat, posts: seq<Post>,
                     d: nat, a: nat, n: nat)
    requires Between(h, pfx, posts, d) && EmptyLine(h, pfx, a, n) && d <= a < n <= |h| && start <= a && handedTo <= n
    ensures Complete(h, pfx, start, handedFrom, handedTo, posts, WatchOver)
  {
    assert UpToDate(h, pfx, start, posts, n);
  }

  lemma PendingComplete(h: History, pfx: Key, start: nat, handedFrom: nat, handedTo: nat, posts: seq<Post>,
                        p: Post, n: nat)
    requires Following(h, pfx, posts + [p], n) && start < n && handedFrom < n
    ensures Complete(h, pfx, start, handedFrom, handedTo, posts, Cancelled(p))
  {
  }

  // ---------- Looking for a leader ----------

  // Watches the prefix from the revision at which it was empty until the first put, or until the end of the watch,
  // with the line empty up to `upto`.
  method AwaitPut(c: Cluster, pfx: Key, rev: nat, ghost log0: Log, ghost posts: seq<Post>)
    returns (found: bool, kv: KV, ghost upto: nat)
    requires Valid(c.hist) && 0 < rev < |c.hist| && EmptyLine(c.hist, pfx, rev, rev + 1)
    requires c.DeliveredPast() && c.handedTo <= rev + 1
    requires Listens(pfx, c.told, log0, Expecting(rev), posts)
    modifies c
    ensures Interfered(old(c.hist), old(c.others), c.hist, c.others) && Valid(c.hist) && c.DeliveredPast()
    ensures if found then Undisturbed(c) else Shown(c, WatchOver)
    ensures found ==>
      && rev < kv.modRev < |c.hist| && IsFirstCreated(c.hist[kv.modRev], pfx, Some(kv))
      && kv.createRev == kv.modRev && c.handedFrom <= kv.modRev
    ensures !found ==> rev < upto <= |c.hist| && c.handedTo <= upto && EmptyLine(c.hist, pfx, rev, upto)
    ensures if found then Spotted(pfx, c.told, log0, posts, Post(kv.modRev, kv))
            else NothingMissed(pfx, c.told, log0, posts, WatchOver)
  {
    var from := rev;
    upto := rev + 1;
    InterferedReflexive(c.hist, c.others);
    while true
      invariant Interfered(old(c.hist), old(c.others), c.hist, c.others) && Valid(c.hist)
      invariant rev <= from <= upto <= |c.hist| && upto == (if from == rev then rev + 1 else from)
      invariant EmptyLine(c.hist, pfx, rev, upto) && c.DeliveredPast() && c.handedTo <= upto
      invariant Undisturbed(c) && Listens(pfx, c.told, log0, Expecting(from), posts)
      decreases |c.hist| + |c.others| - from
    {
      ghost var h, bs := c.hist, c.others;
      var awaited := AwaitOnce(c, pfx, rev, from, log0, posts);
      InterferedExtends(h, bs, c.hist, c.others);
      InterferedTransitive(old(c.hist), old(c.others), h, bs, c.hist, c.others);
      match awaited {
        case Closed => return false, KV("", "", 0, 0, 0), upto;
        case FirstPutOf(first) => return true, first, upto;
        case OnlyDeletes(to) => from, upto := to, to;
      }
    }
  }

  datatype Awaited = FirstPutOf(kv: KV) | OnlyDeletes(to: nat) | Closed

  // The next delivery under the empty prefix.
  method AwaitOnce(c: Cluster, pfx: Key, ghost rev: nat, from: nat, ghost log0: Log, ghost posts: seq<Post>)
    returns (awaited: Awaited)
    requires Valid(c.hist) && 0 < rev <= from <= |c.hist| && rev < |c.hist| && c.DeliveredPast()
    requires EmptyLine(c.hist, pfx, rev, if from == rev then rev + 1 else from)
    requires Listens(pfx, c.told, log0, Expecting(from), posts)
    modifies c
    ensures Interfered(old(c.hist), old(c.others), c.hist, c.others) && Valid(c.hist) && c.DeliveredPast()
    ensures if awaited.Closed? then Shown(c, WatchOver) else Undisturbed(c)
    ensures match awaited
            case FirstPutOf(kv) =>
              && rev < kv.modRev < |c.hist| && IsFirstCreated(c.hist[kv.modRev], pfx, Some(kv))
              && kv.createRev == kv.modRev && c.handedFrom <= kv.modRev
              && Spotted(pfx, c.told, log0, posts, Post(kv.modRev, kv))
            case OnlyDeletes(to) =>
              && from < to <= |c.hist| && c.handedTo == to && EmptyLine(c.hist, pfx, rev, to)
              && Listens(pfx, c.told, log0, Expecting(to), posts)
            case Closed =>
              && c.handedTo == old(c.handedTo) && EmptyLine(c.hist, pfx, rev, if from == rev then rev + 1 else from)
              && NothingMissed(pfx, c.told, log0, posts, WatchOver)
  {
    var open, to, header, evs := c.Next(Prefix(pfx), from);
    InterferedExtends(old(c.hist), old(c.others), c.hist, c.others);
    if !open {
      WatchEndsComplete(pfx, c.told, log0, Expecting(from), posts);
      return Closed;
    }
    PrefixHeard(pfx, old(c.told), log0, posts, from, to, header, evs);
    var i := IndexOfPut(evs);
    NoPutBefore(c.hist, pfx, from, to, evs, i);
    if i < |evs| {
      StillEmpty(old(c.hist), c.hist, pfx, rev, from, evs[i].kv.modRev, evs[i].kv);
      return FirstPutOf(evs[i].kv);
    }
    EmptyLater(old(c.hist), c.hist, pfx, rev, from, to);
    return OnlyDeletes(to);
  }

  // The index of the first put among the events of a delivery.
  method IndexOfPut(evs: seq<Event>) returns (i: nat)
    ensures i == FirstPut(evs, 0) && forall j | 0 <= j < i :: evs[j].DeleteEvent?
  {
    for k := 0 to |evs|
      invariant FirstPut(evs, 0) == FirstPut(evs, k) && forall j | 0 <= j < k :: evs[j].DeleteEvent?
    {
      if evs[k].PutEvent? {
        return k;
      }
    }
    return |evs|;
  }

  lemma EmptyLater(h: History, h': History, pfx: Key, a: nat, from: nat, b: nat)
    requires Valid(h') && h <= h' && 0 < a <= from < b <= |h'| && a < |h|
    requires EmptyLine(h, pfx, a, if from == a then a + 1 else from)
    requires forall r, kv | from <= r < b :: !Happened(h', Prefix(pfx), r, PutEvent(kv))
    ensures EmptyLine(h', pfx, a, b)
  {
    var done := if from == a then a + 1 else from;
    assert forall r | a <= r < done :: h'[r] == h[r];
    EmptyWithoutPuts(h', pfx, a, done, b);
  }

  lemma StillEmpty(h: History, h': History, pfx: Key, a: nat, from: nat, r: nat, kv: KV)
    requires Valid(h') && h <= h' && 0 < a <= from <= r < |h'| && a < |h|
    requires EmptyLine(h, pfx, a, if from == a then a + 1 else from)
    requires forall q, e | from <= q < r :: !Happened(h', Prefix(pfx), q, PutEvent(e))
    requires Happened(h', Prefix(pfx), r, PutEvent(kv))
    ensures a < r && IsFirstCreated(h'[r], pfx, Some(kv)) && kv.createRev == r
  {
    assert forall q | a <= q < |h| :: h'[q] == h[q];
    if from < r {
      EmptyLater(h, h', pfx, a, from, r);
    }
    FirstPutLeads(h', pfx, a, r, kv);
  }

  // ---------- Following a leader ----------

  datatype Progress = AllPosted | KeyDeleted(d: nat) | Ended(ending: Ending)

  // The context was done before a post that is past revision `from`.
  ghost predicate Interrupted(h: History, pfx: Key, posts: seq<Post>, ending: Ending, from: nat) {
    ending.Cancelled? && exists n | from < n <= |h| :: Following(h, pfx, posts + [ending.pending], n)
  }

  lemma InterruptedComplete(h: History, pfx: Key, start: nat, handedTo: nat, posts: seq<Post>,
                            ending: Ending, from: nat)
    requires Interrupted(h, pfx, posts, ending, from) && start <= from
    ensures Complete(h, pfx, start, from, handedTo, posts, ending)
  {
    var n :| from < n <= |h| && Following(h, pfx, posts + [ending.pending], n);
    PendingComplete(h, pfx, start, from, handedTo, posts, ending.pending, n);
  }

  function LastKey(posts: seq<Post>): Key {
    if posts == [] then "" else posts[|posts| - 1].kv.key
  }

  // In the middle of a watch delivery: its first i events have been handled.
  ghost predicate Delivering(h: History, pfx: Key, posts: seq<Post>, from: nat, to: nat, evs: seq<Event>, i: nat) {
    && Valid(h) && 0 < from < to <= |h| && i <= |evs|
    && Following(h, pfx, posts, Handled(evs, from, i))
    && Events(h, One(posts[|posts| - 1].kv.key), from, to, evs)
  }

  // Posts the i-th value of a watch delivery, unless it is the leader's deletion or the context is done.
  method PostEvent(c: Cluster, pfx: Key, posted: seq<Post>, ghost from: nat, ghost to: nat,
                   header: nat, evs: seq<Event>, i: nat)
    returns (progress: Progress, posts: seq<Post>)
    requires Delivering(c.hist, pfx, posted, from, to, evs, i) && i < |evs| && to <= header + 1 <= |c.hist|
    modifies c`ctxDone
    ensures Chain(c.hist, pfx, posts)
    ensures progress.AllPosted? ==> Delivering(c.hist, pfx, posts, from, to, evs, i + 1)
    ensures progress.KeyDeleted? ==> from <= progress.d < |c.hist| && Between(c.hist, pfx, posts, progress.d)
    ensures progress.Ended? ==> Interrupted(c.hist, pfx, posts, progress.ending, from)
    ensures if progress.Ended? then c.ctxDone else c.ctxDone == old(c.ctxDone)
    ensures progress.KeyDeleted? <==> evs[i].DeleteEvent?
    ensures progress.AllPosted? ==> posts == posted + [Post(header, evs[i].kv)] && evs[i].kv.key == LastKey(posted)
    ensures !progress.AllPosted? ==> posts == posted
    ensures progress.Ended? ==> progress.ending == Cancelled(Post(header, evs[i].kv))
  {
    var e := evs[i];
    if e.DeleteEvent? {
      EventEnds(c.hist, pfx, posted, from, to, evs, i);
      return KeyDeleted(EventRev(e)), posted;
    }
    EventFollows(c.hist, pfx, posted, from, to, evs, i, Post(header, e.kv));
    var done := c.Cancelled();
    if done {
      return Ended(Cancelled(Post(header, e.kv))), posted;
    }
    return AllPosted, posted + [Post(header, e.kv)];
  }

  // The leader last posted still stands when the next event comes.
  lemma ReachEvent(h: History, pfx: Key, posts: seq<Post>, from: nat, to: nat, evs: seq<Event>, i: nat)
    requires Delivering(h, pfx, posts, from, to, evs, i)
    ensures Upcoming(evs, to, i) <= |h| && Following(h, pfx, posts, Upcoming(evs, to, i))
    ensures i < |evs| ==>
      from <= EventRev(evs[i]) < to && Happened(h, One(posts[|posts| - 1].kv.key), EventRev(evs[i]), evs[i])
  {
    NothingBetweenEvents(h, posts[|posts| - 1].kv.key, from, to, evs, i);
    FollowOn(h, pfx, posts, Handled(evs, from, i), Upcoming(evs, to, i));
  }

  lemma EventEnds(h: History, pfx: Key, posts: seq<Post>, from: nat, to: nat, evs: seq<Event>, i: nat)
    requires Delivering(h, pfx, posts, from, to, evs, i) && i < |evs| && evs[i].DeleteEvent?
    ensures from <= EventRev(evs[i]) < |h| && Between(h, pfx, posts, EventRev(evs[i]))
  {
    ReachEvent(h, pfx, posts, from, to, evs, i);
    DeleteEnds(h, pfx, posts, EventRev(evs[i]));
  }

  lemma EventFollows(h: History, pfx: Key, posts: seq<Post>, from: nat, to: nat, evs: seq<Event>, i: nat, q: Post)
    requires Delivering(h, pfx, posts, from, to, evs, i) && i < |evs|
    requires evs[i] == PutEvent(q.kv) && to <= q.rev + 1 <= |h|
    ensures Delivering(h, pfx, posts + [q], from, to, evs, i + 1)
    ensures Interrupted(h, pfx, posts, Cancelled(q), from)
  {
    ReachEvent(h, pfx, posts, from, to, evs, i);
    PutFollows(h, pfx, posts, EventRev(evs[i]), q);
    assert Handled(evs, from, i + 1) == q.kv.modRev + 1;
  }

  // The puts of the delivery up to the deletion have been posted, or those before the pending one.
  ghost predicate PutsPosted(posted: seq<Post>, header: nat, evs: seq<Event>, progress: Progress, posts: seq<Post>) {
    var puts := PutsFrom(header, evs, 0);
    match progress
    case AllPosted => posts == posted + puts && !Gone(evs) && LastKey(posts) == LastKey(posted)
    case KeyDeleted(_) => posts == posted + puts && Gone(evs)
    case Ended(ending) => ending.Cancelled? && posted <= posts && posts + [ending.pending] <= posted + puts
  }

  // The first i events of the delivery were puts, and have been posted.
  ghost predicate Underway(posted: seq<Post>, header: nat, evs: seq<Event>, i: nat, posts: seq<Post>) {
    && i <= |evs| && (forall j | 0 <= j < i :: evs[j].PutEvent?)
    && posted <= posts && LastKey(posts) == LastKey(posted)
    && posts + PutsFrom(header, evs, i) == posted + PutsFrom(header, evs, 0)
  }

  lemma UnderwayStep(posted: seq<Post>, header: nat, evs: seq<Event>, i: nat, before: seq<Post>,
                     progress: Progress, posts: seq<Post>)
    requires Underway(posted, header, evs, i, before) && i < |evs|
    requires progress.KeyDeleted? <==> evs[i].DeleteEvent?
    requires progress.AllPosted? ==>
      posts == before + [Post(header, evs[i].kv)] && evs[i].kv.key == LastKey(before)
    requires !progress.AllPosted? ==> posts == before
    requires progress.Ended? ==> progress.ending == Cancelled(Post(header, evs[i].kv))
    ensures if progress.AllPosted? then Underway(posted, header, evs, i + 1, posts)
            else PutsPosted(posted, header, evs, progress, posts)
  {
    if progress.KeyDeleted? {
      PutsDone(before, header, evs, i);
    } else {
      PutsNext(before, header, evs, i);
    }
  }

  lemma UnderwayEnds(posted: seq<Post>, header: nat, evs: seq<Event>, posts: seq<Post>)
    requires Underway(posted, header, evs, |evs|, posts)
    ensures PutsPosted(posted, header, evs, AllPosted, posts)
  {
    PutsDone(posts, header, evs, |evs|);
  }

  // Where the observer is after a step of following a leader.
  ghost predicate Attends(pfx: Key, told: Log, log0: Log, progress: Progress, posts: seq<Post>, from: nat) {
    match progress
    case AllPosted => Listens(pfx, told, log0, On(LastKey(posts), from), posts)
    case KeyDeleted(_) => Listens(pfx, told, log0, Inquiring, posts)
    case Ended(ending) => NothingMissed(pfx, told, log0, posts, ending)
  }

  lemma DeliveryAttended(pfx: Key, told: Log, log0: Log, posted: seq<Post>, from: nat, to: nat, header: nat,
                         evs: seq<Event>, progress: Progress, posts: seq<Post>)
    requires Listens(pfx, told, log0, On(LastKey(posted), from), posted)
    requires PutsPosted(posted, header, evs, progress, posts)
    ensures Attends(pfx, Then(told, Delivery(One(LastKey(posted)), from, to, header, evs)), log0, progress, posts, to)
  {
    var key := LastKey(posted);
    ListensOn(pfx, told, log0, On(key, from), posted, Delivery(One(key), from, to, header, evs));
  }

  // Posts the values of one watch delivery.
  method PostEvents(c: Cluster, pfx: Key, posted: seq<Post>, ghost from: nat, ghost to: nat,
                    header: nat, evs: seq<Event>)
    returns (progress: Progress, posts: seq<Post>)
    requires Delivering(c.hist, pfx, posted, from, to, evs, 0) && to <= header + 1 <= |c.hist|
    modifies c`ctxDone
    ensures Chain(c.hist, pfx, posts)
    ensures progress.AllPosted? ==> Following(c.hist, pfx, posts, to)
    ensures progress.KeyDeleted? ==> from <= progress.d < |c.hist| && Between(c.hist, pfx, posts, progress.d)
    ensures progress.Ended? ==> Interrupted(c.hist, pfx, posts, progress.ending, from)
    ensures if progress.Ended? then c.ctxDone else c.ctxDone == old(c.ctxDone)
    ensures PutsPosted(posted, header, evs, progress, posts)
  {
    posts := posted;
    for i := 0 to |evs|
      invariant c.ctxDone == old(c.ctxDone) && Chain(c.hist, pfx, posts)
      invariant Underway(posted, header, evs, i, posts)
      invariant Delivering(c.hist, pfx, posts, from, to, evs, i)
    {
      ghost var before := posts;
      progress, posts := PostEvent(c, pfx, posts, from, to, header, evs, i);
      UnderwayStep(posted, header, evs, i, before, progress, posts);
      if !progress.AllPosted? {
        return;
      }
    }
    UnderwayEnds(posted, header, evs, posts);
    ReachEvent(c.hist, pfx, posts, from, to, evs, |evs|);
    progress := AllPosted;
  }

  // Posts every new value of the leader until its key is deleted.
  method Follow(c: Cluster, pfx: Key, posted: seq<Post>, rev: nat, ghost start: nat, ghost log0: Log)
    returns (progress: Progress, posts: seq<Post>)
    requires Valid(c.hist) && Following(c.hist, pfx, posted, rev) && start < rev
    requires Listens(pfx, c.told, log0, On(LastKey(posted), rev), posted)
    requires PastDeliveries(posted, c.handedFrom, c.handedTo, rev) && c.DeliveredPast()
    modifies c
    ensures Interfered(old(c.hist), old(c.others), c.hist, c.others) && Valid(c.hist) && c.DeliveredPast()
    ensures !progress.AllPosted? && Chain(c.hist, pfx, posts)
    ensures progress.KeyDeleted? ==> rev <= progress.d < |c.hist| && Between(c.hist, pfx, posts, progress.d)
    ensures progress.Ended? ==> Complete(c.hist, pfx, start, c.handedFrom, c.handedTo, posts, progress.ending)
    ensures if progress.Ended? then Shown(c, progress.ending) else Undisturbed(c)
    ensures progress.KeyDeleted? ==> c.handedFrom <= progress.d
    ensures Attends(pfx, c.told, log0, progress, posts, 0)
  {
    var from := rev;
    posts := posted;
    InterferedReflexive(c.hist, c.others);
    while true
      invariant Interfered(old(c.hist), old(c.others), c.hist, c.others) && Valid(c.hist) && c.DeliveredPast()
      invariant rev <= from && Following(c.hist, pfx, posts, from)
      invariant PastDeliveries(posts, c.handedFrom, c.handedTo, from)
      invariant Undisturbed(c) && Listens(pfx, c.told, log0, On(LastKey(posts), from), posts)
      decreases |c.hist| + |c.others| - from
    {
      ghost var h, bs := c.hist, c.others;
      progress, posts, from := FollowOnce(c, pfx, posts, from, start, log0);
      InterferedExtends(h, bs, c.hist, c.others);
      InterferedTransitive(old(c.hist), old(c.others), h, bs, c.hist, c.others);
      if !progress.AllPosted? {
        return;
      }
    }
  }

  // Posts the values of the next watch delivery.
  method FollowOnce(c: Cluster, pfx: Key, posted: seq<Post>, from: nat, ghost start: nat, ghost log0: Log)
    returns (progress: Progress, posts: seq<Post>, to: nat)
    requires Valid(c.hist) && Following(c.hist, pfx, posted, from) && start < from
    requires Listens(pfx, c.told, log0, On(LastKey(posted), from), posted)
    requires PastDeliveries(posted, c.handedFrom, c.handedTo, from) && c.DeliveredPast()
    modifies c
    ensures Interfered(old(c.hist), old(c.others), c.hist, c.others) && Valid(c.hist) && c.DeliveredPast()
    ensures Chain(c.hist, pfx, posts)
    ensures progress.AllPosted? ==> from < to == c.handedTo && Following(c.hist, pfx, posts, to)
    ensures progress.KeyDeleted? ==> from <= progress.d < |c.hist| && Between(c.hist, pfx, posts, progress.d)
    ensures progress.Ended? ==> Complete(c.hist, pfx, start, c.handedFrom, c.handedTo, posts, progress.ending)
    ensures if progress.Ended? then Shown(c, progress.ending) else Undisturbed(c)
    ensures progress.KeyDeleted? ==> c.handedFrom <= progress.d
    ensures Attends(pfx, c.told, log0, progress, posts, to)
  {
    var open, header, evs;
    open, to, header, evs := c.Next(One(LastKey(posted)), from);
    InterferedExtends(old(c.hist), old(c.others), c.hist, c.others);
    FollowingLater(old(c.hist), c.hist, pfx, posted, from);
    if !open {
      FollowingComplete(c.hist, pfx, start, c.handedFrom, c.handedTo, posted, from);
      WatchEndsComplete(pfx, c.told, log0, On(LastKey(posted), from), posted);
      return Ended(WatchOver), posted, to;
    }
    progress, posts := PostEvents(c, pfx, posted, from, to, header, evs);
    DeliveryAttended(pfx, old(c.told), log0, posted, from, to, header, evs, progress, posts);
    if progress.Ended? {
      InterruptedComplete(c.hist, pfx, start, c.handedTo, posts, progress.ending, from);
    }
  }

  // ---------- From leader to leader ----------

  datatype Sought = Leader(p: Post) | Idle | Unanswered

  // How the observation ends if it does now.
  function EndingOf(sought: Sought): Ending {
    match sought
    case Leader(p) => Cancelled(p)
    case Idle => WatchOver
    case Unanswered => GetFailed
  }

  // What has been heard of a leader.
  ghost predicate HeardOf(pfx: Key, told: Log, log0: Log, posts: seq<Post>, sought: Sought) {
    && NothingMissed(pfx, told, log0, posts, EndingOf(sought))
    && (sought.Leader? ==> Listens(pfx, told, log0, On(sought.p.kv.key, sought.p.rev + 1), posts + [sought.p]))
  }

  // Asks who leads.
  method Ask(c: Cluster, pfx: Key, ghost log0: Log, ghost posts: seq<Post>) returns (answered: bool, resp: GetResp)
    requires Valid(c.hist) && Listens(pfx, c.told, log0, Inquiring, posts)
    modifies c`hist, c`others, c`failed, c`told
    ensures Interfered(old(c.hist), old(c.others), c.hist, c.others) && Valid(c.hist)
    ensures if answered then Undisturbed(c) else c.failed && c.hist == old(c.hist)
    ensures answered ==> resp.rev == Revision(c.hist) && IsFirstCreated(Current(c.hist), pfx, resp.kv)
    ensures if !answered then HeardOf(pfx, c.told, log0, posts, Unanswered)
            else if resp.kv.Some? then HeardOf(pfx, c.told, log0, posts, Leader(Post(resp.rev, resp.kv.value)))
            else Listens(pfx, c.told, log0, Expecting(resp.rev), posts)
  {
    InterferedReflexive(c.hist, c.others);
    resp := GetResp(0, None);
    answered := c.Accepts(pfx);
    if !answered {
      WatchEndsComplete(pfx, c.told, log0, Inquiring, posts);
      return;
    }
    resp := c.GetFirstCreated(pfx);
    AnswerHeard(pfx, old(c.told), log0, posts, resp);
    if resp.kv.Some? {
      SpottedIsPending(pfx, c.told, log0, posts, Post(resp.rev, resp.kv.value));
    }
  }

  // The leader to post next and the revision at which it is known to lead; or the end of the watch, with the line
  // empty from `a` up to `upto`.
  method Seek(c: Cluster, pfx: Key, ghost log0: Log, ghost posts: seq<Post>)
    returns (sought: Sought, ghost a: nat, ghost upto: nat)
    requires Valid(c.hist) && c.DeliveredPast() && Listens(pfx, c.told, log0, Inquiring, posts)
    modifies c
    ensures Interfered(old(c.hist), old(c.others), c.hist, c.others) && Valid(c.hist) && c.DeliveredPast()
    ensures sought.Leader? ==>
      && Undisturbed(c)
      && Revision(old(c.hist)) <= sought.p.rev < |c.hist|
      && IsFirstCreated(c.hist[sought.p.rev], pfx, Some(sought.p.kv))
      && (c.handedTo <= sought.p.rev + 1 || c.handedFrom <= sought.p.kv.createRev == sought.p.rev)
    ensures sought.Idle? ==>
      && Shown(c, WatchOver)
      && Revision(old(c.hist)) <= a < upto <= |c.hist| && c.handedTo <= upto && EmptyLine(c.hist, pfx, a, upto)
    ensures sought.Unanswered? ==> Shown(c, GetFailed) && c.handedFrom == old(c.handedFrom) && c.hist == old(c.hist)
    ensures HeardOf(pfx, c.told, log0, posts, sought)
  {
    var answered, resp := Ask(c, pfx, log0, posts);
    InterferedExtends(old(c.hist), old(c.others), c.hist, c.others);
    if !answered {
      return Unanswered, 0, 0;
    }
    if resp.kv.Some? {
      return Leader(Post(resp.rev, resp.kv.value)), 0, 0;
    }
    ghost var h, bs := c.hist, c.others;
    a := resp.rev;
    var found, kv;
    found, kv, upto := AwaitPut(c, pfx, resp.rev, log0, posts);
    InterferedExtends(h, bs, c.hist, c.others);
    InterferedTransitive(old(c.hist), old(c.others), h, bs, c.hist, c.others);
    if found {
      SpottedIsPending(pfx, c.told, log0, posts, Post(kv.modRev, kv));
    }
    sought := if found then Leader(Post(kv.modRev, kv)) else Idle;
  }

  // Between two leaders, or before the first, in an observation that began at revision `start`.
  ghost predicate Seeking(h: History, bs: seq<Batch>, pfx: Key, start: nat, handedFrom: nat, posts: seq<Post>, d: nat) {
    && Valid(h) && OrderlyLine(h, bs, start, pfx) && d < |h| && start <= d
    && (posts != [] ==> start < d && handedFrom <= d)
    && Between(h, pfx, posts, d)
  }

  // Finds the next leader, if nothing ends the observation.
  method NextLeader(c: Cluster, pfx: Key, posted: seq<Post>, ghost start: nat, ghost d: nat, ghost log0: Log)
    returns (sought: Sought)
    requires Seeking(c.hist, c.others, pfx, start, c.handedFrom, posted, d) && c.DeliveredPast()
    requires Listens(pfx, c.told, log0, Inquiring, posted)
    modifies c
    ensures Interfered(old(c.hist), old(c.others), c.hist, c.others)
    ensures Valid(c.hist) && OrderlyLine(c.hist, c.others, start, pfx) && c.DeliveredPast()
    ensures if sought.Leader? then Undisturbed(c) else Shown(c, EndingOf(sought))
    ensures SoughtOk(c.hist, pfx, start, c.handedFrom, c.handedTo, posted, d, sought)
    ensures HeardOf(pfx, c.told, log0, posted, sought)
  {
    ghost var a, upto;
    sought, a, upto := Seek(c, pfx, log0, posted);
    InterferedExtends(old(c.hist), old(c.others), c.hist, c.others);
    InterferedOrderly(old(c.hist), old(c.others), c.hist, c.others, start, pfx);
    BetweenLater(old(c.hist), c.hist, pfx, posted, d);
    match sought {
      case Leader(p) => FoundLeader(c.hist, pfx, start, c.handedFrom, c.handedTo, posted, d, p);
      case Idle => IdleComplete(c.hist, pfx, start, c.handedFrom, c.handedTo, posted, d, a, upto);
      case Unanswered =>
    }
  }

  // What the outcome of looking for a leader means.
  ghost predicate SoughtOk(h: History, pfx: Key, start: nat, handedFrom: nat, handedTo: nat, posts: seq<Post>,
                           d: nat, sought: Sought)
  {
    && Chain(h, pfx, posts) && Complete(h, pfx, start, handedFrom, handedTo, posts, EndingOf(sought))
    && (sought.Leader? ==>
          && start <= d <= sought.p.rev && Following(h, pfx, posts + [sought.p], sought.p.rev + 1)
          && PastDeliveries(posts + [sought.p], handedFrom, handedTo, sought.p.rev + 1))
  }

  // Finds the next leader and posts it.
  method PostLeader(c: Cluster, pfx: Key, posted: seq<Post>, ghost start: nat, ghost d: nat, ghost log0: Log)
    returns (progress: Progress, posts: seq<Post>, rev: nat)
    requires Seeking(c.hist, c.others, pfx, start, c.handedFrom, posted, d) && c.DeliveredPast()
    requires Listens(pfx, c.told, log0, Inquiring, posted)
    modifies c
    ensures Interfered(old(c.hist), old(c.others), c.hist, c.others)
    ensures Valid(c.hist) && OrderlyLine(c.hist, c.others, start, pfx) && c.DeliveredPast()
    ensures if progress.Ended? then Shown(c, progress.ending) else progress.AllPosted? && Undisturbed(c)
    ensures LeaderPosted(c.hist, pfx, start, d, c.handedFrom, c.handedTo, progress, posts, rev)
    ensures Attends(pfx, c.told, log0, progress, posts, rev)
  {
    var sought := NextLeader(c, pfx, posted, start, d, log0);
    var done := true;
    if sought.Leader? {
      done := c.Cancelled();
    }
    PostOrEnd(c.hist, pfx, start, d, c.handedFrom, c.handedTo, c.told, log0, posted, sought, done);
    var (pr, po, re) := Outcome(posted, sought, done);
    progress, posts, rev := pr, po, re;
  }

  function Outcome(posted: seq<Post>, sought: Sought, done: bool): (Progress, seq<Post>, nat) {
    if sought.Leader? && !done then (AllPosted, posted + [sought.p], sought.p.rev + 1)
    else (Ended(EndingOf(sought)), posted, 0)
  }

  ghost predicate LeaderPosted(h: History, pfx: Key, start: nat, d: nat, handedFrom: nat, handedTo: nat,
                               progress: Progress, posts: seq<Post>, rev: nat)
  {
    match progress
    case AllPosted =>
      start < rev && d < rev && Following(h, pfx, posts, rev) && PastDeliveries(posts, handedFrom, handedTo, rev)
    case KeyDeleted(_) => false
    case Ended(ending) => Chain(h, pfx, posts) && Complete(h, pfx, start, handedFrom, handedTo, posts, ending)
  }

  // Either way of going on after a leader has been looked for.
  lemma PostOrEnd(h: History, pfx: Key, start: nat, d: nat, handedFrom: nat, handedTo: nat, told: Log, log0: Log,
                  posted: seq<Post>, sought: Sought, done: bool)
    requires SoughtOk(h, pfx, start, handedFrom, handedTo, posted, d, sought)
    requires HeardOf(pfx, told, log0, posted, sought)
    ensures var (progress, posts, rev) := Outcome(posted, sought, done);
            && LeaderPosted(h, pfx, start, d, handedFrom, handedTo, progress, posts, rev)
            && Attends(pfx, told, log0, progress, posts, rev)
  {
  }

  lemma FoundLeader(h: History, pfx: Key, start: nat, handedFrom: nat, handedTo: nat, posts: seq<Post>, d: nat, p: Post)
    requires Valid(h) && DistinctSince(h, start, pfx) && start <= d <= p.rev < |h| && (posts != [] ==> start < d)
    requires Between(h, pfx, posts, d) && IsFirstCreated(h[p.rev], pfx, Some(p.kv))
    requires handedFrom < handedTo <= p.rev + 1 || handedTo == 0 == handedFrom || handedFrom <= p.kv.createRev == p.rev
    ensures Following(h, pfx, posts + [p], p.rev + 1)
    ensures PastDeliveries(posts + [p], handedFrom, handedTo, p.rev + 1)
    ensures Complete(h, pfx, start, handedFrom, handedTo, posts, Cancelled(p))
  {
    NewLeader(h, start, pfx, posts, d, p.rev, p.kv);
    PendingComplete(h, pfx, start, handedFrom, handedTo, posts, p, p.rev + 1);
  }

  /** Posts the current leader, then every later value it proclaims, then the next leader, and so on until the
      context is done, a watch is lost or a request fails. The posts are then exactly what the observer has been told,
      in order, up to the pending post: who leads, whenever it asked, and every value the watches delivered. */
  method Observe(c: Cluster, pfx: Key) returns (posts: seq<Post>, ending: Ending)
    requires Valid(c.hist) && OrderlyLine(c.hist, c.others, Revision(c.hist), pfx) && c.DeliveredPast()
    modifies c
    ensures Interfered(old(c.hist), old(c.others), c.hist, c.others) && Valid(c.hist)
    ensures Chain(c.hist, pfx, posts)
    ensures Complete(c.hist, pfx, Revision(old(c.hist)), c.handedFrom, c.handedTo, posts, ending)
    ensures NothingMissed(pfx, c.told, old(c.told), posts, ending)
    ensures Shown(c, ending)
  {
    ghost var start := Revision(c.hist);
    ghost var d: nat := start;
    posts := [];
    InterferedReflexive(c.hist, c.others);
    while true
      invariant Interfered(old(c.hist), old(c.others), c.hist, c.others) && c.DeliveredPast()
      invariant Seeking(c.hist, c.others, pfx, start, c.handedFrom, posts, d)
      invariant Listens(pfx, c.told, old(c.told), Inquiring, posts)
      decreases |c.hist| + |c.others| - d
    {
      var progress;
      progress, posts := ObserveOne(c, pfx, posts, start, d, old(c.told), old(c.hist), old(c.others));
      if progress.Ended? {
        ending := progress.ending;
        return;
      }
      d := progress.d;
    }
  }

  // One leader, from its first post to its deletion.
  method ObserveOne(c: Cluster, pfx: Key, posted: seq<Post>, ghost start: nat, ghost d: nat, ghost log0: Log,
                    ghost h0: History, ghost bs0: seq<Batch>)
    returns (progress: Progress, posts: seq<Post>)
    requires Seeking(c.hist, c.others, pfx, start, c.handedFrom, posted, d) && c.DeliveredPast()
    requires Interfered(h0, bs0, c.hist, c.others) && Listens(pfx, c.told, log0, Inquiring, posted)
    modifies c
    ensures Interfered(h0, bs0, c.hist, c.others) && Valid(c.hist) && c.DeliveredPast()
    ensures |c.hist| + |c.others| <= |old(c.hist)| + |old(c.others)|
    ensures !progress.AllPosted?
    ensures progress.KeyDeleted? ==>
      d < progress.d && Seeking(c.hist, c.others, pfx, start, c.handedFrom, posts, progress.d)
    ensures progress.Ended? ==>
      && Chain(c.hist, pfx, posts) && Shown(c, progress.ending)
      && Complete(c.hist, pfx, start, c.handedFrom, c.handedTo, posts, progress.ending)
    ensures Attends(pfx, c.told, log0, progress, posts, 0)
  {
    var rev;
    progress, posts, rev := PostLeader(c, pfx, posted, start, d, log0);
    InterferedExtends(old(c.hist), old(c.others), c.hist, c.others);
    InterferedTransitive(h0, bs0, old(c.hist), old(c.others), c.hist, c.others);
    if progress.Ended? {
      return;
    }
    ghost var h, bs := c.hist, c.others;
    progress, posts := Follow(c, pfx, posts, rev, start, log0);
    InterferedExtends(h, bs, c.hist, c.others);
    InterferedTransitive(h0, bs0, h, bs, c.hist, c.others);
    InterferedOrderly(h, bs, c.hist, c.others, start, pfx);
  }
}
