/** Whole runs of any number of mutexes on one prefix: locking, waiting, giving up, unlocking and lease expiry,
    interleaved one request at a time. */
module MutexRuns {
  import opened Store
  import opened Cluster
  import opened Queue
  import opened Waiting
  import opened MutexSpec

  datatype World = World(hist: History, members: seq<Member>)

  ghost function DoStep(pfx: Key, w: World, step: Step): World {
    match step
    case Expire(lease) => w.(hist := Commit(w.hist, Expiry(Current(w.hist), lease)))
    case Outside(b) => if forall k | k in b :: !(pfx <= k) then w.(hist := Commit(w.hist, b)) else w
    case _ =>
      if step.i < |w.members| then
        var (m, h) := MemberStep(pfx, w.members[step.i], w.hist, step);
        World(h, w.members[step.i := m])
      else w
  }

  ghost function Exec(pfx: Key, w: World, steps: seq<Step>): World {
    if steps == [] then w else DoStep(pfx, Exec(pfx, w, steps[..|steps| - 1]), steps[|steps| - 1])
  }

  // New mutexes of different sessions; keys of sessions that do nothing any more may be in the line.
  ghost predicate Initial(pfx: Key, w: World) {
    && Valid(w.hist) && DistinctCreates(Current(w.hist), pfx)
    && (forall i | 0 <= i < |w.members| ::
          w.members[i].key == "" && w.members[i].rev == -1 && w.members[i].phase == Resting)
    && DistinctLeases(w)
  }

  ghost predicate DistinctLeases(w: World) {
    forall i, j | 0 <= i < |w.members| && 0 <= j < |w.members| && i != j ::
      w.members[i].lease != w.members[j].lease
  }

  // The lock is owned: Lock returned nil and the key is still there in the incarnation that was locked.
  ghost predicate Owner(w: World, i: nat) {
    && i < |w.members| && w.members[i].phase.Holding?
    && Live(Current(w.hist), w.members[i].key, w.members[i].rev)
  }

  ghost predicate MemberInv(pfx: Key, h: History, m: Member) {
    && m.key in {"", RELEASED_KEY, KeyOf(pfx, m.lease)}
    && (!m.phase.Resting? ==> m.key == KeyOf(pfx, m.lease) && 0 < m.rev < |h|)
    && (m.phase.Holding? && Live(Current(h), m.key, m.rev) ==> Least(Current(h), pfx, m.key))
    && (m.phase.Watching? ==> WatchesOlder(pfx, h, m.phase.key, m.phase.from, m.rev))
  }

  ghost predicate Inv(pfx: Key, w: World) {
    && Valid(w.hist) && DistinctCreates(Current(w.hist), pfx) && DistinctLeases(w)
    && forall i | 0 <= i < |w.members| :: MemberInv(pfx, w.hist, w.members[i])
  }

  // ---------- Preservation ----------

  lemma MemberInvLater(pfx: Key, h: History, h': History, m: Member)
    requires Valid(h') && h <= h' && MemberInv(pfx, h, m)
    ensures MemberInv(pfx, h', m)
  {
    if m.phase.Holding? && Live(Current(h'), m.key, m.rev) {
      SameIncarnation(h', Revision(h), Revision(h'), m.key);
      LeastStays(h', Revision(h), Revision(h'), pfx, m.key);
    }
  }

  lemma PollKeepsInv(pfx: Key, h: History, m: Member, pick: Option<KV>)
    requires Valid(h) && MemberInv(pfx, h, m) && m.phase.Polling?
    requires IsLastCreated(Current(h), pfx, m.rev - 1, pick)
    ensures MemberInv(pfx, h, PollMember(m, h, pick))
  {
  }

  // What every step does to the store: at most one key stored under the prefix.
  lemma CommitKeepsLine(pfx: Key, h: History, b: Batch)
    requires Valid(h) && DistinctCreates(Current(h), pfx) && Orderly(pfx, b)
    ensures Valid(Commit(h, b)) && h <= Commit(h, b) && DistinctCreates(Current(Commit(h, b)), pfx)
  {
    CommitExtends(h, b);
    DistinctCreatesKept(h, pfx, b);
  }

  lemma EnqueueKeepsLine(pfx: Key, h: History, key: Key, val: string, lease: nat)
    requires Valid(h) && DistinctCreates(Current(h), pfx)
    ensures var (h', rev) := Enqueue(h, key, val, lease);
            && Valid(h') && h <= h' && DistinctCreates(Current(h'), pfx)
            && 0 < rev < |h'| && Live(Current(h'), key, rev)
  {
    EnqueueKeeps(h, key, val, lease);
    CommitKeepsLine(pfx, h, map[key := Put(val, lease)]);
  }

  lemma MemberStepKeepsInv(pfx: Key, h: History, m: Member, step: Step)
    requires Valid(h) && DistinctCreates(Current(h), pfx) && MemberInv(pfx, h, m)
    ensures var (m', h') := MemberStep(pfx, m, h, step);
            && Valid(h') && h <= h' && DistinctCreates(Current(h'), pfx)
            && MemberInv(pfx, h', m') && m'.lease == m.lease
  {
    match step
    case Lock(_, _) => EnqueueKeepsLine(pfx, h, KeyOf(pfx, m.lease), "", m.lease);
    case Poll(_, pick) =>
      if m.phase.Polling? && IsLastCreated(Current(h), pfx, m.rev - 1, pick) {
        PollKeepsInv(pfx, h, m, pick);
      }
    case GiveUp(_, _) => CommitKeepsLine(pfx, h, map[m.key := Delete]);
    case Unlock(_, _) => CommitKeepsLine(pfx, h, map[m.key := Delete]);
    case _ =>
  }

  lemma StoreStepKeepsInv(pfx: Key, w: World, b: Batch)
    requires Inv(pfx, w) && Orderly(pfx, b)
    ensures Inv(pfx, w.(hist := Commit(w.hist, b))) && w.hist <= Commit(w.hist, b)
  {
    CommitKeepsLine(pfx, w.hist, b);
    forall j | 0 <= j < |w.members|
      ensures MemberInv(pfx, Commit(w.hist, b), w.members[j])
    {
      MemberInvLater(pfx, w.hist, Commit(w.hist, b), w.members[j]);
    }
  }

  lemma MemberMoves(pfx: Key, w: World, i: nat, m': Member, h': History)
    requires Inv(pfx, w) && i < |w.members| && m'.lease == w.members[i].lease
    requires Valid(h') && w.hist <= h' && DistinctCreates(Current(h'), pfx) && MemberInv(pfx, h', m')
    ensures Inv(pfx, World(h', w.members[i := m']))
  {
    forall j | 0 <= j < |w.members| && j != i
      ensures MemberInv(pfx, h', w.members[j])
    {
      MemberInvLater(pfx, w.hist, h', w.members[j]);
    }
  }

  lemma StepKeepsInv(pfx: Key, w: World, step: Step)
    requires Inv(pfx, w)
    ensures Inv(pfx, DoStep(pfx, w, step)) && w.hist <= DoStep(pfx, w, step).hist
  {
    if step.Expire? {
      StoreStepKeepsInv(pfx, w, Expiry(Current(w.hist), step.lease));
    } else if step.Outside? {
      if forall k | k in step.batch :: !(pfx <= k) {
        StoreStepKeepsInv(pfx, w, step.batch);
      }
    } else if step.i < |w.members| {
      MemberStepKeepsInv(pfx, w.hist, w.members[step.i], step);
      var (m', h') := MemberStep(pfx, w.members[step.i], w.hist, step);
      MemberMoves(pfx, w, step.i, m', h');
    }
  }

  lemma {:induction false} RunKeepsInv(pfx: Key, w0: World, steps: seq<Step>)
    requires Initial(pfx, w0)
    ensures Inv(pfx, Exec(pfx, w0, steps)) && |Exec(pfx, w0, steps).members| == |w0.members|
    decreases |steps|
  {
    if steps != [] {
      RunKeepsInv(pfx, w0, steps[..|steps| - 1]);
      StepKeepsInv(pfx, Exec(pfx, w0, steps[..|steps| - 1]), steps[|steps| - 1]);
    }
  }

  // ---------- Main results ----------

  /** Mutual exclusion: in no run do two mutexes own the lock at once, and the owner's key is the oldest under
      the prefix. */
  lemma {:induction false} MutualExclusion(name: Key, w0: World, steps: seq<Step>, i: nat, j: nat)
    requires Initial(Pfx(name), w0)
    requires Owner(Exec(Pfx(name), w0, steps), i) && Owner(Exec(Pfx(name), w0, steps), j)
    ensures i == j
    ensures var w := Exec(Pfx(name), w0, steps);
            Least(Current(w.hist), Pfx(name), KeyOf(Pfx(name), w.members[i].lease))
  {
    RunKeepsInv(Pfx(name), w0, steps);
    var w := Exec(Pfx(name), w0, steps);
    assert MemberInv(Pfx(name), w.hist, w.members[i]) && MemberInv(Pfx(name), w.hist, w.members[j]);
    if i != j {
      DifferentKeys(Pfx(name), w.members[i].lease, w.members[j].lease);
    }
  }

  /** First come, first served: nobody owns the lock while an older place in the line is still occupied by a
      waiting mutex. */
  lemma {:induction false} NoOvertaking(name: Key, w0: World, steps: seq<Step>, i: nat, j: nat)
    requires Initial(Pfx(name), w0) && i != j
    requires var w := Exec(Pfx(name), w0, steps);
             && Owner(w, i) && j < |w.members| && !w.members[j].phase.Resting?
             && Live(Current(w.hist), w.members[j].key, w.members[j].rev)
    ensures var w := Exec(Pfx(name), w0, steps); w.members[i].rev < w.members[j].rev
  {
    RunKeepsInv(Pfx(name), w0, steps);
    var w := Exec(Pfx(name), w0, steps);
    assert MemberInv(Pfx(name), w.hist, w.members[i]) && MemberInv(Pfx(name), w.hist, w.members[j]);
    DifferentKeys(Pfx(name), w.members[i].lease, w.members[j].lease);
  }

  /** Lock puts the session in the line, or keeps the place it has, and returns at once exactly when that place is
      the first. */
  lemma {:induction false} LockTakesPlace(name: Key, w0: World, steps: seq<Step>, i: nat)
    requires Initial(Pfx(name), w0)
    requires var w := Exec(Pfx(name), w0, steps);
             i < |w.members| && AtRest(w.members[i])
    ensures var w := Exec(Pfx(name), w0, steps);
            var w' := DoStep(Pfx(name), w, Lock(i, true));
            var m' := w'.members[i];
            && m'.key == KeyOf(Pfx(name), w.members[i].lease) && Live(Current(w'.hist), m'.key, m'.rev)
            && (m'.key in Current(w.hist) ==> w'.hist == w.hist)
            && (m'.key !in Current(w.hist) ==> forall k | k in Current(w.hist) :: Current(w.hist)[k].createRev < m'.rev)
            && (m'.key !in Current(w.hist) ==>
                  var rev := |w.hist|; Current(w'.hist)[m'.key] == KV(m'.key, "", rev, rev, w.members[i].lease))
            && (Owner(w', i) <==> Least(Current(w'.hist), Pfx(name), m'.key))
            && (!Owner(w', i) ==> m'.phase.Polling?)
  {
    RunKeepsInv(Pfx(name), w0, steps);
    var w := Exec(Pfx(name), w0, steps);
    EnqueueKeeps(w.hist, KeyOf(Pfx(name), w.members[i].lease), "", w.members[i].lease);
    forall k | k in Current(w.hist)
      ensures Current(w.hist)[k].createRev < |w.hist|
    {
      RevisionBounds(w.hist, Revision(w.hist), k);
    }
  }

  /** No wake-up is lost: a waiting mutex whose key is alive and has become the oldest owns the lock after its
      own next watch delivery and poll, with no help from anybody. Watching the immediate predecessor from the
      revision of the poll misses no deletion. */
  lemma {:induction false} TurnComes(name: Key, w0: World, steps: seq<Step>, i: nat) returns (own: seq<Step>)
    requires Initial(Pfx(name), w0)
    requires var w := Exec(Pfx(name), w0, steps);
             && i < |w.members| && (w.members[i].phase.Polling? || w.members[i].phase.Watching?)
             && Live(Current(w.hist), w.members[i].key, w.members[i].rev)
             && Least(Current(w.hist), Pfx(name), w.members[i].key)
    ensures forall k | 0 <= k < |own| :: (own[k].Poll? || own[k].Deliver?) && own[k].i == i
    ensures Owner(Exec(Pfx(name), w0, steps + own), i)
  {
    RunKeepsInv(Pfx(name), w0, steps);
    var w := Exec(Pfx(name), w0, steps);
    var m := w.members[i];
    assert MemberInv(Pfx(name), w.hist, m);
    own := [Poll(i, None)];
    if m.phase.Watching? {
      var at := DeletedSince(w.hist, m.phase.from, Revision(w.hist), m.phase.key);
      ExecAppend(Pfx(name), w0, steps, Deliver(i, at));
      ExecAppend(Pfx(name), w0, steps + [Deliver(i, at)], Poll(i, None));
      own := [Deliver(i, at), Poll(i, None)];
      assert steps + own == steps + [Deliver(i, at)] + [Poll(i, None)];
    } else {
      ExecAppend(Pfx(name), w0, steps, Poll(i, None));
    }
  }

  lemma ExecAppend(pfx: Key, w: World, steps: seq<Step>, step: Step)
    ensures Exec(pfx, w, steps + [step]) == DoStep(pfx, Exec(pfx, w, steps), step)
  {
  }

  /** Unlocking, or giving up, removes the session's own key, if that is the key remembered, and touches no other: no
      other session's place, and nothing of an application's. The one exception is the key "\0", which a second Unlock
      deletes. */
  lemma {:induction false} UnlockTouchesOwnKeyOnly(name: Key, w0: World, steps: seq<Step>, step: Step, k: Key)
    requires Initial(Pfx(name), w0) && (step.Unlock? || step.GiveUp?)
    requires step.i < |Exec(Pfx(name), w0, steps).members|
    ensures var w := Exec(Pfx(name), w0, steps); var w' := DoStep(Pfx(name), w, step);
            var m, m', own := w.members[step.i], w'.members[step.i], KeyOf(Pfx(name), w.members[step.i].lease);
            && (k != own && k != "\0" ==> Lookup(Current(w'.hist), k) == Lookup(Current(w.hist), k))
            && (forall j | 0 <= j < |w.members| && j != step.i ::
                  var other := KeyOf(Pfx(name), w.members[j].lease);
                  Lookup(Current(w'.hist), other) == Lookup(Current(w.hist), other))
            && (step.ok && m.key == own && (if step.Unlock? then AtRest(m) else m.phase.GivingUp?) ==>
                  own !in Current(w'.hist) && m' == Member(m.lease, "\0", -1, Resting))
  {
    RunKeepsInv(Pfx(name), w0, steps);
    var w := Exec(Pfx(name), w0, steps);
    var m := w.members[step.i];
    assert MemberInv(Pfx(name), w.hist, m);
    ReleaseMeans(w.hist, m.key);
    forall j | 0 <= j < |w.members|
      ensures KeyOf(Pfx(name), w.members[j].lease) !in {"", "\0"}
      ensures j != step.i ==> KeyOf(Pfx(name), w.members[j].lease) != KeyOf(Pfx(name), m.lease)
    {
      OwnKey(name, w.members[j].lease);
      if j != step.i {
        DifferentKeys(Pfx(name), w.members[j].lease, m.lease);
      }
    }
  }

  lemma OwnKey(name: Key, lease: nat)
    ensures KeyOf(Pfx(name), lease) !in {"", "\0"}
  {
    HexNonEmpty(lease);
  }

  lemma ReleaseMeans(h: History, key: Key)
    ensures key !in Current(Release(h, key))
    ensures forall k | k != key :: Lookup(Current(Release(h, key)), k) == Lookup(Current(h), k)
  {
    forall k
      ensures k == key ==> k !in Current(Release(h, key))
      ensures k != key ==> Lookup(Current(Release(h, key)), k) == Lookup(Current(h), k)
    {
      CommitMeans(h, map[key := Delete], k);
    }
  }

  /** A waiting mutex watches the place right in front of its own: at no later time is there a key under the prefix
      that was created after the watched one and before its own. */
  lemma {:induction false} WatchesNextInLine(name: Key, w0: World, steps: seq<Step>, i: nat, k: Key)
    requires Initial(Pfx(name), w0)
    requires var w := Exec(Pfx(name), w0, steps);
             && i < |w.members| && w.members[i].phase.Watching? && k in Current(w.hist) && Pfx(name) <= k
    ensures var w := Exec(Pfx(name), w0, steps); var m := w.members[i];
            && m.phase.from < |w.hist| && m.phase.key in w.hist[m.phase.from]
            && var ahead := w.hist[m.phase.from][m.phase.key].createRev;
               ahead < m.rev && !(ahead < Current(w.hist)[k].createRev < m.rev)
  {
    RunKeepsInv(Pfx(name), w0, steps);
    var w := Exec(Pfx(name), w0, steps);
    var m := w.members[i];
    assert MemberInv(Pfx(name), w.hist, m);
    NobodyBetween(Pfx(name), w.hist, m.phase.key, m.phase.from, m.rev, Revision(w.hist), k);
  }

  /** A release wakes one waiter: of the mutexes that still have their place in the line no two watch the same place. */
  lemma {:induction false} OneIsWoken(name: Key, w0: World, steps: seq<Step>, i: nat, j: nat)
    requires Initial(Pfx(name), w0)
    requires var w := Exec(Pfx(name), w0, steps);
             && i < |w.members| && j < |w.members| && w.members[i].phase.Watching? && w.members[j].phase.Watching?
             && var m, m' := w.members[i], w.members[j];
             && m.phase.key == m'.phase.key && m.phase.from < |w.hist| && m'.phase.from < |w.hist|
             && m.phase.key in w.hist[m.phase.from] && m.phase.key in w.hist[m'.phase.from]
             && w.hist[m.phase.from][m.phase.key].createRev == w.hist[m'.phase.from][m.phase.key].createRev
             && Live(Current(w.hist), m.key, m.rev) && Live(Current(w.hist), m'.key, m'.rev)
    ensures i == j
  {
    RunKeepsInv(Pfx(name), w0, steps);
    var w := Exec(Pfx(name), w0, steps);
    var m, m' := w.members[i], w.members[j];
    assert MemberInv(Pfx(name), w.hist, m) && MemberInv(Pfx(name), w.hist, m');
    if i != j {
      DifferentKeys(Pfx(name), m.lease, m'.lease);
      OneBehind(Pfx(name), w.hist, m.phase.key, m.phase.from, m'.phase.from, m.key, m.rev, m'.key, m'.rev);
    }
  }

  lemma {:induction false} StoreGrows(pfx: Key, w0: World, steps: seq<Step>, more: seq<Step>)
    requires Initial(pfx, w0)
    ensures Exec(pfx, w0, steps).hist <= Exec(pfx, w0, steps + more).hist
    decreases |more|
  {
    if more == [] {
      assert steps + more == steps;
    } else {
      var before, last := more[..|more| - 1], more[|more| - 1];
      assert steps + more == steps + before + [last];
      StoreGrows(pfx, w0, steps, before);
      StoreGrowsOnce(pfx, w0, steps + before, last);
    }
  }

  lemma StoreGrowsOnce(pfx: Key, w0: World, steps: seq<Step>, last: Step)
    requires Initial(pfx, w0)
    ensures Exec(pfx, w0, steps).hist <= Exec(pfx, w0, steps + [last]).hist
  {
    ExecAppend(pfx, w0, steps, last);
    RunKeepsInv(pfx, w0, steps);
    StepKeepsInv(pfx, Exec(pfx, w0, steps), last);
  }

  /** Fencing over whole runs: the create revisions of successive owners never decrease, and grow whenever the lock
      passes on, so myRev can serve as a token that no earlier owner can outdo. */
  lemma {:induction false} OwnersInOrder(name: Key, w0: World, steps: seq<Step>, more: seq<Step>, i: nat, j: nat)
    requires Initial(Pfx(name), w0)
    requires Owner(Exec(Pfx(name), w0, steps), i) && Owner(Exec(Pfx(name), w0, steps + more), j)
    ensures var m, m' := Exec(Pfx(name), w0, steps).members[i], Exec(Pfx(name), w0, steps + more).members[j];
            m.rev <= m'.rev && (m.rev == m'.rev ==> m.key == m'.key)
  {
    RunKeepsInv(Pfx(name), w0, steps);
    RunKeepsInv(Pfx(name), w0, steps + more);
    StoreGrows(Pfx(name), w0, steps, more);
    TwoOwners(Pfx(name), Exec(Pfx(name), w0, steps), Exec(Pfx(name), w0, steps + more), i, j);
  }

  lemma TwoOwners(pfx: Key, w: World, w': World, i: nat, j: nat)
    requires Inv(pfx, w) && Inv(pfx, w') && w.hist <= w'.hist && Owner(w, i) && Owner(w', j)
    ensures w.members[i].rev <= w'.members[j].rev
    ensures w.members[i].rev == w'.members[j].rev ==> w.members[i].key == w'.members[j].key
  {
    assert MemberInv(pfx, w.hist, w.members[i]) && MemberInv(pfx, w'.hist, w'.members[j]);
    assert w'.hist[Revision(w.hist)] == Current(w.hist);
    FirstsInOrder(w'.hist, Revision(w.hist), Revision(w'.hist), pfx, w.members[i].key, w'.members[j].key);
  }
}
