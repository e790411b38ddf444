/** Whole runs of any number of candidates on one prefix: campaigning, proclaiming, resigning, failed waits and
    lease expiry, interleaved one request at a time. */
module ElectionRuns {
  import opened Store
  import opened Cluster
  import opened Queue
  import opened Waiting
  import opened ElectionSpec
  import M = MutexSpec

  datatype World = World(hist: History, candidates: seq<Candidate>)

  ghost function DoStep(pfx: Key, w: World, step: Step): World {
    match step
    case Expire(lease) => w.(hist := Commit(w.hist, Expiry(Current(w.hist), lease)))
    case Outside(b) => if forall k | k in b :: !(pfx <= k) && k != "" then w.(hist := Commit(w.hist, b)) else w
    case _ =>
      if step.i < |w.candidates| then
        var (c, h) := CandidateStep(pfx, w.candidates[step.i], w.hist, step);
        World(h, w.candidates[step.i := c])
      else w
  }

  ghost function Exec(pfx: Key, w: World, steps: seq<Step>): World {
    if steps == [] then w else DoStep(pfx, Exec(pfx, w, steps[..|steps| - 1]), steps[|steps| - 1])
  }

  ghost predicate InitialCandidate(pfx: Key, h: History, c: Candidate) {
    && c.key == "" && c.rev == 0 && !c.session && c.phase == Resting
    && KeyOf(pfx, c.lease) !in Current(h)
  }

  // The server stores nothing under the empty key.
  ghost predicate Initial(pfx: Key, w: World) {
    && Valid(w.hist) && DistinctCreates(Current(w.hist), pfx) && "" !in Current(w.hist)
    && (forall i | 0 <= i < |w.candidates| :: InitialCandidate(pfx, w.hist, w.candidates[i]))
    && DistinctLeases(w)
  }

  ghost predicate DistinctLeases(w: World) {
    forall i, j | 0 <= i < |w.candidates| && 0 <= j < |w.candidates| && i != j ::
      w.candidates[i].lease != w.candidates[j].lease
  }

  // Campaign returned nil and the key is still there in the incarnation that won.
  ghost predicate Elected(w: World, i: nat) {
    && i < |w.candidates| && w.candidates[i].phase.Leading?
    && Live(Current(w.hist), w.candidates[i].key, w.candidates[i].rev)
  }

  ghost predicate CandidateInv(pfx: Key, h: History, c: Candidate) {
    && (c.key == "" || (c.key == KeyOf(pfx, c.lease) && 0 < c.rev < |h|))
    && (c.session ==> c.rev > 0)
    && (c.phase.Proposing? || c.phase.Polling? || c.phase.Watching? ==> c.key == KeyOf(pfx, c.lease) && c.session)
    && (!c.phase.Resting? ==> c.session)
    && (c.phase.Polling? || c.phase.Watching? ==> c.stored == c.wanted)
    && (KeyOf(pfx, c.lease) in Current(h) ==> Current(h)[KeyOf(pfx, c.lease)].value == c.stored)
    && (c.phase.Leading? && Live(Current(h), c.key, c.rev) ==> Least(Current(h), pfx, KeyOf(pfx, c.lease)))
    && (c.phase.Watching? ==> WatchesOlder(pfx, h, c.phase.key, c.phase.from, c.rev))
  }

  ghost predicate StoreInv(pfx: Key, h: History) {
    Valid(h) && DistinctCreates(Current(h), pfx) && "" !in Current(h)
  }

  ghost predicate Inv(pfx: Key, w: World) {
    && StoreInv(pfx, w.hist) && DistinctLeases(w)
    && forall i | 0 <= i < |w.candidates| :: CandidateInv(pfx, w.hist, w.candidates[i])
  }

  // ---------- Preservation ----------

  // The entry is gone or holds the value it held before.
  ghost predicate Unwritten(h: History, h': History, key: Key) {
    key in Current(h') ==> key in Current(h) && Current(h')[key].value == Current(h)[key].value
  }

  lemma CandidateInvLater(pfx: Key, h: History, h': History, c: Candidate)
    requires Valid(h') && "" !in Current(h') && h <= h' && CandidateInv(pfx, h, c)
    requires Unwritten(h, h', KeyOf(pfx, c.lease))
    ensures CandidateInv(pfx, h', c)
  {
    if c.phase.Leading? && Live(Current(h'), c.key, c.rev) {
      SameIncarnation(h', Revision(h), Revision(h'), c.key);
      LeastStays(h', Revision(h), Revision(h'), pfx, c.key);
    }
  }

  lemma CommitKeepsStore(pfx: Key, h: History, b: Batch)
    requires StoreInv(pfx, h) && Orderly(pfx, b) && ("" in b ==> b[""].Delete?)
    ensures StoreInv(pfx, Commit(h, b)) && h <= Commit(h, b)
    ensures forall k | k !in b || b[k].Delete? :: Unwritten(h, Commit(h, b), k)
    ensures forall k | k !in b :: Lookup(Current(Commit(h, b)), k) == Lookup(Current(h), k)
  {
    CommitExtends(h, b);
    DistinctCreatesKept(h, pfx, b);
  }

  lemma CampaignKeepsInv(pfx: Key, h: History, c: Candidate, val: string)
    requires pfx != "" && StoreInv(pfx, h) && CandidateInv(pfx, h, c)
    ensures var (c', h') := CampaignCandidate(pfx, c, h, val);
            && StoreInv(pfx, h') && h <= h' && CandidateInv(pfx, h', c')
            && forall k | k != KeyOf(pfx, c.lease) :: Lookup(Current(h'), k) == Lookup(Current(h), k)
  {
    var key := KeyOf(pfx, c.lease);
    M.EnqueueKeeps(h, key, val, c.lease);
    CommitKeepsStore(pfx, h, map[key := Put(val, c.lease)]);
  }

  lemma AnnounceKeepsInv(pfx: Key, h: History, c: Candidate, val: string)
    requires pfx != "" && StoreInv(pfx, h) && CandidateInv(pfx, h, c) && c.session
    requires AtRest(c) || (c.phase.Proposing? && val == c.wanted)
    ensures var (c', h') := AnnounceCandidate(c, h, val);
            && StoreInv(pfx, h') && h <= h' && CandidateInv(pfx, h', c')
            && forall k | k != KeyOf(pfx, c.lease) :: Lookup(Current(h'), k) == Lookup(Current(h), k)
  {
    if Matches(Current(h), c.key, c.rev) {
      CommitKeepsStore(pfx, h, map[c.key := Put(val, c.lease)]);
      AnnouncedKeepsInv(pfx, h, c, val);
    }
  }

  // The value stored is the one the candidate remembers.
  lemma AnnouncedKeepsInv(pfx: Key, h: History, c: Candidate, val: string)
    requires StoreInv(pfx, h) && CandidateInv(pfx, h, c) && Live(Current(h), c.key, c.rev)
    requires AtRest(c) || (c.phase.Proposing? && val == c.wanted)
    ensures CandidateInv(pfx, Commit(h, map[c.key := Put(val, c.lease)]), AnnounceCandidate(c, h, val).0)
  {
    var b: Batch := map[c.key := Put(val, c.lease)];
    assert c.key in b;
    CommitExtends(h, b);
    if c.phase.Leading? {
      LeastStays(Commit(h, b), Revision(h), Revision(Commit(h, b)), pfx, c.key);
    }
  }

  lemma WithdrawKeepsInv(pfx: Key, h: History, c: Candidate, ok: bool)
    requires pfx != "" && StoreInv(pfx, h) && CandidateInv(pfx, h, c) && c.session
    ensures var (c', h') := WithdrawCandidate(c, h, ok);
            && StoreInv(pfx, h') && h <= h' && CandidateInv(pfx, h', c')
            && forall k | k != KeyOf(pfx, c.lease) :: Lookup(Current(h'), k) == Lookup(Current(h), k)
  {
    CommitKeepsStore(pfx, h, map[c.key := Delete]);
  }

  lemma PollKeepsInv(pfx: Key, h: History, c: Candidate, pick: Option<KV>)
    requires StoreInv(pfx, h) && CandidateInv(pfx, h, c) && c.phase.Polling?
    requires IsLastCreated(Current(h), pfx, c.rev - 1, pick)
    ensures CandidateInv(pfx, h, CandidateStep(pfx, c, h, Poll(0, pick)).0)
  {
  }

  lemma WaitStepKeepsInv(pfx: Key, h: History, c: Candidate, step: Step)
    requires StoreInv(pfx, h) && CandidateInv(pfx, h, c) && (step.Poll? || step.Deliver? || step.WaitFails?)
    ensures var (c', h') := CandidateStep(pfx, c, h, step); h' == h && CandidateInv(pfx, h, c') && c'.lease == c.lease
  {
    if step.Poll? && c.phase.Polling? && IsLastCreated(Current(h), pfx, c.rev - 1, step.pick) {
      PollKeepsInv(pfx, h, c, step.pick);
    }
  }

  /** A candidate's own step keeps its invariant and touches no key but its own. */
  lemma CandidateStepKeepsInv(pfx: Key, h: History, c: Candidate, step: Step)
    requires pfx != "" && StoreInv(pfx, h) && CandidateInv(pfx, h, c)
    ensures var (c', h') := CandidateStep(pfx, c, h, step);
            && StoreInv(pfx, h') && h <= h' && CandidateInv(pfx, h', c') && c'.lease == c.lease
            && forall k | k != KeyOf(pfx, c.lease) :: Lookup(Current(h'), k) == Lookup(Current(h), k)
  {
    if step.Poll? || step.Deliver? || step.WaitFails? {
      WaitStepKeepsInv(pfx, h, c, step);
    } else {
      match step
      case Campaign(_, val, _) => CampaignKeepsInv(pfx, h, c, val);
      case Propose(_, _) => if c.phase.Proposing? { AnnounceKeepsInv(pfx, h, c, c.wanted); }
      case Quit(_, ok) => if c.phase.Quitting? { WithdrawKeepsInv(pfx, h, c, ok); }
      case Proclaim(_, val, _) => if AtRest(c) && c.session { AnnounceKeepsInv(pfx, h, c, val); }
      case Resign(_, ok) => if c.session { WithdrawKeepsInv(pfx, h, c, ok); }
      case _ =>
    }
  }

  lemma StoreStepKeepsInv(pfx: Key, w: World, b: Batch)
    requires Inv(pfx, w)
    requires forall k | k in b :: b[k].Delete? || (!(pfx <= k) && k != "")
    ensures Inv(pfx, w.(hist := Commit(w.hist, b))) && w.hist <= Commit(w.hist, b)
  {
    CommitKeepsStore(pfx, w.hist, b);
    forall i | 0 <= i < |w.candidates|
      ensures CandidateInv(pfx, Commit(w.hist, b), w.candidates[i])
    {
      CandidateInvLater(pfx, w.hist, Commit(w.hist, b), w.candidates[i]);
    }
  }

  // One candidate moves and leaves the others' keys alone.
  lemma OthersKeepInv(pfx: Key, w: World, i: nat, c': Candidate, h': History)
    requires pfx != "" && Inv(pfx, w) && i < |w.candidates| && c'.lease == w.candidates[i].lease
    requires StoreInv(pfx, h') && w.hist <= h' && CandidateInv(pfx, h', c')
    requires forall k | k != KeyOf(pfx, c'.lease) :: Lookup(Current(h'), k) == Lookup(Current(w.hist), k)
    ensures Inv(pfx, World(h', w.candidates[i := c']))
  {
    forall j | 0 <= j < |w.candidates| && j != i
      ensures CandidateInv(pfx, h', w.candidates[j])
    {
      DifferentKeys(pfx, w.candidates[i].lease, w.candidates[j].lease);
      var k := KeyOf(pfx, w.candidates[j].lease);
      assert Lookup(Current(h'), k) == Lookup(Current(w.hist), k);
      CandidateInvLater(pfx, w.hist, h', w.candidates[j]);
    }
  }

  lemma StepKeepsInv(pfx: Key, w: World, step: Step)
    requires pfx != "" && Inv(pfx, w)
    ensures Inv(pfx, DoStep(pfx, w, step)) && w.hist <= DoStep(pfx, w, step).hist
  {
    if step.Expire? {
      StoreStepKeepsInv(pfx, w, Expiry(Current(w.hist), step.lease));
    } else if step.Outside? {
      if forall k | k in step.batch :: !(pfx <= k) && k != "" {
        StoreStepKeepsInv(pfx, w, step.batch);
      }
    } else if step.i < |w.candidates| {
      CandidateStepKeepsInv(pfx, w.hist, w.candidates[step.i], step);
      var (c', h') := CandidateStep(pfx, w.candidates[step.i], w.hist, step);
      OthersKeepInv(pfx, w, step.i, c', h');
    }
  }

  lemma {:induction false} RunKeepsInv(name: Key, w0: World, steps: seq<Step>)
    requires Initial(Pfx(name), w0)
    ensures Inv(Pfx(name), Exec(Pfx(name), w0, steps))
    ensures |Exec(Pfx(name), w0, steps).candidates| == |w0.candidates|
    decreases |steps|
  {
    if steps == [] {
      forall i | 0 <= i < |w0.candidates|
        ensures CandidateInv(Pfx(name), w0.hist, w0.candidates[i])
      {
        assert InitialCandidate(Pfx(name), w0.hist, w0.candidates[i]);
      }
    } else {
      RunKeepsInv(name, w0, steps[..|steps| - 1]);
      StepKeepsInv(Pfx(name), Exec(Pfx(name), w0, steps[..|steps| - 1]), steps[|steps| - 1]);
    }
  }

  // ---------- Main results ----------

  lemma ExecAppend(pfx: Key, w: World, steps: seq<Step>, step: Step)
    ensures Exec(pfx, w, steps + [step]) == DoStep(pfx, Exec(pfx, w, steps), step)
  {
  }

  // What Leader() answers in the state; the server's answer is determined by it.
  ghost predicate LeaderIs(pfx: Key, w: World, key: Key, rev: int, val: string) {
    forall r | IsFirstCreated(Current(w.hist), pfx, r) ::
      r.Some? && r.value.key == key && r.value.createRev == rev && r.value.value == val
  }

  lemma ElectedIsLeader(pfx: Key, w: World, i: nat)
    requires pfx != "" && Inv(pfx, w) && Elected(w, i)
    ensures var c := w.candidates[i];
            && c.key == KeyOf(pfx, c.lease) && Least(Current(w.hist), pfx, c.key)
            && LeaderIs(pfx, w, c.key, c.rev, c.stored)
  {
  }

  /** At most one candidate is the elected leader. */
  lemma {:induction false} OneLeader(name: Key, w0: World, steps: seq<Step>, i: nat, j: nat)
    requires Initial(Pfx(name), w0)
    requires Elected(Exec(Pfx(name), w0, steps), i) && Elected(Exec(Pfx(name), w0, steps), j)
    ensures i == j
  {
    RunKeepsInv(name, w0, steps);
    var w := Exec(Pfx(name), w0, steps);
    ElectedIsLeader(Pfx(name), w, i);
    ElectedIsLeader(Pfx(name), w, j);
    OneLeast(Current(w.hist), Pfx(name), w.candidates[i].key, w.candidates[j].key);
    if i != j {
      DifferentKeys(Pfx(name), w.candidates[i].lease, w.candidates[j].lease);
    }
  }

  // No step of candidate `i`.
  predicate NotBy(i: nat, steps: seq<Step>) {
    forall k | 0 <= k < |steps| :: steps[k].Expire? || steps[k].Outside? || steps[k].i != i
  }

  /** Leader stability: from a successful Campaign for as long as its key lives, and whatever others do meanwhile
      (campaign, proclaim, resign, expire), Leader() answers this candidate's key, in the incarnation that won,
      with the value it stored last. */
  lemma {:induction false} LeaderStability(name: Key, w0: World, steps: seq<Step>, more: seq<Step>, i: nat)
    requires Initial(Pfx(name), w0) && NotBy(i, more)
    requires Elected(Exec(Pfx(name), w0, steps), i)
    requires var c := Exec(Pfx(name), w0, steps).candidates[i];
             Live(Current(Exec(Pfx(name), w0, steps + more).hist), c.key, c.rev)
    ensures var c := Exec(Pfx(name), w0, steps).candidates[i];
            && Elected(Exec(Pfx(name), w0, steps + more), i)
            && LeaderIs(Pfx(name), Exec(Pfx(name), w0, steps + more), KeyOf(Pfx(name), c.lease), c.rev, c.stored)
  {
    RunKeepsInv(name, w0, steps + more);
    OthersDoNotMove(Pfx(name), w0, steps, more, i);
    ElectedIsLeader(Pfx(name), Exec(Pfx(name), w0, steps + more), i);
  }

  lemma {:induction false} OthersDoNotMove(pfx: Key, w0: World, steps: seq<Step>, more: seq<Step>, i: nat)
    requires NotBy(i, more) && i < |Exec(pfx, w0, steps).candidates|
    ensures i < |Exec(pfx, w0, steps + more).candidates|
    ensures Exec(pfx, w0, steps + more).candidates[i] == Exec(pfx, w0, steps).candidates[i]
    decreases |more|
  {
    if more == [] {
      assert steps + more == steps;
    } else {
      var before := more[..|more| - 1];
      OthersDoNotMove(pfx, w0, steps, before, i);
      ExecSplit(pfx, w0, steps, more);
      StepOfAnother(pfx, Exec(pfx, w0, steps + before), more, i);
    }
  }

  lemma ExecSplit(pfx: Key, w0: World, steps: seq<Step>, more: seq<Step>)
    requires more != []
    ensures Exec(pfx, w0, steps + more) == DoStep(pfx, Exec(pfx, w0, steps + more[..|more| - 1]), more[|more| - 1])
  {
    assert (steps + more)[..|steps + more| - 1] == steps + more[..|more| - 1];
  }

  lemma StepOfAnother(pfx: Key, w: World, more: seq<Step>, i: nat)
    requires i < |w.candidates| && NotBy(i, more) && more != []
    ensures var w' := DoStep(pfx, w, more[|more| - 1]);
            i < |w'.candidates| && w'.candidates[i] == w.candidates[i]
  {
  }

  /** Fencing: a Proclaim by a candidate whose Campaign succeeded reaches the store exactly when that candidate is
      the elected leader, and then it is still the leader, in the same incarnation, with the new value; nobody
      else's key changes. */
  lemma {:induction false} ProclaimIsFenced(name: Key, w0: World, steps: seq<Step>, i: nat, val: string)
    requires Initial(Pfx(name), w0)
    requires i < |Exec(Pfx(name), w0, steps).candidates| && Exec(Pfx(name), w0, steps).candidates[i].phase.Leading?
    ensures var w := Exec(Pfx(name), w0, steps);
            var c := w.candidates[i];
            var w' := DoStep(Pfx(name), w, Proclaim(i, val, true));
            && (w'.hist != w.hist <==> Elected(w, i))
            && (Elected(w, i) ==> Elected(w', i) && LeaderIs(Pfx(name), w', KeyOf(Pfx(name), c.lease), c.rev, val))
            && (Elected(w, i) ==>
                  && c.key == KeyOf(Pfx(name), c.lease) && c.rev > 0 && c.key in Current(w'.hist)
                  && Current(w'.hist)[c.key] == KV(c.key, val, c.rev, |w.hist|, c.lease))
            && (forall k | k != KeyOf(Pfx(name), c.lease) :: Lookup(Current(w'.hist), k) == Lookup(Current(w.hist), k))
  {
    RunKeepsInv(name, w0, steps);
    var w := Exec(Pfx(name), w0, steps);
    var c := w.candidates[i];
    var step := Proclaim(i, val, true);
    var w' := DoStep(Pfx(name), w, step);
    assert CandidateInv(Pfx(name), w.hist, c);
    CandidateStepKeepsInv(Pfx(name), w.hist, c, step);
    StepKeepsInv(Pfx(name), w, step);
    AnnounceKeeps(w.hist, c.key, c.rev, val, c.lease);
    if Elected(w, i) {
      assert c.key in map[c.key := Put(val, c.lease)];
      ElectedIsLeader(Pfx(name), w', i);
    }
  }

  /** Resigning removes at most the incarnation the candidate remembers: a later incarnation of its own key
      stays, and so does every other key. */
  lemma {:induction false} ResignIsFenced(name: Key, w0: World, steps: seq<Step>, step: Step, k: Key)
    requires Initial(Pfx(name), w0) && (step.Resign? || step.Quit?)
    requires step.i < |Exec(Pfx(name), w0, steps).candidates|
    ensures var w := Exec(Pfx(name), w0, steps);
            var c := w.candidates[step.i];
            var w' := DoStep(Pfx(name), w, step);
            Lookup(Current(w'.hist), k) == Lookup(Current(w.hist), k)
            || (k == KeyOf(Pfx(name), c.lease) && Live(Current(w.hist), k, c.rev) && k !in Current(w'.hist))
    ensures var w := Exec(Pfx(name), w0, steps);
            var c := w.candidates[step.i];
            (step.ok && c.session && (if step.Resign? then AtRest(c) else c.phase.Quitting?)
             && Live(Current(w.hist), c.key, c.rev)) ==> c.key !in Current(DoStep(Pfx(name), w, step).hist)
  {
    RunKeepsInv(name, w0, steps);
    var w := Exec(Pfx(name), w0, steps);
    var c := w.candidates[step.i];
    assert CandidateInv(Pfx(name), w.hist, c);
    CandidateStepKeepsInv(Pfx(name), w.hist, c, step);
    if c.session && Matches(Current(w.hist), c.key, c.rev) {
      CommitKeepsStore(Pfx(name), w.hist, map[c.key := Delete]);
    }
  }

  /** Campaign puts the session in the line, or keeps the place it has: the key is alive in the incarnation
      remembered, older keys stay ahead, and either it holds the value asked for or that value is proposed next. */
  lemma {:induction false} CampaignTakesPlace(name: Key, w0: World, steps: seq<Step>, i: nat, val: string)
    requires Initial(Pfx(name), w0)
    requires i < |Exec(Pfx(name), w0, steps).candidates| && AtRest(Exec(Pfx(name), w0, steps).candidates[i])
    ensures var w := Exec(Pfx(name), w0, steps);
            var w' := DoStep(Pfx(name), w, Campaign(i, val, true));
            var c' := w'.candidates[i];
            && c'.key == KeyOf(Pfx(name), w.candidates[i].lease) && Live(Current(w'.hist), c'.key, c'.rev)
            && (c'.key in Current(w.hist) ==> w'.hist == w.hist)
            && (c'.key !in Current(w.hist) ==> forall k | k in Current(w.hist) :: Current(w.hist)[k].createRev < c'.rev)
            && (c'.key !in Current(w.hist) ==>
                  var rev := |w.hist|; Current(w'.hist)[c'.key] == KV(c'.key, val, rev, rev, w.candidates[i].lease))
            && c'.phase == (if Current(w'.hist)[c'.key].value == val then Polling else Proposing)
  {
    RunKeepsInv(name, w0, steps);
    var w := Exec(Pfx(name), w0, steps);
    var key := KeyOf(Pfx(name), w.candidates[i].lease);
    M.EnqueueKeeps(w.hist, key, val, w.candidates[i].lease);
    forall k | k in Current(w.hist)
      ensures Current(w.hist)[k].createRev < |w.hist|
    {
      RevisionBounds(w.hist, Revision(w.hist), k);
    }
  }

  /** No wake-up is lost: a waiting candidate whose key is alive and has become the oldest is elected, with the
      value it campaigned for, after its own next watch delivery and poll. */
  lemma {:induction false} TurnComes(name: Key, w0: World, steps: seq<Step>, i: nat) returns (own: seq<Step>)
    requires Initial(Pfx(name), w0)
    requires var w := Exec(Pfx(name), w0, steps);
             && i < |w.candidates| && (w.candidates[i].phase.Polling? || w.candidates[i].phase.Watching?)
             && Live(Current(w.hist), w.candidates[i].key, w.candidates[i].rev)
             && Least(Current(w.hist), Pfx(name), w.candidates[i].key)
    ensures forall k | 0 <= k < |own| :: (own[k].Poll? || own[k].Deliver?) && own[k].i == i
    ensures Elected(Exec(Pfx(name), w0, steps + own), i)
    ensures var c := Exec(Pfx(name), w0, steps).candidates[i];
            LeaderIs(Pfx(name), Exec(Pfx(name), w0, steps + own), KeyOf(Pfx(name), c.lease), c.rev, c.wanted)
  {
    RunKeepsInv(name, w0, steps);
    var w := Exec(Pfx(name), w0, steps);
    var poll := Poll(i, None);
    own := [poll];
    if w.candidates[i].phase.Watching? {
      var at := DeliveryWakes(Pfx(name), w, i);
      var deliver := Deliver(i, at);
      ExecAppend(Pfx(name), w0, steps, deliver);
      own := [deliver, poll];
      assert steps + own == steps + [deliver] + [poll];
      RunKeepsInv(name, w0, steps + [deliver]);
      ExecAppend(Pfx(name), w0, steps + [deliver], poll);
      PollWins(Pfx(name), Exec(Pfx(name), w0, steps + [deliver]), i);
    } else {
      ExecAppend(Pfx(name), w0, steps, poll);
      PollWins(Pfx(name), w, i);
    }
  }

  // The end of the watched predecessor reaches the candidate as a watch event.
  lemma DeliveryWakes(pfx: Key, w: World, i: nat) returns (at: nat)
    requires Inv(pfx, w) && i < |w.candidates| && w.candidates[i].phase.Watching?
    requires Live(Current(w.hist), w.candidates[i].key, w.candidates[i].rev)
    requires Least(Current(w.hist), pfx, w.candidates[i].key)
    ensures DoStep(pfx, w, Deliver(i, at))
         == w.(candidates := w.candidates[i := w.candidates[i].(phase := Polling)])
  {
    var c := w.candidates[i];
    assert CandidateInv(pfx, w.hist, c);
    at := DeletedSince(w.hist, c.phase.from, Revision(w.hist), c.phase.key);
  }

  // A poll that finds nobody older elects the candidate, with the value it campaigned for.
  lemma PollWins(pfx: Key, w: World, i: nat)
    requires pfx != "" && Inv(pfx, w) && i < |w.candidates| && w.candidates[i].phase.Polling?
    requires Live(Current(w.hist), w.candidates[i].key, w.candidates[i].rev)
    requires Least(Current(w.hist), pfx, w.candidates[i].key)
    ensures var c := w.candidates[i];
            var w' := DoStep(pfx, w, Poll(i, None));
            && Elected(w', i)
            && LeaderIs(pfx, w', KeyOf(pfx, c.lease), c.rev, c.wanted)
  {
    var c := w.candidates[i];
    assert CandidateInv(pfx, w.hist, c);
    assert DoStep(pfx, w, Poll(i, None)) == w.(candidates := w.candidates[i := c.(phase := Leading)]);
    StepKeepsInv(pfx, w, Poll(i, None));
    ElectedIsLeader(pfx, DoStep(pfx, w, Poll(i, None)), i);
  }

  /** A waiting candidate watches the place right in front of its own: at no later time is there a key under the prefix
      that was created after the watched one and before its own. */
  lemma {:induction false} WatchesNextInLine(name: Key, w0: World, steps: seq<Step>, i: nat, k: Key)
    requires Initial(Pfx(name), w0)
    requires var w := Exec(Pfx(name), w0, steps);
             && i < |w.candidates| && w.candidates[i].phase.Watching? && k in Current(w.hist) && Pfx(name) <= k
    ensures var w := Exec(Pfx(name), w0, steps); var c := w.candidates[i];
            && c.phase.from < |w.hist| && c.phase.key in w.hist[c.phase.from]
            && var ahead := w.hist[c.phase.from][c.phase.key].createRev;
               ahead < c.rev && !(ahead < Current(w.hist)[k].createRev < c.rev)
  {
    RunKeepsInv(name, w0, steps);
    var w := Exec(Pfx(name), w0, steps);
    var c := w.candidates[i];
    assert CandidateInv(Pfx(name), w.hist, c);
    NobodyBetween(Pfx(name), w.hist, c.phase.key, c.phase.from, c.rev, Revision(w.hist), k);
  }

  lemma {:induction false} StoreGrows(name: Key, w0: World, steps: seq<Step>, more: seq<Step>)
    requires Initial(Pfx(name), w0)
    ensures Exec(Pfx(name), w0, steps).hist <= Exec(Pfx(name), w0, steps + more).hist
    decreases |more|
  {
    if more == [] {
      assert steps + more == steps;
    } else {
      var before, last := more[..|more| - 1], more[|more| - 1];
      assert steps + more == steps + before + [last];
      StoreGrows(name, w0, steps, before);
      StoreGrowsOnce(name, w0, steps + before, last);
    }
  }

  lemma StoreGrowsOnce(name: Key, w0: World, steps: seq<Step>, last: Step)
    requires Initial(Pfx(name), w0)
    ensures Exec(Pfx(name), w0, steps).hist <= Exec(Pfx(name), w0, steps + [last]).hist
  {
    ExecAppend(Pfx(name), w0, steps, last);
    RunKeepsInv(name, w0, steps);
    StepKeepsInv(Pfx(name), Exec(Pfx(name), w0, steps), last);
  }

  /** Fencing over whole runs: the create revisions of successive leaders never decrease, and grow whenever the
      leadership passes on. */
  lemma {:induction false} LeadersInOrder(name: Key, w0: World, steps: seq<Step>, more: seq<Step>, i: nat, j: nat)
    requires Initial(Pfx(name), w0)
    requires Elected(Exec(Pfx(name), w0, steps), i) && Elected(Exec(Pfx(name), w0, steps + more), j)
    ensures var c, c' := Exec(Pfx(name), w0, steps).candidates[i], Exec(Pfx(name), w0, steps + more).candidates[j];
            c.rev <= c'.rev && (c.rev == c'.rev ==> c.key == c'.key)
  {
    RunKeepsInv(name, w0, steps);
    RunKeepsInv(name, w0, steps + more);
    StoreGrows(name, w0, steps, more);
    TwoLeaders(Pfx(name), Exec(Pfx(name), w0, steps), Exec(Pfx(name), w0, steps + more), i, j);
  }

  lemma TwoLeaders(pfx: Key, w: World, w': World, i: nat, j: nat)
    requires pfx != "" && Inv(pfx, w) && Inv(pfx, w') && w.hist <= w'.hist && Elected(w, i) && Elected(w', j)
    ensures w.candidates[i].rev <= w'.candidates[j].rev
    ensures w.candidates[i].rev == w'.candidates[j].rev ==> w.candidates[i].key == w'.candidates[j].key
  {
    ElectedIsLeader(pfx, w, i);
    ElectedIsLeader(pfx, w', j);
    assert w'.hist[Revision(w.hist)] == Current(w.hist);
    FirstsInOrder(w'.hist, Revision(w.hist), Revision(w'.hist), pfx, w.candidates[i].key, w'.candidates[j].key);
  }
}
