/** When a mutex whose Lock has returned nil owns the lock: exactly as long as its session's lease lasts. */
module MutexLeases {
  import opened Store
  import opened Cluster
  import opened Queue
  import opened Waiting
  import opened MutexSpec
  import opened MutexRuns

  // The session's lease has not expired since the Lock that took, or kept, the member's place.
  ghost predicate LeaseLasted(pfx: Key, w0: World, steps: seq<Step>, i: nat)
    requires i < |w0.members|
    decreases |steps|
  {
    steps != []
    && var before, last := steps[..|steps| - 1], steps[|steps| - 1];
       if last == Expire(w0.members[i].lease) then false
       else if Places(Exec(pfx, w0, before), last, i) then true
       else LeaseLasted(pfx, w0, before, i)
  }

  // The first request of a Lock that gets through.
  ghost predicate Places(w: World, step: Step, i: nat) {
    step == Lock(i, true) && i < |w.members| && AtRest(w.members[i])
  }

  // A key that a session finds in the line as its own is attached to its lease.
  ghost predicate OwnLeases(pfx: Key, w: World) {
    forall i | 0 <= i < |w.members| :: AttachedTo(Current(w.hist), KeyOf(pfx, w.members[i].lease), w.members[i].lease)
  }

  predicate AttachedTo(s: Snapshot, k: Key, lease: nat) {
    k in s ==> s[k].lease == lease
  }

  // The member's place: its key is in the line, in the incarnation remembered, if and only if the lease has lasted.
  ghost predicate PlaceInv(pfx: Key, h: History, m: Member, lasted: bool) {
    && AttachedTo(Current(h), KeyOf(pfx, m.lease), m.lease)
    && (!m.phase.Resting? ==>
          && (KeyOf(pfx, m.lease) in Current(h) <==> lasted)
          && (lasted ==> Live(Current(h), KeyOf(pfx, m.lease), m.rev)))
  }

  // ---------- Preservation ----------

  lemma SessionKeysDiffer(pfx: Prefix, lease: nat)
    ensures KeyOf(pfx, lease) !in {"", RELEASED_KEY}
  {
    HexNonEmpty(lease);
  }

  // A member's own step touches no session's key but its own.
  lemma StepTouchesOwnKey(pfx: Prefix, h: History, m: Member, step: Step, lease: nat)
    requires MemberInv(pfx, h, m) && lease != m.lease
    ensures var k := KeyOf(pfx, lease); Lookup(Current(MemberStep(pfx, m, h, step).1), k) == Lookup(Current(h), k)
  {
    DifferentKeys(pfx, lease, m.lease);
    SessionKeysDiffer(pfx, lease);
  }

  lemma OwnStepKeepsPlace(pfx: Prefix, h: History, m: Member, step: Step, lasted: bool)
    requires Valid(h) && MemberInv(pfx, h, m) && PlaceInv(pfx, h, m, lasted)
    requires step.Lock? || step.Poll? || step.Deliver? || step.WaitFails? || step.GiveUp? || step.Unlock?
    ensures var (m', h') := MemberStep(pfx, m, h, step);
            PlaceInv(pfx, h', m', lasted || (AtRest(m) && step.Lock? && step.ok))
  {
    SessionKeysDiffer(pfx, m.lease);
    EnqueueKeeps(h, KeyOf(pfx, m.lease), "", m.lease);
    if step.Lock? && step.ok && AtRest(m) {
      var k := KeyOf(pfx, m.lease);
      var b: Batch := map[k := Put("", m.lease)];
      assert k in b;
    }
  }

  lemma ExpiryKeepsPlace(pfx: Prefix, h: History, m: Member, lease: nat, lasted: bool)
    requires PlaceInv(pfx, h, m, lasted)
    ensures PlaceInv(pfx, Commit(h, Expiry(Current(h), lease)), m, lasted && lease != m.lease)
  {
    var k, b := KeyOf(pfx, m.lease), Expiry(Current(h), lease);
    if lease != m.lease {
      assert k !in b;
      assert Lookup(Current(Commit(h, b)), k) == Lookup(Current(h), k);
    }
  }

  lemma StepKeepsPlace(pfx: Prefix, w: World, step: Step, i: nat, lasted: bool)
    requires Inv(pfx, w) && i < |w.members| && PlaceInv(pfx, w.hist, w.members[i], lasted)
    ensures var w' := DoStep(pfx, w, step);
            && |w'.members| == |w.members| && w'.members[i].lease == w.members[i].lease
            && PlaceInv(pfx, w'.hist, w'.members[i],
                        step != Expire(w.members[i].lease) && (lasted || Places(w, step, i)))
  {
    var m := w.members[i];
    assert MemberInv(pfx, w.hist, m);
    match step
    case Expire(lease) => ExpiryKeepsPlace(pfx, w.hist, m, lease, lasted);
    case Outside(b) =>
      assert forall k | k !in b :: Lookup(Current(Commit(w.hist, b)), k) == Lookup(Current(w.hist), k);
    case _ =>
      if step.i == i {
        OwnStepKeepsPlace(pfx, w.hist, m, step, lasted);
      } else if step.i < |w.members| {
        assert MemberInv(pfx, w.hist, w.members[step.i]);
        StepTouchesOwnKey(pfx, w.hist, w.members[step.i], step, m.lease);
      }
  }

  lemma {:induction false} RunKeepsPlace(pfx: Prefix, w0: World, steps: seq<Step>, i: nat)
    requires Initial(pfx, w0) && OwnLeases(pfx, w0) && i < |w0.members|
    ensures var w := Exec(pfx, w0, steps);
            && |w.members| == |w0.members| && w.members[i].lease == w0.members[i].lease
            && PlaceInv(pfx, w.hist, w.members[i], LeaseLasted(pfx, w0, steps, i))
    decreases |steps|
  {
    if steps != [] {
      var before, last := steps[..|steps| - 1], steps[|steps| - 1];
      RunKeepsPlace(pfx, w0, before, i);
      RunKeepsInv(pfx, w0, before);
      StepKeepsPlace(pfx, Exec(pfx, w0, before), last, i, LeaseLasted(pfx, w0, before, i));
    }
  }

  // ---------- Main results ----------

  /** Exactly when a nil return of Lock means ownership: in every run, a place that Lock has taken is still in the
      line, in the incarnation remembered, if and only if the session's lease has not expired since; and a mutex
      whose Lock has returned nil owns the lock under the same condition. */
  lemma {:induction false} OwnerWhileLeaseLasts(name: Key, w0: World, steps: seq<Step>, i: nat)
    requires Initial(Pfx(name), w0) && OwnLeases(Pfx(name), w0) && i < |w0.members|
    ensures var w := Exec(Pfx(name), w0, steps);
            var lasted := LeaseLasted(Pfx(name), w0, steps, i);
            && i < |w.members|
            && (!w.members[i].phase.Resting? ==>
                  (Live(Current(w.hist), w.members[i].key, w.members[i].rev) <==> lasted))
            && (w.members[i].phase.Holding? ==> (Owner(w, i) <==> lasted))
  {
    RunKeepsPlace(Pfx(name), w0, steps, i);
    RunKeepsInv(Pfx(name), w0, steps);
    assert MemberInv(Pfx(name), Exec(Pfx(name), w0, steps).hist, Exec(Pfx(name), w0, steps).members[i]);
  }

  /** Mutual exclusion in a caller's terms: of the mutexes whose Lock has returned nil and whose leases have not
      expired since, there is at most one. */
  lemma {:induction false} OneHolderWhileLeasesLast(name: Key, w0: World, steps: seq<Step>, i: nat, j: nat)
    requires Initial(Pfx(name), w0) && OwnLeases(Pfx(name), w0) && i < |w0.members| && j < |w0.members|
    requires LeaseLasted(Pfx(name), w0, steps, i) && LeaseLasted(Pfx(name), w0, steps, j)
    requires var w := Exec(Pfx(name), w0, steps);
             && |w.members| == |w0.members|
             && w.members[i].phase.Holding? && w.members[j].phase.Holding?
    ensures i == j
  {
    OwnerWhileLeaseLasts(name, w0, steps, i);
    OwnerWhileLeaseLasts(name, w0, steps, j);
    MutualExclusion(name, w0, steps, i, j);
  }

  // Two sessions that have done nothing yet, and a new store.
  ghost function TwoSessions(a: nat, b: nat): World {
    World(NEW_STORE, [Member(a, "", -1, Resting), Member(b, "", -1, Resting)])
  }

  function LosingSteps(a: nat, b: nat): seq<Step> {
    [Lock(0, true)] + [Lock(1, true)] + [Expire(b)] + [Expire(a)] + [Poll(1, None)]
  }

  lemma FiveSteps(pfx: Key, w: World, s1: Step, s2: Step, s3: Step, s4: Step, s5: Step)
    ensures Exec(pfx, w, [s1] + [s2] + [s3] + [s4] + [s5])
         == DoStep(pfx, DoStep(pfx, DoStep(pfx, DoStep(pfx, DoStep(pfx, w, s1), s2), s3), s4), s5)
  {
    ExecAppend(pfx, w, [], s1);
    ExecAppend(pfx, w, [s1], s2);
    ExecAppend(pfx, w, [s1] + [s2], s3);
    ExecAppend(pfx, w, [s1] + [s2] + [s3], s4);
    ExecAppend(pfx, w, [s1] + [s2] + [s3] + [s4], s5);
    assert [] + [s1] == [s1];
  }

  // Both sessions are in the line, the second one waiting.
  lemma BothInLine(pfx: Prefix, a: nat, b: nat)
    requires a != b
    ensures var w := DoStep(pfx, DoStep(pfx, TwoSessions(a, b), Lock(0, true)), Lock(1, true));
            && Current(w.hist).Keys == {KeyOf(pfx, a), KeyOf(pfx, b)}
            && Current(w.hist)[KeyOf(pfx, a)].lease == a && Current(w.hist)[KeyOf(pfx, b)].lease == b
            && |w.members| == 2 && w.members[1].phase.Polling?
  {
    DifferentKeys(pfx, a, b);
    var w0 := TwoSessions(a, b);
    var w1 := DoStep(pfx, w0, Lock(0, true));
    OnlyPut(w0.hist, KeyOf(pfx, a), "", a);
    assert Current(w1.hist) == map[KeyOf(pfx, a) := KV(KeyOf(pfx, a), "", 2, 2, a)];
    assert w1.members[1] == w0.members[1];
    OnlyPut(w1.hist, KeyOf(pfx, b), "", b);
  }

  lemma OnlyPut(h: History, k: Key, val: string, lease: nat)
    requires k !in Current(h)
    ensures Enqueue(h, k, val, lease)
         == (h + [Current(h)[k := KV(k, val, |h|, |h|, lease)]], |h|)
  {
    var b: Batch := map[k := Put(val, lease)];
    assert k in b;
    assert Apply(Current(h), |h|, b) == Current(h)[k := KV(k, val, |h|, |h|, lease)];
  }

  lemma BothExpired(h: History, k: Key, j: Key, a: nat, b: nat)
    requires Current(h).Keys == {k, j} && Current(h)[k].lease == a && Current(h)[j].lease == b
    ensures var h1 := Commit(h, Expiry(Current(h), b));
            Current(Commit(h1, Expiry(Current(h1), a))) == map[]
  {
  }

  // A waiting member that finds the line empty.
  lemma EmptyLineHolds(pfx: Key, w: World, i: nat)
    requires i < |w.members| && w.members[i].phase.Polling? && Current(w.hist) == map[]
    ensures var w' := DoStep(pfx, w, Poll(i, None)); w'.members[i].phase.Holding? && !Owner(w', i)
  {
  }

  lemma TwoSessionsInitial(pfx: Key, a: nat, b: nat)
    requires a != b
    ensures Initial(pfx, TwoSessions(a, b)) && OwnLeases(pfx, TwoSessions(a, b))
  {
  }

  /** It does happen: if the lease of a waiting session expires, and then everybody in front of it leaves, Lock
      returns nil although the lock is not owned. */
  lemma {:induction false} NilWithoutOwnership(name: Key, a: nat, b: nat)
    requires a != b
    ensures Initial(Pfx(name), TwoSessions(a, b)) && OwnLeases(Pfx(name), TwoSessions(a, b))
    ensures var w := Exec(Pfx(name), TwoSessions(a, b), LosingSteps(a, b));
            |w.members| == 2 && w.members[1].phase.Holding? && !Owner(w, 1)
  {
    var pfx, w0 := Pfx(name), TwoSessions(a, b);
    var w2 := DoStep(pfx, DoStep(pfx, w0, Lock(0, true)), Lock(1, true));
    BothInLine(pfx, a, b);
    BothExpired(w2.hist, KeyOf(pfx, a), KeyOf(pfx, b), a, b);
    TwoSessionsInitial(pfx, a, b);
    var w4 := DoStep(pfx, DoStep(pfx, w2, Expire(b)), Expire(a));
    EmptyLineHolds(pfx, w4, 1);
    FiveSteps(pfx, w0, Lock(0, true), Lock(1, true), Expire(b), Expire(a), Poll(1, None));
  }
}
