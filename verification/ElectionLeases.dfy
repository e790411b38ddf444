/** When a candidate whose Campaign has returned nil is the elected leader: exactly as long as its session's lease
    lasts. */
module ElectionLeases {
  import opened Store
  import opened Cluster
  import opened Queue
  import opened Waiting
  import opened ElectionSpec
  import M = MutexSpec
  import opened ElectionRuns
  import L = MutexLeases

  // The session's lease has not expired since the Campaign that took, or kept, the candidate's place.
  ghost predicate LeaseLasted(pfx: Key, w0: World, steps: seq<Step>, i: nat)
    requires i < |w0.candidates|
    decreases |steps|
  {
    steps != []
    && var before, last := steps[..|steps| - 1], steps[|steps| - 1];
       if last == Expire(w0.candidates[i].lease) then false
       else if Places(Exec(pfx, w0, before), last, i) then true
       else LeaseLasted(pfx, w0, before, i)
  }

  // The first request of a Campaign that gets through.
  ghost predicate Places(w: World, step: Step, i: nat) {
    step.Campaign? && step.i == i && step.ok && i < |w.candidates| && AtRest(w.candidates[i])
  }

  // The candidate's key is in the line, in the incarnation remembered, if and only if the lease has lasted. A leader
  // that has forgotten its key has lost the lease before.
  ghost predicate PlaceInv(pfx: Key, h: History, c: Candidate, lasted: bool) {
    var k := KeyOf(pfx, c.lease);
    && (k in Current(h) ==> Current(h)[k].lease == c.lease)
    && (!c.phase.Resting? ==>
          && (k in Current(h) <==> lasted)
          && (lasted ==> Live(Current(h), k, c.rev)))
    && (c.phase.Leading? && c.key == "" ==> !lasted)
  }

  // ---------- Preservation ----------

  lemma WriteKeepsPlace(pfx: Prefix, h: History, c: Candidate, val: string, lasted: bool)
    requires StoreInv(pfx, h) && CandidateInv(pfx, h, c) && PlaceInv(pfx, h, c, lasted)
    requires (AtRest(c) && c.session) || c.phase.Proposing?
    ensures var (c', h') := AnnounceCandidate(c, h, val); PlaceInv(pfx, h', c', lasted)
  {
    var b: Batch := map[c.key := Put(val, c.lease)];
    assert c.key in b;
  }

  lemma EnterKeepsPlace(pfx: Prefix, h: History, c: Candidate, val: string, lasted: bool)
    requires StoreInv(pfx, h) && PlaceInv(pfx, h, c, lasted)
    ensures var (c', h') := CampaignCandidate(pfx, c, h, val); PlaceInv(pfx, h', c', true)
  {
    var k := KeyOf(pfx, c.lease);
    M.EnqueueKeeps(h, k, val, c.lease);
    var b: Batch := map[k := Put(val, c.lease)];
    assert k in b;
  }

  lemma OwnStepKeepsPlace(pfx: Prefix, h: History, c: Candidate, step: Step, lasted: bool)
    requires StoreInv(pfx, h) && CandidateInv(pfx, h, c) && PlaceInv(pfx, h, c, lasted)
    requires !step.Expire? && !step.Outside?
    ensures var (c', h') := CandidateStep(pfx, c, h, step);
            PlaceInv(pfx, h', c', lasted || (step.Campaign? && step.ok && AtRest(c)))
  {
    match step
    case Campaign(_, val, ok) => if AtRest(c) && ok { EnterKeepsPlace(pfx, h, c, val, lasted); }
    case Propose(_, ok) => if c.phase.Proposing? && ok { WriteKeepsPlace(pfx, h, c, c.wanted, lasted); }
    case Proclaim(_, val, ok) => if AtRest(c) && c.session && ok { WriteKeepsPlace(pfx, h, c, val, lasted); }
    case _ =>
  }

  lemma ExpiryKeepsPlace(pfx: Prefix, h: History, c: Candidate, lease: nat, lasted: bool)
    requires PlaceInv(pfx, h, c, lasted)
    ensures PlaceInv(pfx, Commit(h, Expiry(Current(h), lease)), c, lasted && lease != c.lease)
  {
    var k, b := KeyOf(pfx, c.lease), Expiry(Current(h), lease);
    if lease != c.lease {
      assert k !in b;
      assert Lookup(Current(Commit(h, b)), k) == Lookup(Current(h), k);
    }
  }

  lemma UntouchedKeepsPlace(pfx: Prefix, h: History, h': History, c: Candidate, lasted: bool)
    requires PlaceInv(pfx, h, c, lasted)
    requires Lookup(Current(h'), KeyOf(pfx, c.lease)) == Lookup(Current(h), KeyOf(pfx, c.lease))
    ensures PlaceInv(pfx, h', c, lasted)
  {
  }

  lemma StepKeepsPlace(pfx: Prefix, w: World, step: Step, i: nat, lasted: bool)
    requires Inv(pfx, w) && i < |w.candidates| && PlaceInv(pfx, w.hist, w.candidates[i], lasted)
    ensures var w' := DoStep(pfx, w, step);
            && |w'.candidates| == |w.candidates| && w'.candidates[i].lease == w.candidates[i].lease
            && PlaceInv(pfx, w'.hist, w'.candidates[i],
                        step != Expire(w.candidates[i].lease) && (lasted || Places(w, step, i)))
  {
    var c, w' := w.candidates[i], DoStep(pfx, w, step);
    assert CandidateInv(pfx, w.hist, c);
    if step.Expire? {
      ExpiryKeepsPlace(pfx, w.hist, c, step.lease, lasted);
    } else if step.Outside? {
      assert forall k | k !in step.batch ::
          Lookup(Current(Commit(w.hist, step.batch)), k) == Lookup(Current(w.hist), k);
      UntouchedKeepsPlace(pfx, w.hist, w'.hist, c, lasted);
    } else if step.i == i {
      OwnStepKeepsPlace(pfx, w.hist, c, step, lasted);
    } else if step.i < |w.candidates| {
      CandidateStepKeepsInv(pfx, w.hist, w.candidates[step.i], step);
      DifferentKeys(pfx, c.lease, w.candidates[step.i].lease);
      UntouchedKeepsPlace(pfx, w.hist, w'.hist, c, lasted);
    }
  }

  lemma {:induction false} RunKeepsPlace(name: Key, w0: World, steps: seq<Step>, i: nat)
    requires Initial(Pfx(name), w0) && i < |w0.candidates|
    ensures var w := Exec(Pfx(name), w0, steps);
            && |w.candidates| == |w0.candidates| && w.candidates[i].lease == w0.candidates[i].lease
            && PlaceInv(Pfx(name), w.hist, w.candidates[i], LeaseLasted(Pfx(name), w0, steps, i))
    decreases |steps|
  {
    if steps == [] {
      assert InitialCandidate(Pfx(name), w0.hist, w0.candidates[i]);
    } else {
      var before, last := steps[..|steps| - 1], steps[|steps| - 1];
      RunKeepsPlace(name, w0, before, i);
      RunKeepsInv(name, w0, before);
      StepKeepsPlace(Pfx(name), Exec(Pfx(name), w0, before), last, i, LeaseLasted(Pfx(name), w0, before, i));
    }
  }

  // ---------- Main results ----------

  /** Exactly when a nil return of Campaign means leadership: in every run, the place that Campaign has taken is
      still in the line, in the incarnation remembered, if and only if the session's lease has not expired since; and
      a candidate whose Campaign has returned nil, and that has not resigned, is the elected leader under the same
      condition. */
  lemma {:induction false} ElectedWhileLeaseLasts(name: Key, w0: World, steps: seq<Step>, i: nat)
    requires Initial(Pfx(name), w0) && i < |w0.candidates|
    ensures var w := Exec(Pfx(name), w0, steps);
            var lasted := LeaseLasted(Pfx(name), w0, steps, i);
            && i < |w.candidates|
            && var c := w.candidates[i];
               && (!c.phase.Resting? ==> (Live(Current(w.hist), KeyOf(Pfx(name), c.lease), c.rev) <==> lasted))
               && (c.phase.Leading? ==> (Elected(w, i) <==> lasted))
  {
    RunKeepsPlace(name, w0, steps, i);
    RunKeepsInv(name, w0, steps);
    assert CandidateInv(Pfx(name), Exec(Pfx(name), w0, steps).hist, Exec(Pfx(name), w0, steps).candidates[i]);
  }

  ghost function TwoSessions(a: nat, b: nat): World {
    World(NEW_STORE, [Candidate(a, "", 0, false, Resting, "", ""), Candidate(b, "", 0, false, Resting, "", "")])
  }

  function LosingSteps(a: nat, b: nat, val: string): seq<Step> {
    [Campaign(0, val, true)] + [Campaign(1, val, true)] + [Expire(b)] + [Expire(a)] + [Poll(1, None)]
  }

  lemma FiveSteps(pfx: Key, w: World, s1: Step, s2: Step, s3: Step, s4: Step, s5: Step)
    ensures Exec(pfx, w, [s1] + [s2] + [s3] + [s4] + [s5])
         == DoStep(pfx, DoStep(pfx, DoStep(pfx, DoStep(pfx, DoStep(pfx, w, s1), s2), s3), s4), s5)
  {
    ExecAppend(pfx, w, [], s1);
    ExecAppend(pfx, w, [s1], s2);
    ExecAppend(pfx, w, [s1] + [s2], s3);
    ExecAppend(pfx, w, [s1] + [s2] + [s3], s4);
    ExecAppend(pfx, w, [s1] + [s2] + [s3] + [s4], s5);
    assert [] + [s1] == [s1];
  }

  lemma BothInLine(pfx: Prefix, a: nat, b: nat, val: string)
    requires a != b
    ensures var w := DoStep(pfx, DoStep(pfx, TwoSessions(a, b), Campaign(0, val, true)), Campaign(1, val, true));
            && Current(w.hist).Keys == {KeyOf(pfx, a), KeyOf(pfx, b)}
            && Current(w.hist)[KeyOf(pfx, a)].lease == a && Current(w.hist)[KeyOf(pfx, b)].lease == b
            && |w.candidates| == 2 && w.candidates[1].phase.Polling?
  {
    DifferentKeys(pfx, a, b);
    var w0 := TwoSessions(a, b);
    var w1 := DoStep(pfx, w0, Campaign(0, val, true));
    L.OnlyPut(w0.hist, KeyOf(pfx, a), val, a);
    assert Current(w1.hist) == map[KeyOf(pfx, a) := KV(KeyOf(pfx, a), val, 2, 2, a)];
    assert w1.candidates[1] == w0.candidates[1];
    L.OnlyPut(w1.hist, KeyOf(pfx, b), val, b);
  }

  // A waiting candidate that finds the line empty.
  lemma EmptyLineLeads(pfx: Key, w: World, i: nat)
    requires i < |w.candidates| && w.candidates[i].phase.Polling? && Current(w.hist) == map[]
    ensures var w' := DoStep(pfx, w, Poll(i, None)); w'.candidates[i].phase.Leading? && !Elected(w', i)
  {
  }

  lemma TwoSessionsInitial(pfx: Key, a: nat, b: nat)
    requires a != b
    ensures Initial(pfx, TwoSessions(a, b))
  {
  }

  /** It does happen: if the lease of a waiting candidate expires, and then everybody in front of it leaves, Campaign
      returns nil although the candidate is not elected. */
  lemma {:induction false} NilWithoutElection(name: Key, a: nat, b: nat, val: string)
    requires a != b
    ensures Initial(Pfx(name), TwoSessions(a, b))
    ensures var w := Exec(Pfx(name), TwoSessions(a, b), LosingSteps(a, b, val));
            |w.candidates| == 2 && w.candidates[1].phase.Leading? && !Elected(w, 1)
  {
    var pfx, w0 := Pfx(name), TwoSessions(a, b);
    var w2 := DoStep(pfx, DoStep(pfx, w0, Campaign(0, val, true)), Campaign(1, val, true));
    BothInLine(pfx, a, b, val);
    L.BothExpired(w2.hist, KeyOf(pfx, a), KeyOf(pfx, b), a, b);
    TwoSessionsInitial(pfx, a, b);
    EmptyLineLeads(pfx, DoStep(pfx, DoStep(pfx, w2, Expire(b)), Expire(a)), 1);
    FiveSteps(pfx, w0, Campaign(0, val, true), Campaign(1, val, true), Expire(b), Expire(a), Poll(1, None));
  }
}
