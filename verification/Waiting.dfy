/** Waiting until every key older than a given create revision is gone, by watching only the youngest of
    them at a time. */
module Waiting {
  import opened Store
  import opened Cluster
  import opened Queue

  // The errors of the calls that wait, or announce something, in the line.
  datatype CallError = NotLeader | NoLeader | WaitEnded | RequestFailed

  ghost predicate Deleted(h: History, key: Key, r: nat) {
    0 < r < |h| && key in h[r - 1] && key !in h[r]
  }

  // ---------- The course of a wait ----------

  // What a waiter sees, and the store when it happens: the youngest older key, or the deletion it watches for.
  datatype Sight = Polled(h: History, pick: Option<KV>) | Saw(h: History, at: nat)

  // Where a waiter is: about to ask for the youngest older key, watching it, or through.
  datatype Stage = Asking | Awaiting(key: Key, from: nat) | Through

  ghost function StageOf(sight: Sight): Stage {
    match sight
    case Polled(h, pick) => if pick.None? then Through else Awaiting(pick.value.key, Revision(h))
    case Saw(_, _) => Asking
  }

  ghost function StageAfter(sights: seq<Sight>): Stage {
    if sights == [] then Asking else StageOf(sights[|sights| - 1])
  }

  ghost predicate Sees(pfx: Key, max: int, stage: Stage, sight: Sight) {
    match stage
    case Asking => sight.Polled? && IsLastCreated(Current(sight.h), pfx, max, sight.pick)
    case Awaiting(key, from) => sight.Saw? && from <= sight.at && Deleted(sight.h, key, sight.at)
    case Through => false
  }

  // Every sight is one that the waiter can have where it is, and the store only grows between the sights, from
  // `h0` to `h`.
  ghost predicate Course(pfx: Key, max: int, h0: History, h: History, sights: seq<Sight>)
    decreases |sights|
  {
    if sights == [] then h0 <= h
    else
      var before, last := sights[..|sights| - 1], sights[|sights| - 1];
      Course(pfx, max, h0, last.h, before) && Sees(pfx, max, StageAfter(before), last) && last.h <= h
  }

  lemma CourseLater(pfx: Key, max: int, h0: History, h: History, sights: seq<Sight>, h': History)
    requires Course(pfx, max, h0, h, sights) && h <= h'
    ensures Course(pfx, max, h0, h', sights)
  {
  }

  lemma CourseAppend(pfx: Key, max: int, h0: History, h: History, sights: seq<Sight>, sight: Sight, h': History)
    requires Course(pfx, max, h0, h, sights) && Sees(pfx, max, StageAfter(sights), sight)
    requires h <= sight.h <= h'
    ensures Course(pfx, max, h0, h', sights + [sight])
    ensures StageAfter(sights + [sight]) == StageOf(sight)
  {
    assert (sights + [sight])[..|sights|] == sights;
    CourseLater(pfx, max, h0, h, sights, sight.h);
  }

  // ---------- Waiting ----------

  // Since `start` the client has been told the deliveries of one watch on the key, from revision `rev` to `to`, and
  // no deletion.
  ghost predicate WatchedOnly(told: Log, start: Log, key: Key, rev: nat, to: nat) {
    if told == start then to == rev
    else
      && told.Then? && told.last.Delivery? && told.last.scope == One(key) && told.last.to == to
      && (forall e | e in told.last.evs :: e.PutEvent?)
      && WatchedOnly(told.before, start, key, rev, told.last.from)
  }

  lemma {:induction false} WatchedLength(told: Log, start: Log, key: Key, rev: nat, to: nat)
    requires WatchedOnly(told, start, key, rev, to)
    ensures Length(told) >= Length(start)
  {
    if told != start {
      WatchedLength(told.before, start, key, rev, told.last.from);
    }
  }

  /** Waits for the key's deletion at or after revision `rev`, and returns as soon as it is delivered; it happened
      at revision `at`. The only other way out is the end of the watch. The deliveries without a deletion cover the
      revisions before `watched`. */
  method WaitDelete(c: Cluster, key: Key, rev: nat) returns (ok: bool, ghost at: nat, ghost watched: nat)
    requires Valid(c.hist) && 0 < rev <= |c.hist|
    modifies c
    ensures Interfered(old(c.hist), old(c.others), c.hist, c.others) && Valid(c.hist)
    ensures ok ==> c.ctxDone == old(c.ctxDone) && c.lost == old(c.lost)
    ensures c.failed == old(c.failed)
    ensures ok ==> rev <= at < |c.hist| && Deleted(c.hist, key, at)
    ensures !ok ==> c.ctxDone || c.lost
    ensures !ok ==> WatchedOnly(c.told, old(c.told), key, rev, watched)
    ensures ok ==> c.told.Then? && WatchedOnly(c.told.before, old(c.told), key, rev, watched)
  {
    var from := rev;
    InterferedReflexive(c.hist, c.others);
    while true
      invariant Interfered(old(c.hist), old(c.others), c.hist, c.others) && Valid(c.hist)
      invariant rev <= from <= |c.hist|
      invariant WatchedOnly(c.told, old(c.told), key, rev, from)
      invariant c.ctxDone == old(c.ctxDone) && c.lost == old(c.lost) && c.failed == old(c.failed)
      decreases |c.hist| + |c.others| - from
    {
      ghost var h, bs, told := c.hist, c.others, c.told;
      var open, to, header, evs := c.Next(One(key), from);
      InterferedExtends(h, bs, c.hist, c.others);
      InterferedTransitive(old(c.hist), old(c.others), h, bs, c.hist, c.others);
      if !open {
        return false, 0, from;
      }
      WatchedLength(told, old(c.told), key, rev, from);
      var i := FirstDelete(evs);
      if i < |evs| {
        return true, EventRev(evs[i]), from;
      }
      from := to;
    }
  }

  // The index of the first deletion among the events of a delivery.
  method FirstDelete(evs: seq<Event>) returns (i: nat)
    ensures i <= |evs| && (forall j | 0 <= j < i :: evs[j].PutEvent?) && (i < |evs| ==> evs[i].DeleteEvent?)
  {
    for k := 0 to |evs|
      invariant forall j | 0 <= j < k :: evs[j].PutEvent?
    {
      if evs[k].DeleteEvent? {
        return k;
      }
    }
    return |evs|;
  }

  // `asked` says whether the failure came after the answer to the request.
  datatype Round = Clear(hdr: nat) | OneLess | Failed(asked: bool)

  // One round of waitDeletes: if there are older keys, wait for the youngest of them to leave. The answer `pick` is
  // that of the store `seen`, the deletion happened at revision `at`.
  method WaitForLast(c: Cluster, pfx: Prefix, maxCreateRev: int)
    returns (round: Round, ghost seen: History, ghost pick: Option<KV>, ghost at: nat)
    requires Valid(c.hist) && maxCreateRev < |c.hist|
    modifies c
    ensures Interfered(old(c.hist), old(c.others), c.hist, c.others) && Valid(c.hist)
    ensures old(c.hist) <= seen <= c.hist
    ensures if round.Failed? then c.ctxDone || c.lost || c.failed
            else c.ctxDone == old(c.ctxDone) && c.lost == old(c.lost) && c.failed == old(c.failed)
    ensures !round.Failed? || round.asked ==> IsLastCreated(Current(seen), pfx, maxCreateRev, pick)
    ensures pick.None? <==> round.Clear? || round == Failed(false)
    ensures round.Clear? ==> seen == c.hist && round.hdr == Revision(c.hist)
    ensures round.OneLess? ==>
      && Revision(seen) <= at && Deleted(c.hist, pick.value.key, at)
      && |Predecessors(Current(c.hist), pfx, maxCreateRev)| < |Predecessors(Current(seen), pfx, maxCreateRev)|
  {
    InterferedReflexive(c.hist, c.others);
    seen, pick, at := c.hist, None, 0;
    var sent := c.Accepts(pfx);
    if !sent {
      round := Failed(false);
      return;
    }
    var resp := c.GetLastCreated(pfx, maxCreateRev);
    InterferedExtends(old(c.hist), old(c.others), c.hist, c.others);
    seen, pick := c.hist, resp.kv;
    if resp.kv.None? {
      round := Clear(resp.rev);
      return;
    }
    ghost var bs := c.others;
    var ok;
    ok, at := WaitForKey(c, pfx, maxCreateRev, resp.kv.value.key);
    InterferedTransitive(old(c.hist), old(c.others), seen, bs, c.hist, c.others);
    round := if ok then OneLess else Failed(true);
  }

  // Waits for one older key to leave.
  method WaitForKey(c: Cluster, pfx: Prefix, maxCreateRev: int, key: Key) returns (ok: bool, ghost at: nat)
    requires Valid(c.hist) && maxCreateRev < |c.hist| && key in Predecessors(Current(c.hist), pfx, maxCreateRev)
    modifies c
    ensures Interfered(old(c.hist), old(c.others), c.hist, c.others) && Valid(c.hist) && old(c.hist) <= c.hist
    ensures if ok then c.ctxDone == old(c.ctxDone) && c.lost == old(c.lost) else c.ctxDone || c.lost
    ensures c.failed == old(c.failed)
    ensures ok ==>
      && Revision(old(c.hist)) <= at && Deleted(c.hist, key, at)
      && |Predecessors(Current(c.hist), pfx, maxCreateRev)| < |Predecessors(Current(old(c.hist)), pfx, maxCreateRev)|
  {
    ghost var watched;
    ok, at, watched := WaitDelete(c, key, Revision(c.hist));
    InterferedExtends(old(c.hist), old(c.others), c.hist, c.others);
    if ok {
      LastLeaves(old(c.hist), c.hist, pfx, maxCreateRev, key);
    }
  }

  ghost function RoundSights(round: Round, seen: History, pick: Option<KV>, at: nat, h: History): seq<Sight> {
    match round
    case Clear(_) => [Polled(seen, None)]
    case OneLess => [Polled(seen, pick)] + [Saw(h, at)]
    case Failed(asked) => if asked then [Polled(seen, pick)] else []
  }

  lemma RoundContinues(pfx: Key, max: int, h0: History, h: History, sights: seq<Sight>,
                       round: Round, seen: History, pick: Option<KV>, at: nat, h': History)
    requires Course(pfx, max, h0, h, sights) && StageAfter(sights) == Asking && h <= seen <= h'
    requires !round.Failed? || round.asked ==> IsLastCreated(Current(seen), pfx, max, pick)
    requires pick.None? <==> round.Clear? || round == Failed(false)
    requires round.OneLess? ==> Revision(seen) <= at && Deleted(h', pick.value.key, at)
    ensures var sights' := sights + RoundSights(round, seen, pick, at, h');
            && Course(pfx, max, h0, h', sights')
            && (StageAfter(sights') == Through <==> round.Clear?)
            && (round.OneLess? ==> StageAfter(sights') == Asking)
  {
    match round
    case Clear(_) => CourseAppend(pfx, max, h0, h, sights, Polled(seen, pick), h');
    case OneLess => TwoSightsContinue(pfx, max, h0, h, sights, seen, pick, at, h');
    case Failed(asked) =>
      if asked {
        CourseAppend(pfx, max, h0, h, sights, Polled(seen, pick), h');
      } else {
        assert sights + [] == sights;
        CourseLater(pfx, max, h0, h, sights, h');
      }
  }

  lemma TwoSightsContinue(pfx: Key, max: int, h0: History, h: History, sights: seq<Sight>,
                          seen: History, pick: Option<KV>, at: nat, h': History)
    requires Course(pfx, max, h0, h, sights) && StageAfter(sights) == Asking && h <= seen <= h'
    requires IsLastCreated(Current(seen), pfx, max, pick) && pick.Some?
    requires Revision(seen) <= at && Deleted(h', pick.value.key, at)
    ensures var sights' := sights + ([Polled(seen, pick)] + [Saw(h', at)]);
            Course(pfx, max, h0, h', sights') && StageAfter(sights') == Asking
  {
    var asked, told := Polled(seen, pick), Saw(h', at);
    CourseAppend(pfx, max, h0, h, sights, asked, seen);
    CourseAppend(pfx, max, h0, seen, sights + [asked], told, h');
    assert sights + ([asked] + [told]) == sights + [asked] + [told];
  }

  // One round, which adds to what has been seen since `h0`.
  method NextRound(c: Cluster, pfx: Prefix, maxCreateRev: int, ghost h0: History, ghost sights: seq<Sight>)
    returns (round: Round, ghost sights': seq<Sight>)
    requires Valid(c.hist) && maxCreateRev < |c.hist|
    requires Course(pfx, maxCreateRev, h0, c.hist, sights) && StageAfter(sights) == Asking
    modifies c
    ensures Interfered(old(c.hist), old(c.others), c.hist, c.others) && Valid(c.hist) && old(c.hist) <= c.hist
    ensures if round.Failed? then c.ctxDone || c.lost || c.failed
            else c.ctxDone == old(c.ctxDone) && c.lost == old(c.lost) && c.failed == old(c.failed)
    ensures round.Clear? ==> round.hdr == Revision(c.hist) && Predecessors(Current(c.hist), pfx, maxCreateRev) == {}
    ensures round.OneLess? ==>
      |Predecessors(Current(c.hist), pfx, maxCreateRev)| < |Predecessors(Current(old(c.hist)), pfx, maxCreateRev)|
    ensures Course(pfx, maxCreateRev, h0, c.hist, sights') && (StageAfter(sights') == Through <==> round.Clear?)
    ensures round.OneLess? ==> StageAfter(sights') == Asking
  {
    ghost var seen, pick, at;
    round, seen, pick, at := WaitForLast(c, pfx, maxCreateRev);
    InterferedExtends(old(c.hist), old(c.others), c.hist, c.others);
    RoundContinues(pfx, maxCreateRev, h0, old(c.hist), sights, round, seen, pick, at, c.hist);
    sights' := sights + RoundSights(round, seen, pick, at, c.hist);
    if round.OneLess? {
      SeenIsValid(seen, c.hist);
      Shrinks(old(c.hist), seen, pfx, maxCreateRev);
    }
  }

  /** Succeeds only at a revision where no key under the prefix was created at or before `maxCreateRev`, and
      waits at most once for each such key there was at the start. `hdr` is that revision. It fails only when the
      waiting ends or a request fails. `sights` is the course it took. */
  method WaitDeletes(c: Cluster, pfx: Prefix, maxCreateRev: int)
    returns (ok: bool, hdr: nat, rounds: nat, ghost sights: seq<Sight>)
    requires Valid(c.hist) && maxCreateRev < |c.hist|
    modifies c
    ensures Interfered(old(c.hist), old(c.others), c.hist, c.others) && Valid(c.hist)
    ensures ok ==> hdr == Revision(c.hist) && Predecessors(Current(c.hist), pfx, maxCreateRev) == {}
    ensures if ok then c.ctxDone == old(c.ctxDone) && c.lost == old(c.lost) && c.failed == old(c.failed)
            else c.ctxDone || c.lost || c.failed
    ensures rounds <= |Predecessors(Current(old(c.hist)), pfx, maxCreateRev)|
    ensures Course(pfx, maxCreateRev, old(c.hist), c.hist, sights) && (ok <==> StageAfter(sights) == Through)
  {
    ghost var waiting := Predecessors(Current(c.hist), pfx, maxCreateRev);
    InterferedReflexive(c.hist, c.others);
    rounds, sights := 0, [];
    while true
      invariant Interfered(old(c.hist), old(c.others), c.hist, c.others) && Valid(c.hist)
      invariant old(c.hist) <= c.hist
      invariant c.ctxDone == old(c.ctxDone) && c.lost == old(c.lost) && c.failed == old(c.failed)
      invariant waiting == Predecessors(Current(c.hist), pfx, maxCreateRev)
      invariant rounds + |waiting| <= |Predecessors(Current(old(c.hist)), pfx, maxCreateRev)|
      invariant Course(pfx, maxCreateRev, old(c.hist), c.hist, sights) && StageAfter(sights) == Asking
      decreases |waiting|
    {
      ghost var h, bs := c.hist, c.others;
      var round;
      round, sights := NextRound(c, pfx, maxCreateRev, old(c.hist), sights);
      InterferedTransitive(old(c.hist), old(c.others), h, bs, c.hist, c.others);
      match round {
        case Clear(rev) => return true, rev, rounds, sights;
        case Failed(_) => return false, 0, rounds, sights;
        case OneLess =>
          waiting := Predecessors(Current(c.hist), pfx, maxCreateRev);
          rounds := rounds + 1;
      }
    }
  }

  // At revision `from` the key was in the line, right in front of a place taken at revision `rev`.
  ghost predicate WatchesOlder(pfx: Key, h: History, key: Key, from: nat, rev: int) {
    && 0 < from < |h| && rev <= from && pfx <= key && key in h[from] && h[from][key].createRev < rev
    && forall k | k in h[from] && pfx <= k && h[from][k].createRev < rev ::
         h[from][k].createRev <= h[from][key].createRev
  }

  /** The watched key's place is the one right in front, then and ever after: no key is, or comes, between the two. */
  lemma NobodyBetween(pfx: Key, h: History, key: Key, from: nat, rev: int, r: nat, k: Key)
    requires Valid(h) && WatchesOlder(pfx, h, key, from, rev)
    requires from <= r < |h| && k in h[r] && pfx <= k
    ensures !(h[from][key].createRev < h[r][k].createRev < rev)
  {
    if h[r][k].createRev < rev {
      SameIncarnation(h, from, r, k);
    }
  }

  // Two places that are still taken are not both right behind the same one.
  lemma OneBehind(pfx: Key, h: History, key: Key, from: nat, from': nat, k: Key, rev: int, k': Key, rev': int)
    requires Valid(h) && DistinctCreates(Current(h), pfx)
    requires WatchesOlder(pfx, h, key, from, rev) && WatchesOlder(pfx, h, key, from', rev')
    requires h[from][key].createRev == h[from'][key].createRev
    requires pfx <= k && pfx <= k' && Live(Current(h), k, rev) && Live(Current(h), k', rev')
    ensures k == k'
  {
    NobodyBetween(pfx, h, key, from, rev, Revision(h), k');
    NobodyBetween(pfx, h, key, from', rev', Revision(h), k);
  }

  /** A key that was there and whose incarnation is over was deleted in between, where a watch sees it. */
  lemma {:induction false} DeletedSince(h: History, a: nat, b: nat, key: Key) returns (r: nat)
    requires Valid(h) && a <= b < |h| && key in h[a]
    requires !Live(h[b], key, h[a][key].createRev)
    ensures a < r <= b && Deleted(h, key, r)
    decreases b - a
  {
    assert Transition(h[a], h[a + 1], a + 1);
    if key !in h[a + 1] {
      r := a + 1;
    } else {
      r := DeletedSince(h, a + 1, b, key);
    }
  }

  lemma SeenIsValid(h: History, h': History)
    requires Valid(h') && h <= h'
    ensures Valid(h)
  {
    forall r | 0 < r < |h|
      ensures Transition(h[r - 1], h[r], r)
    {
      assert Transition(h'[r - 1], h'[r], r);
    }
  }

  lemma Shrinks(h: History, h': History, pfx: Key, max: int)
    requires Valid(h') && h <= h' && max < |h|
    ensures Predecessors(Current(h'), pfx, max) <= Predecessors(Current(h), pfx, max)
    ensures |Predecessors(Current(h'), pfx, max)| <= |Predecessors(Current(h), pfx, max)|
  {
    PredecessorsOnlyLeave(h', Revision(h), Revision(h'), pfx, max);
    Smaller(Predecessors(Current(h'), pfx, max), Predecessors(Current(h), pfx, max));
  }

  /** A deleted predecessor never comes back as one: every wait makes the set of predecessors smaller. */
  lemma LastLeaves(h: History, h': History, pfx: Key, max: int, k: Key)
    requires Valid(h') && h <= h' && max < |h|
    requires k in Predecessors(Current(h), pfx, max)
    requires exists r | Revision(h) <= r < |h'| :: Deleted(h', k, r)
    ensures Predecessors(Current(h'), pfx, max) < Predecessors(Current(h), pfx, max)
    ensures |Predecessors(Current(h'), pfx, max)| < |Predecessors(Current(h), pfx, max)|
  {
    var r :| Revision(h) <= r < |h'| && Deleted(h', k, r);
    PredecessorsOnlyLeave(h', Revision(h), Revision(h'), pfx, max);
    PredecessorsOnlyLeave(h', r, Revision(h'), pfx, max);
    assert k !in Predecessors(h'[r], pfx, max);
    Smaller(Predecessors(Current(h'), pfx, max), Predecessors(Current(h), pfx, max) - {k});
  }

  lemma {:induction false} Smaller<T>(a: set<T>, b: set<T>)
    requires a <= b
    ensures |a| <= |b|
  {
    assert b == a + (b - a);
  }
}
