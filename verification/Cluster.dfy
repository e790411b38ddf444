/** The server side: one linearised store whose other clients commit transactions of their own between
    the requests of the client being modelled. */
module Cluster {
  import opened Store

  // ---------- Requests ----------

  datatype Cmp = CreateEq(key: Key, rev: int) | ModEq(key: Key, rev: int) | ModLess(key: Key, rev: int)

  predicate Holds(s: Snapshot, c: Cmp) {
    match c
    case CreateEq(k, rev) => CreateOf(Lookup(s, k)) == rev
    case ModEq(k, rev) => ModOf(Lookup(s, k)) == rev
    case ModLess(k, rev) => ModOf(Lookup(s, k)) < rev
  }

  predicate AllHold(s: Snapshot, cmps: seq<Cmp>) {
    forall i | 0 <= i < |cmps| :: Holds(s, cmps[i])
  }

  datatype Op =
    | OpPut(key: Key, val: string, lease: nat)
    | OpDelete(key: Key)
    | OpGet(key: Key, rev: Option<nat>)
    | OpFirstCreate(pfx: Key)
    | OpLastCreate(pfx: Key, maxCreateRev: int)

  // A transaction that writes a key twice is refused by the server.
  predicate WritesOnce(ops: seq<Op>) {
    forall i, j | 0 <= i < j < |ops| && (ops[i].OpPut? || ops[i].OpDelete?) && (ops[j].OpPut? || ops[j].OpDelete?) ::
      ops[i].key != ops[j].key
  }

  predicate Readable(h: History, ops: seq<Op>) {
    forall i | 0 <= i < |ops| && ops[i].OpGet? && ops[i].rev.Some? :: 0 < ops[i].rev.value < |h|
  }

  // The working state inside a transaction.
  datatype Work = Work(snap: Snapshot, changed: bool)

  function Effect(w: Work, rev: nat, op: Op): Work {
    match op
    case OpPut(k, v, lease) => Work(w.snap[k := Written(w.snap, rev, k, Put(v, lease))], true)
    case OpDelete(k) => if k in w.snap then Work(w.snap - {k}, true) else w
    case _ => w
  }

  function Effects(w: Work, rev: nat, ops: seq<Op>): Work {
    if ops == [] then w else Effect(Effects(w, rev, ops[..|ops| - 1]), rev, ops[|ops| - 1])
  }

  function Save(h: History, w: Work): History {
    if w.changed then h + [w.snap] else h
  }

  predicate IsFirstCreated(s: Snapshot, pfx: Key, r: Option<KV>) {
    match r
    case None => forall k | k in s :: !(pfx <= k)
    case Some(kv) =>
      && pfx <= kv.key && kv.key in s && s[kv.key] == kv
      && forall k | k in s && pfx <= k :: kv.createRev <= s[k].createRev
  }

  predicate IsLastCreated(s: Snapshot, pfx: Key, max: int, r: Option<KV>) {
    match r
    case None => forall k | k in s && pfx <= k :: s[k].createRev > max
    case Some(kv) =>
      && pfx <= kv.key && kv.key in s && s[kv.key] == kv && kv.createRev <= max
      && forall k | k in s && pfx <= k && s[k].createRev <= max :: s[k].createRev <= kv.createRev
  }

  // The response to an operation, given the working state it runs in. Gets inside a transaction see its writes.
  predicate ResponseOk(h: History, w: Work, op: Op, resp: GetResp) {
    match op
    case OpGet(k, rev) =>
      resp == GetResp(Revision(Save(h, w)), if rev.Some? then Lookup(AsOf(h, rev), k) else Lookup(w.snap, k))
    case OpFirstCreate(pfx) => resp.rev == Revision(Save(h, w)) && IsFirstCreated(w.snap, pfx, resp.kv)
    case OpLastCreate(pfx, max) => resp.rev == Revision(Save(h, w)) && IsLastCreated(w.snap, pfx, max, resp.kv)
    case _ => true
  }

  predicate ResponsesOk(h: History, ops: seq<Op>, resps: seq<GetResp>) {
    && |resps| == |ops|
    && forall i | 0 <= i < |ops| :: ResponseOk(h, Effects(Work(Current(h), false), |h|, ops[..i]), ops[i], resps[i])
  }

  lemma ResponsesAppend(h: History, ops: seq<Op>, op: Op, resps: seq<GetResp>, resp: GetResp)
    requires ResponsesOk(h, ops, resps)
    requires ResponseOk(h, Effects(Work(Current(h), false), |h|, ops), op, resp)
    ensures ResponsesOk(h, ops + [op], resps + [resp])
    ensures Effects(Work(Current(h), false), |h|, ops + [op])
         == Effect(Effects(Work(Current(h), false), |h|, ops), |h|, op)
  {
    var ops', resps' := ops + [op], resps + [resp];
    assert ops'[..|ops|] == ops;
    forall i | 0 <= i < |ops'|
      ensures ResponseOk(h, Effects(Work(Current(h), false), |h|, ops'[..i]), ops'[i], resps'[i])
    {
      assert ops'[..i] == ops[..i];
    }
  }

  predicate WellKeyed(s: Snapshot) {
    forall k | k in s :: s[k].key == k
  }

  lemma {:induction false} EffectsKeepHistory(h: History, ops: seq<Op>)
    requires Valid(h) && WritesOnce(ops)
    ensures var w := Effects(Work(Current(h), false), |h|, ops);
            && Transition(Current(h), w.snap, |h|) && WellKeyed(w.snap)
            && (forall k | k in Current(h) && (k !in w.snap || w.snap[k] != Current(h)[k]) ::
                  exists i | 0 <= i < |ops| :: (ops[i].OpPut? || ops[i].OpDelete?) && ops[i].key == k)
            && (!w.changed ==> w.snap == Current(h))
  {
    if ops == [] {
      forall k | k in Current(h)
        ensures Current(h)[k].key == k
      {
        RevisionBounds(h, Revision(h), k);
      }
    } else {
      var n := |ops| - 1;
      assert ops[..n] < ops;
      EffectsKeepHistory(h, ops[..n]);
      var before := Effects(Work(Current(h), false), |h|, ops[..n]);
      var w := Effects(Work(Current(h), false), |h|, ops);
      forall k | k in Current(h) && (k !in w.snap || w.snap[k] != Current(h)[k])
        ensures exists i | 0 <= i < |ops| :: (ops[i].OpPut? || ops[i].OpDelete?) && ops[i].key == k
      {
        if k !in before.snap || before.snap[k] != Current(h)[k] {
          var i :| 0 <= i < n && (ops[..n][i].OpPut? || ops[..n][i].OpDelete?) && ops[..n][i].key == k;
          assert ops[i].key == k;
        } else {
          assert ops[n].key == k;
        }
      }
    }
  }

  lemma SaveValid(h: History, ops: seq<Op>)
    requires Valid(h) && WritesOnce(ops)
    ensures var h' := Save(h, Effects(Work(Current(h), false), |h|, ops)); Valid(h') && h <= h'
  {
    EffectsKeepHistory(h, ops);
    var h' := Save(h, Effects(Work(Current(h), false), |h|, ops));
    forall r | 0 < r < |h'|
      ensures Transition(h'[r - 1], h'[r], r)
    {
      if r < |h| {
        assert Transition(h[r - 1], h[r], r);
      }
    }
  }

  // Storing one value, or removing one key, is the transaction of that single write.
  lemma OnePut(h: History, k: Key, v: string, lease: nat)
    ensures Save(h, Effect(Work(Current(h), false), |h|, OpPut(k, v, lease))) == Commit(h, map[k := Put(v, lease)])
  {
    var b: Batch := map[k := Put(v, lease)];
    assert k in b;
    assert Apply(Current(h), |h|, b) == Current(h)[k := Written(Current(h), |h|, k, Put(v, lease))];
  }

  lemma OneDelete(h: History, k: Key)
    ensures Save(h, Effect(Work(Current(h), false), |h|, OpDelete(k))) == Commit(h, map[k := Delete])
  {
    var b: Batch := map[k := Delete];
    assert k in b;
    assert Apply(Current(h), |h|, b) == Current(h) - {k};
  }

  lemma SingleOp(h: History, op: Op)
    ensures Effects(Work(Current(h), false), |h|, [op]) == Effect(Work(Current(h), false), |h|, op)
  {
  }

  lemma TwoOps(h: History, op1: Op, op2: Op, resps: seq<GetResp>)
    requires ResponsesOk(h, [op1, op2], resps)
    ensures var w := Work(Current(h), false);
            && Effects(w, |h|, [op1, op2]) == Effect(Effect(w, |h|, op1), |h|, op2)
            && ResponseOk(h, w, op1, resps[0]) && ResponseOk(h, Effect(w, |h|, op1), op2, resps[1])
  {
  }

  // ---------- Watching ----------

  datatype Scope = One(key: Key) | Prefix(pfx: Key)

  predicate InScope(scope: Scope, k: Key) {
    match scope
    case One(key) => k == key
    case Prefix(pfx) => pfx <= k
  }

  datatype Event = PutEvent(kv: KV) | DeleteEvent(gone: Key, at: nat)

  function EventRev(e: Event): nat {
    if e.PutEvent? then e.kv.modRev else e.at
  }

  predicate Happened(h: History, scope: Scope, r: nat, e: Event)
    requires 0 < r < |h|
  {
    match e
    case PutEvent(kv) => InScope(scope, kv.key) && kv.key in h[r] && h[r][kv.key] == kv && kv.modRev == r
    case DeleteEvent(k, at) => InScope(scope, k) && at == r && k in h[r - 1] && k !in h[r]
  }

  // The events of revisions from..to, each of them once and in revision order.
  ghost predicate Events(h: History, scope: Scope, from: nat, to: nat, evs: seq<Event>)
    requires 0 < from <= to <= |h|
  {
    && (forall i | 0 <= i < |evs| :: from <= EventRev(evs[i]) < to && Happened(h, scope, EventRev(evs[i]), evs[i]))
    && (forall i, j | 0 <= i < j < |evs| :: EventRev(evs[i]) <= EventRev(evs[j]))
    && (forall i, j | 0 <= i < j < |evs| :: evs[i] != evs[j])
    && (forall r, e | from <= r < to && Happened(h, scope, r, e) :: e in evs)
  }

  // ---------- Other clients ----------

  ghost predicate FirstCommitted(h: History, bs: seq<Batch>, n: nat, h': History, bs': seq<Batch>) {
    n <= |bs| && h' == CommitAll(h, bs[..n]) && bs' == bs[n..]
  }

  // Some of the pending transactions of other clients have committed, in their order.
  ghost predicate Interfered(h: History, bs: seq<Batch>, h': History, bs': seq<Batch>) {
    exists n: nat :: FirstCommitted(h, bs, n, h', bs')
  }

  lemma InterferedReflexive(h: History, bs: seq<Batch>)
    ensures Interfered(h, bs, h, bs)
  {
    assert FirstCommitted(h, bs, 0, h, bs);
  }

  lemma InterferedTransitive(h0: History, b0: seq<Batch>, h1: History, b1: seq<Batch>, h2: History, b2: seq<Batch>)
    requires Interfered(h0, b0, h1, b1) && Interfered(h1, b1, h2, b2)
    ensures Interfered(h0, b0, h2, b2)
  {
    var m: nat :| FirstCommitted(h0, b0, m, h1, b1);
    var n: nat :| FirstCommitted(h1, b1, n, h2, b2);
    assert b0[..m] + b1[..n] == b0[..m + n];
    CommitAllConcat(h0, b0[..m], b1[..n]);
    assert FirstCommitted(h0, b0, m + n, h2, b2);
  }

  lemma InterferedExtends(h: History, bs: seq<Batch>, h': History, bs': seq<Batch>)
    requires Valid(h) && Interfered(h, bs, h', bs')
    ensures Valid(h') && h <= h'
    ensures |h'| + |bs'| <= |h| + |bs|
    ensures |bs'| <= |bs| && (|bs'| == |bs| ==> h' == h)
  {
    var n: nat :| FirstCommitted(h, bs, n, h', bs');
    if n == 0 {
      assert bs[..0] == [];
    }
    CommitAllExtends(h, bs[..n]);
  }

  // What the server has told a client: the first-created entry under a prefix, or a watch delivery, with the events of
  // the revisions `from` up to, not including, `to`.
  datatype Told =
    | Answer(pfx: Key, resp: GetResp)
    | Delivery(scope: Scope, from: nat, to: nat, header: nat, evs: seq<Event>)

  datatype Log = Empty | Then(before: Log, last: Told)

  function Length(log: Log): nat {
    if log.Empty? then 0 else Length(log.before) + 1
  }

  class Cluster {
    var hist: History
    // The transactions that other clients will commit, in commit order.
    var others: seq<Batch>
    // Whether the caller's context is done, whether a watch was lost, and whether a request failed.
    var ctxDone: bool
    var lost: bool
    var failed: bool
    // The last watch delivery brought the events of the revisions from `handedFrom` up to, not including, `handedTo`.
    ghost var handedFrom: nat
    ghost var handedTo: nat
    // The answers and deliveries so far.
    ghost var told: Log

    constructor (h: History, bs: seq<Batch>)
      ensures hist == h && others == bs && !ctxDone && !lost && !failed && handedFrom == handedTo == 0 && told == Empty
    {
      hist, others, ctxDone, lost, failed := h, bs, false, false, false;
      handedFrom, handedTo, told := 0, 0, Empty;
    }

    ghost predicate DeliveredPast()
      reads this
    {
      handedFrom == handedTo == 0 || handedFrom < handedTo <= |hist|
    }

    // Any number of other clients' transactions commit.
    method Interfere()
      requires Valid(hist)
      modifies this`hist, this`others
      ensures Interfered(old(hist), old(others), hist, others)
      ensures Valid(hist)
    {
      var n: nat :| n <= |others|;
      CommitAllExtends(hist, others[..n]);
      assert FirstCommitted(hist, others, n, CommitAll(hist, others[..n]), others[n..]);
      hist, others := CommitAll(hist, others[..n]), others[n..];
    }

    // Whether the next request, which is about the key, is carried out; if not it has no effect. The server refuses
    // requests about the empty key.
    method Accepts(key: Key) returns (ok: bool)
      modifies this`failed
      ensures if ok then key != "" && failed == old(failed) else failed
    {
      ok := *;
      ok := ok && key != "";
      failed := failed || !ok;
    }

    /** One atomic transaction: if all comparisons hold the first list of operations runs, otherwise the second.
        `pre` is the history it runs against. */
    method Txn(cmps: seq<Cmp>, thens: seq<Op>, elses: seq<Op>)
      returns (succeeded: bool, resps: seq<GetResp>, ghost pre: History)
      requires Valid(hist) && WritesOnce(thens) && WritesOnce(elses)
      requires Readable(hist, thens) && Readable(hist, elses)
      modifies this`hist, this`others
      ensures Interfered(old(hist), old(others), pre, others)
      ensures Valid(hist) && Valid(pre) && pre <= hist
      ensures succeeded == AllHold(Current(pre), cmps)
      ensures var ops := if succeeded then thens else elses;
              && hist == Save(pre, Effects(Work(Current(pre), false), |pre|, ops))
              && ResponsesOk(pre, ops, resps)
    {
      Interfere();
      pre := hist;
      InterferedExtends(old(hist), old(others), pre, others);
      succeeded := AllHold(Current(hist), cmps);
      var ops := if succeeded then thens else elses;
      var work;
      work, resps := Run(ops);
      SaveValid(pre, ops);
      hist := Save(hist, work);
    }

    // The first-created entry under the prefix, now.
    method GetFirstCreated(pfx: Key) returns (resp: GetResp)
      requires Valid(hist)
      modifies this`hist, this`others, this`told
      ensures Valid(hist) && Interfered(old(hist), old(others), hist, others)
      ensures resp.rev == Revision(hist) && IsFirstCreated(Current(hist), pfx, resp.kv)
      ensures told == Then(old(told), Answer(pfx, resp))
    {
      var get := OpFirstCreate(pfx);
      var _, resps, pre := Txn([], [get], []);
      SingleOp(pre, get);
      assert ResponseOk(pre, Effects(Work(Current(pre), false), |pre|, [get][..0]), get, resps[0]);
      resp := resps[0];
      told := Then(told, Answer(pfx, resp));
    }

    // The last-created entry under the prefix among those created up to `max`, now.
    method GetLastCreated(pfx: Key, max: int) returns (resp: GetResp)
      requires Valid(hist)
      modifies this`hist, this`others
      ensures Valid(hist) && Interfered(old(hist), old(others), hist, others)
      ensures resp.rev == Revision(hist) && IsLastCreated(Current(hist), pfx, max, resp.kv)
    {
      var get := OpLastCreate(pfx, max);
      var _, resps, pre := Txn([], [get], []);
      SingleOp(pre, get);
      assert ResponseOk(pre, Effects(Work(Current(pre), false), |pre|, [get][..0]), get, resps[0]);
      resp := resps[0];
    }

    method Run(ops: seq<Op>) returns (work: Work, resps: seq<GetResp>)
      requires Valid(hist) && WritesOnce(ops)
      ensures work == Effects(Work(Current(hist), false), |hist|, ops)
      ensures ResponsesOk(hist, ops, resps)
    {
      work := Work(Current(hist), false);
      resps := [];
      for i := 0 to |ops|
        invariant work == Effects(Work(Current(hist), false), |hist|, ops[..i])
        invariant ResponsesOk(hist, ops[..i], resps)
      {
        EffectsKeepHistory(hist, ops[..i]);
        var resp := Serve(work, ops[i]);
        ResponsesAppend(hist, ops[..i], ops[i], resps, resp);
        assert ops[..i + 1] == ops[..i] + [ops[i]];
        resps := resps + [resp];
        work := Effect(work, |hist|, ops[i]);
      }
      assert ops[..|ops|] == ops;
    }

    method Serve(work: Work, op: Op) returns (resp: GetResp)
      requires WellKeyed(work.snap)
      ensures ResponseOk(hist, work, op, resp)
    {
      var rev := Revision(Save(hist, work));
      match op
      case OpGet(k, r) =>
        resp := GetResp(rev, if r.Some? then Lookup(AsOf(hist, r), k) else Lookup(work.snap, k));
      case OpFirstCreate(pfx) =>
        var oldest := Oldest(work.snap, pfx);
        resp := GetResp(rev, oldest);
      case OpLastCreate(pfx, max) =>
        var newest := Newest(work.snap, pfx, max);
        resp := GetResp(rev, newest);
      case _ =>
        resp := GetResp(rev, None);
    }

    static method Oldest(s: Snapshot, pfx: Key) returns (r: Option<KV>)
      requires WellKeyed(s)
      ensures IsFirstCreated(s, pfx, r)
    {
      var todo := s.Keys;
      r := None;
      while todo != {}
        invariant todo <= s.Keys
        invariant r.None? ==> forall k | k in s && k !in todo :: !(pfx <= k)
        invariant r.Some? ==>
          && pfx <= r.value.key && r.value.key in s && s[r.value.key] == r.value
          && forall k | k in s && k !in todo && pfx <= k :: r.value.createRev <= s[k].createRev
      {
        var k :| k in todo;
        todo := todo - {k};
        if pfx <= k && (r.None? || s[k].createRev < r.value.createRev) {
          r := Some(s[k]);
        }
      }
    }

    static method Newest(s: Snapshot, pfx: Key, max: int) returns (r: Option<KV>)
      requires WellKeyed(s)
      ensures IsLastCreated(s, pfx, max, r)
    {
      var todo := s.Keys;
      r := None;
      while todo != {}
        invariant todo <= s.Keys
        invariant r.None? ==> forall k | k in s && k !in todo && pfx <= k :: s[k].createRev > max
        invariant r.Some? ==>
          && pfx <= r.value.key && r.value.key in s && s[r.value.key] == r.value && r.value.createRev <= max
          && forall k | k in s && k !in todo && pfx <= k && s[k].createRev <= max :: s[k].createRev <= r.value.createRev
      {
        var k :| k in todo;
        todo := todo - {k};
        if pfx <= k && s[k].createRev <= max && (r.None? || r.value.createRev < s[k].createRev) {
          r := Some(s[k]);
        }
      }
    }

    /** The next delivery on a watch that has handled every revision before `from`: either the events of the next
        few revisions, with a header revision that may be later still, or the end of the watch (the context is
        done or the watcher is lost), which is certain once nobody will write any more. */
    method Next(scope: Scope, from: nat) returns (open: bool, to: nat, header: nat, evs: seq<Event>)
      requires Valid(hist) && 0 < from <= |hist|
      modifies this
      ensures Interfered(old(hist), old(others), hist, others) && Valid(hist)
      ensures open ==> from < to <= |hist| && to <= header + 1 <= |hist| && Events(hist, scope, from, to, evs)
      ensures if open then ctxDone == old(ctxDone) && lost == old(lost) else ctxDone || lost
      ensures failed == old(failed)
      ensures if open then handedFrom == from && handedTo == to
              else handedFrom == old(handedFrom) && handedTo == old(handedTo)
      ensures told == if open then Then(old(told), Delivery(scope, from, to, header, evs)) else old(told)
    {
      Interfere();
      InterferedExtends(old(hist), old(others), hist, others);
      open, to, header, evs := false, from, 0, [];
      var cancelled: bool, dropped: bool := *, *;
      if |hist| <= from || cancelled || dropped {
        ctxDone, lost := cancelled || !dropped, dropped;
        return;
      }
      to :| from < to <= |hist|;
      header :| to <= header + 1 <= |hist|;
      open, handedFrom, handedTo := true, from, to;
      evs := Collect(scope, from, to);
      told := Then(told, Delivery(scope, from, to, header, evs));
    }

    // Whether the caller's context is done by now.
    method Cancelled() returns (done: bool)
      modifies this`ctxDone
      ensures if done then ctxDone else ctxDone == old(ctxDone)
    {
      done := *;
      if done {
        ctxDone := true;
      }
    }

    method Collect(scope: Scope, from: nat, to: nat) returns (evs: seq<Event>)
      requires Valid(hist) && 0 < from < to <= |hist|
      ensures Events(hist, scope, from, to, evs)
    {
      evs := [];
      for r := from to to
        invariant Events(hist, scope, from, r, evs)
      {
        var more := CollectAt(scope, r);
        EventsAppend(hist, scope, from, r, evs, more);
        evs := evs + more;
      }
    }

    method CollectAt(scope: Scope, r: nat) returns (evs: seq<Event>)
      requires Valid(hist) && 0 < r < |hist|
      ensures Events(hist, scope, r, r + 1, evs)
    {
      forall k | k in hist[r]
        ensures hist[r][k].key == k
      {
        RevisionBounds(hist, r, k);
      }
      var puts := set k | k in hist[r] && InScope(scope, k) && hist[r][k].modRev == r :: PutEvent(hist[r][k]);
      var dels := set k | k in hist[r - 1] && k !in hist[r] && InScope(scope, k) :: DeleteEvent(k, r);
      var todo := puts + dels;
      assert forall e :: e in todo <==> Happened(hist, scope, r, e);
      evs := [];
      while todo != {}
        invariant forall e | e in todo :: Happened(hist, scope, r, e)
        invariant forall i | 0 <= i < |evs| ::
                    EventRev(evs[i]) == r && Happened(hist, scope, r, evs[i]) && evs[i] !in todo
        invariant forall i, j | 0 <= i < j < |evs| :: evs[i] != evs[j]
        invariant forall e | Happened(hist, scope, r, e) :: e in todo || e in evs
      {
        var e :| e in todo;
        todo := todo - {e};
        evs := evs + [e];
      }
    }
  }

  lemma EventsAppend(h: History, scope: Scope, from: nat, r: nat, evs: seq<Event>, more: seq<Event>)
    requires 0 < from <= r < |h| && Events(h, scope, from, r, evs) && Events(h, scope, r, r + 1, more)
    ensures Events(h, scope, from, r + 1, evs + more)
  {
  }
}
