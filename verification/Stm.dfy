/** The transaction object of the concurrency package, and the retry loop around a transaction body.
    One class plays both stm and stmSerializable; the isolation level says which. */
module Stm {
  import opened Store
  import opened StmSpec
  import opened Cluster
  import P = Programs

  function ToOp(k: Key, w: Write): Op {
    match w
    case Put(v, lease) => OpPut(k, v, lease)
    case Delete => OpDelete(k)
  }

  // The operations are the batch's writes, each once, in some order.
  ghost predicate ListsBatch(ops: seq<Op>, b: Batch) {
    && WritesOnce(ops)
    && (forall i | 0 <= i < |ops| ::
          (ops[i].OpPut? || ops[i].OpDelete?) && ops[i].key in b && ops[i] == ToOp(ops[i].key, b[ops[i].key]))
    && (forall k | k in b :: exists i | 0 <= i < |ops| :: ops[i].key == k)
  }

  /** Map iteration order does not matter: whatever order the pending writes are listed in, the transaction
      produces the same store. */
  lemma {:induction false} CommitOrderIrrelevant(h: History, ops: seq<Op>, b: Batch)
    requires ListsBatch(ops, b)
    ensures Save(h, Effects(Work(Current(h), false), |h|, ops)) == Commit(h, b)
  {
    ListedEffects(Current(h), |h|, ops, b);
  }

  lemma {:induction false} ListedEffects(s: Snapshot, rev: nat, ops: seq<Op>, b: Batch)
    requires ListsBatch(ops, b)
    ensures Effects(Work(s, false), rev, ops) == Work(Apply(s, rev, b), Effective(s, b))
    decreases |ops|
  {
    if ops == [] {
      assert forall k :: k !in b;
      assert Apply(s, rev, b) == s;
    } else {
      var init, last := ops[..|ops| - 1], ops[|ops| - 1];
      DropLast(ops, b);
      ListedEffects(s, rev, init, b - {last.key});
      OneMore(s, rev, b, last.key);
    }
  }

  lemma DropLast(ops: seq<Op>, b: Batch)
    requires ListsBatch(ops, b) && ops != []
    ensures ListsBatch(ops[..|ops| - 1], b - {ops[|ops| - 1].key})
  {
  }

  // Running one more write after the rest of the batch completes the batch.
  lemma OneMore(s: Snapshot, rev: nat, b: Batch, k: Key)
    requires k in b
    ensures var w := Work(Apply(s, rev, b - {k}), Effective(s, b - {k}));
            Effect(w, rev, ToOp(k, b[k])) == Work(Apply(s, rev, b), Effective(s, b))
  {
  }

  // A transaction of single-key gets changes nothing and answers each from the snapshot asked for.
  lemma {:induction false} ReadsOnly(h: History, ops: seq<Op>)
    requires forall i | 0 <= i < |ops| :: ops[i].OpGet?
    ensures Effects(Work(Current(h), false), |h|, ops) == Work(Current(h), false)
    decreases |ops|
  {
    if ops != [] {
      ReadsOnly(h, ops[..|ops| - 1]);
    }
  }

  lemma ReadAnswers(h: History, ops: seq<Op>, resps: seq<GetResp>)
    requires forall i | 0 <= i < |ops| :: ops[i].OpGet?
    requires ResponsesOk(h, ops, resps)
    ensures forall i | 0 <= i < |ops| :: resps[i] == Serve(h, ops[i].rev, ops[i].key)
  {
    forall i | 0 <= i < |ops|
      ensures resps[i] == Serve(h, ops[i].rev, ops[i].key)
    {
      ReadsOnly(h, ops[..i]);
      assert ResponseOk(h, Effects(Work(Current(h), false), |h|, ops[..i]), ops[i], resps[i]);
    }
  }

  function AddAll(rs: ReadSet, keys: seq<Key>, resps: seq<GetResp>): ReadSet
    requires |keys| == |resps|
  {
    if keys == [] then rs
    else
      var n := |keys| - 1;
      AddAll(rs, keys[..n], resps[..n])[keys[n] := resps[n]]
  }

  lemma {:induction false} AddAllServed(h: History, rev: Option<nat>, rs: ReadSet, keys: seq<Key>, resps: seq<GetResp>)
    requires |keys| == |resps|
    requires forall i | 0 <= i < |keys| :: resps[i] == Serve(h, rev, keys[i])
    ensures AddAll(rs, keys, resps) == rs + Served(h, rev, keys)
  {
    if keys != [] {
      var n := |keys| - 1;
      AddAllServed(h, rev, rs, keys[..n], resps[..n]);
      ServedOneMore(h, rev, rs, keys[..n], keys[n]);
      assert keys == keys[..n] + [keys[n]];
    }
  }

  lemma ServedOneMore(h: History, rev: Option<nat>, rs: ReadSet, keys: seq<Key>, key: Key)
    ensures rs + Served(h, rev, keys + [key]) == (rs + Served(h, rev, keys))[key := Serve(h, rev, key)]
  {
  }

  predicate Reached(h: History, rs: ReadSet) {
    forall k | k in rs :: 0 < rs[k].rev < |h|
  }

  lemma ServedReached(h: History, h': History, rev: Option<nat>, rs: ReadSet, keys: seq<Key>)
    requires Store.Valid(h') && h <= h' && Reached(h, rs)
    ensures Reached(h', rs + Served(h', rev, keys))
  {
  }

  // What a transaction of gets for `keys` adds to the read set.
  lemma AnswersServed(h: History, rev: Option<nat>, rs: ReadSet, keys: seq<Key>, ops: seq<Op>, resps: seq<GetResp>)
    requires |ops| == |keys| && forall i | 0 <= i < |keys| :: ops[i] == OpGet(keys[i], rev)
    requires ResponsesOk(h, ops, resps)
    ensures |resps| == |keys| && AddAll(rs, keys, resps) == rs + Served(h, rev, keys)
    ensures keys != [] ==> resps[0] == Serve(h, rev, keys[0])
  {
    ReadAnswers(h, ops, resps);
    AddAllServed(h, rev, rs, keys, resps);
  }

  // Taking the prefetched responses key by key.
  function UseOne(tx: Tx, k: Key): Tx {
    if k in tx.prefetch then tx.(prefetch := tx.prefetch - {k}, rset := tx.rset[k := tx.prefetch[k]]) else tx
  }

  lemma UseOneMore(tx: Tx, keys: seq<Key>, k: Key)
    ensures UsePrefetch(tx, keys + [k]) == UseOne(UsePrefetch(tx, keys), k)
  {
    var tx1, tx2 := UsePrefetch(tx, keys), UsePrefetch(tx, keys + [k]);
    assert tx2.prefetch == tx1.prefetch - {k};
    MovedOneMore(tx, keys, k);
    if k !in tx1.prefetch {
      assert tx1.prefetch - {k} == tx1.prefetch;
    }
  }

  lemma MovedOneMore(tx: Tx, keys: seq<Key>, k: Key)
    ensures var tx1 := UsePrefetch(tx, keys);
            UsePrefetch(tx, keys + [k]).rset ==
            if k in tx1.prefetch then tx1.rset[k := tx1.prefetch[k]] else tx1.rset
  {
  }

  class Stm {
    var iso: Isolation
    var rset: ReadSet
    var wset: WriteSet
    var getRev: Option<nat>
    var prefetch: ReadSet

    function State(): Tx
      reads this
    {
      Tx(iso, rset, wset, getRev, prefetch)
    }

    constructor (level: Isolation)
      ensures State() == NewTx(level)
    {
      iso, rset, wset, getRev, prefetch := level, map[], map[], None, map[];
    }

    // Every revision the transaction has been told is one the store has reached.
    ghost predicate Ready(c: Cluster)
      reads this, c
    {
      && Store.Valid(c.hist)
      && (getRev.Some? ==> 0 < getRev.value < |c.hist|)
      && Reached(c.hist, rset) && Reached(c.hist, prefetch)
    }

    // ---------- Reading ----------

    method Add(keys: seq<Key>, resps: seq<GetResp>)
      requires |keys| == |resps|
      modifies this`rset
      ensures rset == AddAll(old(rset), keys, resps)
    {
      for i := 0 to |keys|
        invariant rset == AddAll(old(rset), keys[..i], resps[..i])
      {
        rset := rset[keys[i] := resps[i]];
        assert keys[..i + 1][..i] == keys[..i] && resps[..i + 1][..i] == resps[..i];
      }
      assert keys[..|keys|] == keys && resps[..|keys|] == resps;
    }

    method Load(c: Cluster, keys: seq<Key>, ops: seq<Op>) returns (resp: GetResp)
      requires Ready(c) && keys != [] && |ops| == |keys|
      requires forall j | 0 <= j < |keys| :: ops[j] == OpGet(keys[j], getRev)
      modifies this`rset, c
      ensures Interfered(old(c.hist), old(c.others), c.hist, c.others) && Ready(c)
      ensures State() == old(State()).(rset := old(rset) + Served(c.hist, getRev, keys))
      ensures resp == Serve(c.hist, getRev, keys[0])
    {
      var _, resps, pre := c.Txn([], ops, []);
      ReadsOnly(pre, ops);
      AnswersServed(pre, getRev, rset, keys, ops, resps);
      InterferedExtends(old(c.hist), old(c.others), pre, c.others);
      ServedReached(old(c.hist), pre, getRev, rset, keys);
      Add(keys, resps);
      resp := resps[0];
    }

    method Fetch(c: Cluster, keys: seq<Key>) returns (resp: Option<GetResp>)
      requires Ready(c)
      modifies this`rset, c
      ensures Interfered(old(c.hist), old(c.others), c.hist, c.others) && Ready(c)
      ensures (State(), resp) == StmSpec.Fetch(old(State()), c.hist, keys)
      ensures FirstIn(old(rset), keys).Some? ==> unchanged(c)
    {
      InterferedReflexive(c.hist, c.others);
      if keys == [] {
        return None;
      }
      var ops: seq<Op> := [];
      for i := 0 to |keys|
        invariant |ops| == i && forall j | 0 <= j < i :: ops[j] == OpGet(keys[j], getRev)
        invariant FirstIn(rset, keys) == FirstIn(rset, keys[i..])
      {
        if keys[i] in rset {
          return Some(rset[keys[i]]);
        }
        ops := ops + [OpGet(keys[i], getRev)];
      }
      var first := Load(c, keys, ops);
      resp := Some(first);
    }

    // The write buffered for the first of the keys that has one.
    method Buffered(keys: seq<Key>) returns (w: Option<StmPut>)
      ensures w == FirstIn(wset, keys)
    {
      for i := 0 to |keys|
        invariant FirstIn(wset, keys) == FirstIn(wset, keys[i..])
      {
        if keys[i] in wset {
          return Some(wset[keys[i]]);
        }
      }
      w := None;
    }

    method TakePrefetched(keys: seq<Key>)
      modifies this`rset, this`prefetch
      ensures State() == UsePrefetch(old(State()), keys)
    {
      for i := 0 to |keys|
        invariant State() == UsePrefetch(old(State()), keys[..i])
      {
        ghost var tx := State();
        if keys[i] in prefetch {
          var resp := prefetch[keys[i]];
          prefetch := prefetch - {keys[i]};
          rset := rset[keys[i] := resp];
        }
        assert State() == UseOne(tx, keys[i]);
        assert keys[..i + 1] == keys[..i] + [keys[i]];
        UseOneMore(old(State()), keys[..i], keys[i]);
      }
      assert keys[..|keys|] == keys;
    }

    method Get(c: Cluster, keys: seq<Key>) returns (val: string)
      requires Ready(c) && CanGet(State(), keys)
      modifies this, c
      ensures Interfered(old(c.hist), old(c.others), c.hist, c.others) && Ready(c)
      ensures (State(), val) == GetTx(old(State()), c.hist, keys)
      ensures FirstIn(old(wset), keys).Some? ==> unchanged(c)
    {
      var w := Buffered(keys);
      if w.Some? {
        InterferedReflexive(c.hist, c.others);
        return w.value.val;
      }
      if !FixesSnapshot(iso) {
        var resp := Fetch(c, keys);
        return RespToValue(resp);
      }
      var firstRead := rset == map[];
      TakePrefetched(keys);
      var resp := Fetch(c, keys);
      if firstRead {
        FirstInFinds(UsePrefetch(old(State()), keys).rset, keys);
        getRev := Some(resp.value.rev);
      }
      val := RespToValue(resp);
    }

    method Rev(c: Cluster, key: Key) returns (rev: nat)
      requires Ready(c)
      modifies this, c
      ensures Interfered(old(c.hist), old(c.others), c.hist, c.others) && Ready(c)
      ensures (State(), rev) == RevTx(old(State()), c.hist, key)
    {
      FirstInFinds(wset, [key]);
      if FixesSnapshot(iso) {
        ghost var tx := State();
        var _ := Get(c, [key]);
        if key !in wset {
          FirstInFinds(UsePrefetch(tx, [key]).rset, [key]);
          FirstInFinds(rset, [key]);
        }
      }
      var resp := Fetch(c, [key]);
      rev := ModOf(resp.value.kv);
    }

    // ---------- Writing ----------

    method Put(key: Key, val: string, lease: nat)
      modifies this`wset
      ensures State() == PutTx(old(State()), key, val, lease)
    {
      wset := wset[key := StmPut(val, Store.Put(val, lease))];
    }

    method Del(key: Key)
      modifies this`wset
      ensures State() == DelTx(old(State()), key)
    {
      wset := wset[key := StmPut("", Delete)];
    }

    method Reset()
      modifies this`rset, this`wset
      ensures State() == StmSpec.Reset(old(State()))
    {
      rset, wset := map[], map[];
    }

    // ---------- Committing ----------

    method First() returns (ret: int)
      ensures IsFirst(rset, ret)
    {
      ret := MAX_INT64 - 1;
      var todo := rset.Keys;
      while todo != {}
        invariant todo <= rset.Keys
        invariant ret <= MAX_INT64 - 1
        invariant forall k | k in rset && k !in todo :: ret <= rset[k].rev
        invariant ret == MAX_INT64 - 1 || exists k | k in rset :: rset[k].rev == ret
      {
        var k :| k in todo;
        todo := todo - {k};
        if rset[k].rev < ret {
          ret := rset[k].rev;
        }
      }
    }

    // The read set's guards, in some order.
    method ReadCmps() returns (cmps: seq<Cmp>)
      ensures forall s :: AllHold(s, cmps) == ReadsCurrent(State(), s)
    {
      cmps := [];
      var todo := rset.Keys;
      while todo != {}
        invariant todo <= rset.Keys
        invariant forall i | 0 <= i < |cmps| ::
                    cmps[i].ModEq? && cmps[i].key in rset && cmps[i].rev == ModOf(rset[cmps[i].key].kv)
        invariant forall k | k in rset && k !in todo :: ModEq(k, ModOf(rset[k].kv)) in cmps
      {
        var k :| k in todo;
        todo := todo - {k};
        cmps := cmps + [ModEq(k, ModOf(rset[k].kv))];
      }
      forall s
        ensures AllHold(s, cmps) == ReadsCurrent(State(), s)
      {
        if AllHold(s, cmps) {
          forall k | k in rset
            ensures ModOf(Lookup(s, k)) == ModOf(rset[k].kv)
          {
            var i :| 0 <= i < |cmps| && cmps[i] == ModEq(k, ModOf(rset[k].kv));
            assert Holds(s, cmps[i]);
          }
        }
      }
    }

    // The write set's guards: no written key modified at or after `rev`.
    method WriteCmps(rev: int) returns (cmps: seq<Cmp>)
      ensures forall s :: AllHold(s, cmps) == WritesBefore(wset, s, rev)
    {
      cmps := [];
      var todo := wset.Keys;
      while todo != {}
        invariant todo <= wset.Keys
        invariant forall i | 0 <= i < |cmps| :: cmps[i].ModLess? && cmps[i].key in wset && cmps[i].rev == rev
        invariant forall k | k in wset && k !in todo :: ModLess(k, rev) in cmps
      {
        var k :| k in todo;
        todo := todo - {k};
        cmps := cmps + [ModLess(k, rev)];
      }
      forall s
        ensures AllHold(s, cmps) == WritesBefore(wset, s, rev)
      {
        if AllHold(s, cmps) {
          forall k | k in wset
            ensures ModOf(Lookup(s, k)) < rev
          {
            var i :| 0 <= i < |cmps| && cmps[i] == ModLess(k, rev);
            assert Holds(s, cmps[i]);
          }
        }
      }
    }

    // The comparison list of the commit, whatever order the maps are iterated in.
    method Conflicts() returns (cmps: seq<Cmp>)
      ensures forall s :: AllHold(s, cmps) == NoConflict(State(), s)
    {
      if iso.ReadCommitted? {
        return [];
      }
      cmps := ReadCmps();
      if iso.SerializableSnapshot? {
        var guards := cmps;
        var first := First();
        var writes := WriteCmps(first + 1);
        cmps := guards + writes;
        forall s
          ensures AllHold(s, cmps) == NoConflict(State(), s)
        {
          BothHold(s, guards, writes);
          FirstGuard(State(), first, s);
        }
      }
    }

    method Puts() returns (ops: seq<Op>)
      ensures ListsBatch(ops, Pending(wset))
    {
      ops := [];
      var todo := wset.Keys;
      while todo != {}
        invariant todo <= wset.Keys
        invariant WritesOnce(ops)
        invariant forall i | 0 <= i < |ops| ::
                    && (ops[i].OpPut? || ops[i].OpDelete?) && ops[i].key in wset && ops[i].key !in todo
                    && ops[i] == ToOp(ops[i].key, wset[ops[i].key].op)
        invariant forall k | k in wset && k !in todo :: exists i | 0 <= i < |ops| :: ops[i].key == k
      {
        var k :| k in todo;
        todo := todo - {k};
        ghost var before := ops;
        ops := ops + [ToOp(k, wset[k].op)];
        assert ops[|before|].key == k;
        assert forall i | 0 <= i < |before| :: ops[i] == before[i];
      }
    }

    method Gets() returns (keys: seq<Key>, ops: seq<Op>)
      ensures |ops| == |keys| && forall i | 0 <= i < |keys| :: ops[i] == OpGet(keys[i], None)
      ensures (set k | k in keys) == rset.Keys && forall i, j | 0 <= i < j < |keys| :: keys[i] != keys[j]
    {
      keys, ops := [], [];
      var todo := rset.Keys;
      while todo != {}
        invariant todo <= rset.Keys
        invariant |ops| == |keys| && forall i | 0 <= i < |keys| :: ops[i] == OpGet(keys[i], None)
        invariant forall k :: k in keys <==> k in rset && k !in todo
        invariant forall i, j | 0 <= i < j < |keys| :: keys[i] != keys[j]
      {
        var k :| k in todo;
        todo := todo - {k};
        keys, ops := keys + [k], ops + [OpGet(k, None)];
      }
    }

    method Commit(c: Cluster) returns (committed: bool, ghost pre: History)
      requires Ready(c)
      modifies this, c
      ensures Interfered(old(c.hist), old(c.others), pre, c.others) && Ready(c) && Store.Valid(pre)
      ensures CommitTx(old(State()), pre) == CommitResult(State(), c.hist, committed)
    {
      var keys, gets := [], [];
      if FixesSnapshot(iso) {
        keys, gets := Gets();
      }
      var cmps := Conflicts();
      var puts := Puts();
      var resps;
      committed, resps, pre := c.Txn(cmps, puts, gets);
      InterferedExtends(old(c.hist), old(c.others), pre, c.others);
      if committed {
        CommitOrderIrrelevant(pre, puts, Pending(wset));
      } else {
        ReadsOnly(pre, gets);
        if FixesSnapshot(iso) {
          Refresh(pre, keys, gets, resps);
        }
      }
    }

    // Keep what the failed commit read back for the next attempt.
    method Refresh(ghost h: History, keys: seq<Key>, ops: seq<Op>, resps: seq<GetResp>)
      requires (set k | k in keys) == rset.Keys && |ops| == |keys|
      requires forall i | 0 <= i < |keys| :: ops[i] == OpGet(keys[i], None)
      requires ResponsesOk(h, ops, resps)
      modifies this
      ensures State() == old(State()).(rset := Reread(h, old(rset)), prefetch := Reread(h, old(rset)), getRev := None)
    {
      AnswersServed(h, None, rset, keys, ops, resps);
      Add(keys, resps);
      assert forall k :: k in keys <==> k in old(rset);
      assert rset == Reread(h, old(rset));
      prefetch := rset;
      getRev := None;
    }
  }

  predicate WritesBefore(ws: WriteSet, s: Snapshot, rev: int) {
    forall k | k in ws :: ModOf(Lookup(s, k)) < rev
  }

  lemma FirstGuard(tx: Tx, first: int, s: Snapshot)
    requires IsFirst(tx.rset, first)
    ensures WritesBefore(tx.wset, s, first + 1) == WritesFresh(tx, s)
  {
  }

  lemma BothHold(s: Snapshot, cmps1: seq<Cmp>, cmps2: seq<Cmp>)
    ensures AllHold(s, cmps1 + cmps2) == (AllHold(s, cmps1) && AllHold(s, cmps2))
  {
    var cmps := cmps1 + cmps2;
    assert forall i | 0 <= i < |cmps1| :: cmps[i] == cmps1[i];
    assert forall i | 0 <= i < |cmps2| :: cmps[|cmps1| + i] == cmps2[i];
  }
}
