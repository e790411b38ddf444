/** The retry loop of NewSTM: reset, run the body, try to commit, again on conflict. */
module RunStm {
  import opened Store
  import opened StmSpec
  import opened Cluster
  import opened Stm
  import opened StmRuns
  import P = Programs

  // The call `cl` of module StmRuns describes the transaction object.
  ghost predicate Describes(cl: Client, s: Stm, c: Cluster)
    reads s, c
  {
    && Store.Valid(c.hist)
    && cl.tx == s.State()
    && ClientInv(c.hist, cl)
  }

  type Rank = seq<P.Reply> -> ORDINAL

  // The body ends, whatever it is answered, if after a number of calls that depends on the answers: every answer
  // brings it nearer to its end.
  ghost predicate Descends(prog: P.Program, rank: Rank) {
    forall l, r | !P.Ends(prog(l)) :: rank(l + [r]) < rank(l)
  }

  lemma DescribedIsReady(cl: Client, s: Stm, c: Cluster)
    requires Describes(cl, s, c)
    ensures s.Ready(c)
  {
  }

  ghost predicate SameCall(cl: Client, cl': Client) {
    && cl'.prog == cl.prog && cl'.prefetchKeys == cl.prefetchKeys && cl'.tx.iso == cl.tx.iso
    && cl'.start == cl.start && cl'.base == cl.base && cl'.fails == cl.fails
  }

  // One instruction of the body.
  method Call(s: Stm, c: Cluster, prog: P.Program, log: seq<P.Reply>, ghost cl: Client)
    returns (r: P.Reply, ghost cl': Client)
    requires Describes(cl, s, c) && cl.prog == prog && cl.log == log && !P.Ends(prog(log))
    requires cl.warmed || cl.prefetchKeys == []
    modifies s, c
    ensures Interfered(old(c.hist), old(c.others), c.hist, c.others)
    ensures cl' == AdvanceClient(cl, c.hist).0 && cl'.log == log + [r]
    ensures Describes(cl', s, c) && SameCall(cl, cl') && cl'.warmed == cl.warmed
  {
    DescribedIsReady(cl, s, c);
    InterferedReflexive(c.hist, c.others);
    match prog(log) {
    case Get(k) =>
      var v := s.Get(c, [k]);
      r := P.Text(v);
      InterferedExtends(old(c.hist), old(c.others), c.hist, c.others);
      ClientInvLater(old(c.hist), c.hist, cl);
      GetKeepsInv(c.hist, cl, k);
      GetKeepsReads(cl.tx, c.hist, [k]);
    case Rev(k) =>
      var n := s.Rev(c, k);
      r := P.Number(n);
      InterferedExtends(old(c.hist), old(c.others), c.hist, c.others);
      ClientInvLater(old(c.hist), c.hist, cl);
      RevKeepsInv(c.hist, cl, k);
      RevKeepsReads(cl.tx, c.hist, k);
    case Put(k, v, lease) =>
      s.Put(k, v, lease);
      r := P.Done;
      WriteKeepsInv(c.hist, cl, PutTx(cl.tx, k, v, lease));
    case Del(k) =>
      s.Del(k);
      r := P.Done;
      WriteKeepsInv(c.hist, cl, DelTx(cl.tx, k));
    }
    cl' := AdvanceClient(cl, c.hist).0;
  }

  // One execution of the body, after the leading Get of the prefetch keys if there are any.
  method Attempt(s: Stm, c: Cluster, prog: P.Program, prefetchKeys: seq<Key>, ghost rank: Rank, ghost cl: Client)
    returns (log: seq<P.Reply>, ghost cl': Client)
    requires Describes(cl, s, c) && cl.prog == prog && cl.prefetchKeys == prefetchKeys
    requires cl.log == [] && !cl.warmed
    requires Descends(prog, rank)
    modifies s, c
    ensures Interfered(old(c.hist), old(c.others), c.hist, c.others)
    ensures Describes(cl', s, c) && SameCall(cl, cl')
    ensures cl'.log == log && P.Ends(prog(log)) && (cl'.warmed || prefetchKeys == [])
  {
    cl' := cl;
    InterferedReflexive(c.hist, c.others);
    if prefetchKeys != [] {
      DescribedIsReady(cl, s, c);
      var _ := s.Get(c, prefetchKeys);
      InterferedExtends(old(c.hist), old(c.others), c.hist, c.others);
      ClientInvLater(old(c.hist), c.hist, cl);
      PrefetchKeepsInv(c.hist, cl);
      GetKeepsReads(cl.tx, c.hist, prefetchKeys);
      cl' := AdvanceClient(cl, c.hist).0;
    }
    log := [];
    while !P.Ends(prog(log))
      invariant Interfered(old(c.hist), old(c.others), c.hist, c.others)
      invariant Describes(cl', s, c) && SameCall(cl, cl')
      invariant cl'.log == log && (cl'.warmed || prefetchKeys == [])
      decreases rank(log)
    {
      ghost var h, bs := c.hist, c.others;
      var r;
      r, cl' := Call(s, c, prog, log, cl');
      InterferedTransitive(old(c.hist), old(c.others), h, bs, c.hist, c.others);
      log := log + [r];
    }
  }

  datatype Outcome = Done | Failed(error: string) | Conflict

  // The call is between attempts: the transaction's fields are those of `cl` once they are reset.
  ghost predicate Between(cl: Client, s: Stm, h: History)
    reads s
  {
    && Store.Valid(h) && ClientInv(h, cl)
    && cl.tx == StmSpec.Reset(s.State()) && cl.log == [] && !cl.warmed
  }

  // One turn of the retry loop.
  method TryOnce(s: Stm, c: Cluster, prog: P.Program, prefetchKeys: seq<Key>, ghost rank: Rank, ghost cl: Client)
    returns (out: Outcome, log: seq<P.Reply>, ghost pre: History, ghost cl': Client)
    requires Between(cl, s, c.hist) && cl.prog == prog && cl.prefetchKeys == prefetchKeys
    requires |c.hist| + |c.others| <= MAX_INT64
    requires Descends(prog, rank)
    modifies s, c
    ensures Interfered(old(c.hist), old(c.others), pre, c.others)
    ensures ClientInv(pre, cl') && SameCall(cl.(base := cl'.base, fails := cl'.fails), cl')
    ensures out.Done? ==>
      && prog(log).Finish? && c.hist == Commit(pre, P.Overlay(prog, log))
      && (!cl.tx.iso.ReadCommitted? ==> P.SoloRun(prog, Current(pre), log))
    ensures out.Failed? ==> prog(log) == P.Fail(out.error) && c.hist == pre
    ensures out.Conflict? ==> c.hist == pre && Between(cl', s, pre) && cl'.base == Revision(pre) > cl.base
    ensures cl'.fails == cl.fails + if out.Conflict? then 1 else 0
  {
    s.Reset();
    log, cl' := Attempt(s, c, prog, prefetchKeys, rank, cl);
    ghost var h, bs := c.hist, c.others;
    pre := h;
    if prog(log).Fail? {
      return Failed(prog(log).error), log, pre, cl';
    }
    DescribedIsReady(cl', s, c);
    InterferedExtends(old(c.hist), old(c.others), h, bs);
    var committed;
    committed, pre := s.Commit(c);
    InterferedExtends(h, bs, pre, c.others);
    InterferedTransitive(old(c.hist), old(c.others), h, bs, pre, c.others);
    ClientInvLater(h, pre, cl');
    if committed {
      out := Done;
      CommitMirrors(cl');
      if !cl.tx.iso.ReadCommitted? {
        CommittedAttemptRanSolo(pre, cl');
      }
    } else {
      out := Conflict;
      FailedCommitKeepsInv(pre, cl');
      cl' := StmRuns.Attempt(cl'.(tx := s.State()), Revision(pre));
    }
  }

  /** The whole call. It ends although others keep committing, because every retry is paid for by a transaction
      of somebody else; if it commits, it does so in one step, writing what the body wrote, and under the guarded
      levels the body saw what it would see alone at that point. If the body fails nothing is written. */
  method RunSTM(s: Stm, c: Cluster, prog: P.Program, prefetchKeys: seq<Key>, ghost rank: Rank)
    returns (err: Option<string>, log: seq<P.Reply>, fails: nat, ghost pre: History)
    requires s.State() == NewTx(s.iso) && Store.Valid(c.hist)
    requires |c.hist| + |c.others| <= MAX_INT64
    requires Descends(prog, rank)
    modifies s, c
    ensures Interfered(old(c.hist), old(c.others), pre, c.others)
    ensures err.None? ==>
      && prog(log).Finish? && c.hist == Commit(pre, P.Overlay(prog, log))
      && (!old(s.iso).ReadCommitted? ==> P.SoloRun(prog, Current(pre), log))
    ensures err.Some? ==> prog(log) == P.Fail(err.value) && c.hist == pre
    ensures fails <= |old(c.others)| - |c.others|
  {
    ghost var cl := Client(prog, prefetchKeys, s.State(), false, [], Running, Revision(c.hist), Revision(c.hist), 0);
    InterferedReflexive(c.hist, c.others);
    fails := 0;
    while true
      invariant Interfered(old(c.hist), old(c.others), c.hist, c.others)
      invariant Between(cl, s, c.hist) && cl.prog == prog && cl.prefetchKeys == prefetchKeys
      invariant cl.tx.iso == old(s.iso) && cl.fails == fails && cl.start == Revision(old(c.hist))
      invariant cl.base == Revision(c.hist)
      invariant |c.hist| + |c.others| <= MAX_INT64
      decreases |c.others|
    {
      ghost var h, bs := c.hist, c.others;
      var out;
      out, log, pre, cl := TryOnce(s, c, prog, prefetchKeys, rank, cl);
      InterferedTransitive(old(c.hist), old(c.others), h, bs, pre, c.others);
      Accounts(old(c.hist), old(c.others), pre, c.others, cl);
      match out {
        case Done => return None, log, fails, pre;
        case Failed(e) => return Some(e), log, fails, pre;
        case Conflict =>
          fails := fails + 1;
          InterferedExtends(h, bs, pre, c.others);
      }
    }
  }

  // Failed commits are covered by revisions, and revisions by the transactions others have committed.
  lemma Accounts(h0: History, b0: seq<Batch>, h: History, bs: seq<Batch>, cl: Client)
    requires Store.Valid(h0) && Interfered(h0, b0, h, bs) && ClientInv(h, cl) && cl.start == Revision(h0)
    requires |h0| + |b0| <= MAX_INT64
    ensures cl.fails <= |b0| - |bs| && |h| + |bs| <= |h0| + |b0|
  {
    InterferedExtends(h0, b0, h, bs);
  }

  lemma CommitMirrors(cl: Client)
    requires Explained(cl)
    ensures Pending(cl.tx.wset) == P.Overlay(cl.prog, cl.log)
  {
  }
}
