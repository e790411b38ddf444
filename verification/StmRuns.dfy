/** Whole runs of the software transactional memory: any number of clients at any isolation levels,
    interleaved one call at a time with each other and with outside writers. */
module StmRuns {
  import opened Store
  import opened StmSpec
  import P = Programs

  datatype Status = NotBegun | Running | Committed | Aborted(error: string)

  // One runSTM call: the body, its WithPrefetch keys, the transaction's fields and how far this attempt is.
  // `start` and `base` are the store's revisions when the call and this attempt began; `fails` counts the
  // failed commits.
  datatype Client = Client(
    prog: P.Program, prefetchKeys: seq<Key>, tx: Tx, warmed: bool, log: seq<P.Reply>, status: Status,
    start: nat, base: nat, fails: nat)

  // `who` is the client of the transaction.
  datatype Event = Transaction(who: nat, prog: P.Program, log: seq<P.Reply>) | Writes(batch: Batch)

  // `events` records what was committed, in commit order.
  datatype World = World(hist: History, clients: seq<Client>, events: seq<Event>)

  datatype Step = Begin(i: nat) | Advance(i: nat) | RpcError(i: nat) | Outside(batch: Batch)

  ghost function Attempt(c: Client, rev: nat): Client {
    c.(tx := Reset(c.tx), warmed := false, log := [], base := rev, fails := c.fails + 1)
  }

  ghost function Answered(c: Client, tx: Tx, r: P.Reply): Client {
    c.(tx := tx, log := c.log + [r])
  }

  ghost function CommitEvent(i: nat, c: Client): Event {
    if c.tx.iso.ReadCommitted? then Writes(Pending(c.tx.wset)) else Transaction(i, c.prog, c.log)
  }

  // The next call of a running client, executed atomically.
  ghost function AdvanceClient(c: Client, h: History): (Client, History) {
    if c.prefetchKeys != [] && !c.warmed then
      (c.(tx := GetTx(c.tx, h, c.prefetchKeys).0, warmed := true), h)
    else
      match c.prog(c.log)
      case Get(k) => var (tx, v) := GetTx(c.tx, h, [k]); (Answered(c, tx, P.Text(v)), h)
      case Rev(k) => var (tx, n) := RevTx(c.tx, h, k); (Answered(c, tx, P.Number(n)), h)
      case Put(k, v, lease) => (Answered(c, PutTx(c.tx, k, v, lease), P.Done), h)
      case Del(k) => (Answered(c, DelTx(c.tx, k), P.Done), h)
      case Fail(e) => (c.(status := Aborted(e)), h)
      case Finish =>
        var r := CommitTx(c.tx, h);
        if r.committed then (c.(status := Committed), r.h)
        else (Attempt(c.(tx := r.tx), Revision(h)), h)
  }

  ghost function Begun(c: Client, rev: nat): Client {
    c.(status := Running, start := rev, base := rev)
  }

  ghost function DoStep(w: World, step: Step): World {
    match step
    case Outside(b) => World(Commit(w.hist, b), w.clients, w.events + [Writes(b)])
    case Begin(i) =>
      if i < |w.clients| && w.clients[i].status.NotBegun? then
        w.(clients := w.clients[i := Begun(w.clients[i], Revision(w.hist))])
      else w
    case Advance(i) =>
      if i < |w.clients| && w.clients[i].status.Running? then
        var (c, h) := AdvanceClient(w.clients[i], w.hist);
        World(h, w.clients[i := c], w.events + if c.status.Committed? then [CommitEvent(i, c)] else [])
      else w
    case RpcError(i) =>
      if i < |w.clients| && w.clients[i].status.Running? then
        w.(clients := w.clients[i := w.clients[i].(status := Aborted("rpc"))])
      else w
  }

  ghost function Exec(w: World, steps: seq<Step>): World {
    if steps == [] then w
    else DoStep(Exec(w, steps[..|steps| - 1]), steps[|steps| - 1])
  }

  ghost predicate InitialClient(c: Client, h: History) {
    && c.tx == NewTx(c.tx.iso) && !c.warmed && c.log == [] && c.status == NotBegun
    && c.start == c.base == Revision(h) && c.fails == 0
  }

  ghost predicate Initial(w: World) {
    && Valid(w.hist) && w.events == []
    && forall i | 0 <= i < |w.clients| :: InitialClient(w.clients[i], w.hist)
  }

  // ---------- The serial reference ----------

  ghost function ReplayOne(h: History, e: Event): History {
    match e
    case Transaction(_, p, log) => Commit(h, P.Overlay(p, log))
    case Writes(b) => Commit(h, b)
  }

  ghost function Replay(h: History, events: seq<Event>): History {
    if events == [] then h
    else ReplayOne(Replay(h, events[..|events| - 1]), events[|events| - 1])
  }

  // Every transaction in the list, run alone at its turn, completes with exactly the recorded answers.
  ghost predicate EachSolo(h: History, events: seq<Event>) {
    forall i | 0 <= i < |events| && events[i].Transaction? ::
      CompletesSolo(events[i].prog, events[i].log, Current(Replay(h, events[..i])))
  }

  ghost predicate CompletesSolo(p: P.Program, log: seq<P.Reply>, s: Snapshot) {
    P.SoloRun(p, s, log) && p(log).Finish?
  }

  // ---------- Invariant ----------

  ghost predicate Mirrors(ws: WriteSet, b: Batch) {
    && ws.Keys == b.Keys
    && forall k | k in ws :: ws[k].op == b[k] && ws[k].val == P.OwnValue(b[k])
  }

  // Answer `i` came from the transaction's own writes at that moment, or from its read set.
  ghost predicate AnswerOk(p: P.Program, log: seq<P.Reply>, i: nat, rs: ReadSet)
    requires i < |log|
  {
    var before := log[..i];
    match p(before)
    case Get(k) =>
      if k in P.Overlay(p, before) then log[i] == P.Text(P.OwnValue(P.Overlay(p, before)[k]))
      else k in rs && log[i] == P.Text(ValueOf(rs[k].kv))
    case Rev(k) => k in rs && log[i] == P.Number(ModOf(rs[k].kv))
    case Put(_, _, _) => log[i] == P.Done
    case Del(_) => log[i] == P.Done
    case _ => false
  }

  ghost predicate Explained(c: Client) {
    && Mirrors(c.tx.wset, P.Overlay(c.prog, c.log))
    && forall i | 0 <= i < |c.log| :: AnswerOk(c.prog, c.log, i, c.tx.rset)
  }

  ghost predicate Accounted(h: History, c: Client) {
    && c.start <= c.base
    && (Revision(h) < MAX_INT64 ==> c.fails <= c.base - c.start)
    && Sourced(h, c.base, c.tx)
    && Tidy(c.tx)
  }

  // The body cannot read without fixing the snapshot revision first.
  ghost predicate FixesFirst(c: Client) {
    FixesSnapshot(c.tx.iso) && (c.prefetchKeys != [] || P.FirstReadIsGet(c.prog))
  }

  // On a retry, whatever the attempt reads first is waiting in the prefetch.
  ghost predicate FirstReadPrefetched(c: Client) {
    && (forall k | k in c.prefetchKeys :: k in c.tx.prefetch)
    && (c.prefetchKeys == [] ==>
          forall l | P.Quiet(c.prog, l) && P.ReadsNext(c.prog, l) :: c.prog(l).key in c.tx.prefetch)
  }

  ghost predicate FromOneRevision(h: History, rev: nat, rs: ReadSet) {
    && rev < |h|
    && forall k | k in rs :: rs[k].kv == Lookup(h[rev], k)
  }

  ghost predicate OneSnapshot(h: History, c: Client) {
    && (c.prefetchKeys == [] ==> (c.tx.rset == map[] <==> P.Quiet(c.prog, c.log)))
    && (if c.tx.rset == map[] then
          && c.tx.getRev == None
          && (c.tx.prefetch == map[] || FirstReadPrefetched(c))
          && (c.fails == 0 ==> c.tx.prefetch == map[])
          && (c.fails > 0 && Revision(h) < MAX_INT64 ==> FirstReadPrefetched(c))
        else
          && c.tx.getRev.Some?
          && FromOneRevision(h, c.tx.getRev.value, c.tx.rset)
          && (c.fails > 0 && Revision(h) < MAX_INT64 ==> c.tx.getRev.value == c.base)
          && (c.tx.prefetch != map[] ==> c.fails > 0 && c.tx.getRev.value == c.base))
  }

  ghost predicate Warm(c: Client) {
    if c.warmed then (c.prefetchKeys != [] ==> c.tx.rset != map[]) && forall k | k in c.prefetchKeys :: k in c.tx.rset
    else c.prefetchKeys != [] ==> c.log == [] && c.tx.rset == map[]
  }

  ghost predicate ClientInv(h: History, c: Client) {
    && Explained(c)
    && Accounted(h, c)
    && Warm(c)
    && (FixesSnapshot(c.tx.iso) ==> Coherent(h, c.base, c.tx.prefetch))
    && (FixesFirst(c) ==> OneSnapshot(h, c))
  }

  ghost predicate UntouchedUntilBegun(c: Client) {
    c.status.NotBegun? ==> c.tx == NewTx(c.tx.iso) && !c.warmed && c.log == [] && c.fails == 0
  }

  ghost predicate Inv(h0: History, w: World) {
    && Valid(w.hist)
    && (forall i | 0 <= i < |w.clients| :: ClientInv(w.hist, w.clients[i]) && UntouchedUntilBegun(w.clients[i]))
    && Replay(h0, w.events) == w.hist
    && EachSolo(h0, w.events)
  }

  // ---------- Preservation, one kind of call at a time ----------

  lemma ClientInvLater(h: History, h': History, c: Client)
    requires h <= h' && ClientInv(h, c)
    ensures ClientInv(h', c)
  {
  }

  lemma AnswersKept(p: P.Program, log: seq<P.Reply>, r: P.Reply, rs: ReadSet, rs': ReadSet)
    requires forall i | 0 <= i < |log| :: AnswerOk(p, log, i, rs)
    requires Grows(rs, rs')
    ensures forall i | 0 <= i < |log| :: AnswerOk(p, log + [r], i, rs')
  {
    forall i | 0 <= i < |log|
      ensures AnswerOk(p, log + [r], i, rs')
    {
      assert AnswerOk(p, log, i, rs);
      assert (log + [r])[..i] == log[..i];
    }
  }

  lemma QuietAppend(p: P.Program, log: seq<P.Reply>, r: P.Reply)
    ensures P.Quiet(p, log + [r]) <==> P.Quiet(p, log) && P.QuietAt(p, log + [r], |log|)
  {
    forall i | 0 <= i < |log|
      ensures P.QuietAt(p, log + [r], i) == P.QuietAt(p, log, i)
    {
      assert (log + [r])[..i] == log[..i];
    }
    assert P.Quiet(p, log + [r]) ==> forall i | 0 <= i < |log| :: P.QuietAt(p, log + [r], i);
  }

  lemma WriteExplained(c: Client, tx: Tx)
    requires Explained(c)
    requires (c.prog(c.log).Put? && tx == PutTx(c.tx, c.prog(c.log).key, c.prog(c.log).val, c.prog(c.log).lease))
             || (c.prog(c.log).Del? && tx == DelTx(c.tx, c.prog(c.log).key))
    ensures Explained(Answered(c, tx, P.Done))
  {
    AnswersKept(c.prog, c.log, P.Done, c.tx.rset, tx.rset);
    P.OverlayAppend(c.prog, c.log, P.Done);
    assert (c.log + [P.Done])[..|c.log|] == c.log;
  }

  lemma WriteKeepsInv(h: History, c: Client, tx: Tx)
    requires ClientInv(h, c)
    requires c.warmed || c.prefetchKeys == []
    requires (c.prog(c.log).Put? && tx == PutTx(c.tx, c.prog(c.log).key, c.prog(c.log).val, c.prog(c.log).lease))
             || (c.prog(c.log).Del? && tx == DelTx(c.tx, c.prog(c.log).key))
    ensures ClientInv(h, Answered(c, tx, P.Done))
  {
    WriteExplained(c, tx);
    if FixesFirst(c) {
      WriteKeepsSnapshot(h, c, tx);
    }
  }

  lemma WriteKeepsSnapshot(h: History, c: Client, tx: Tx)
    requires OneSnapshot(h, c) && tx == c.tx.(wset := tx.wset)
    requires c.prog(c.log).Put? || c.prog(c.log).Del?
    ensures OneSnapshot(h, Answered(c, tx, P.Done))
  {
    QuietAppend(c.prog, c.log, P.Done);
    assert (c.log + [P.Done])[..|c.log|] == c.log;
  }

  // A read that starts an attempt takes its first response from revision `rev`, which the rest will use.
  lemma GetFixesSnapshot(h: History, tx: Tx, base: nat, keys: seq<Key>)
    requires FixesSnapshot(tx.iso) && keys != [] && Tidy(tx) && Sourced(h, base, tx)
    requires Coherent(h, base, tx.prefetch)
    requires tx.rset == map[] ==>
      tx.getRev == None && (tx.prefetch == map[] || forall k | k in keys :: k in tx.prefetch)
    requires tx.rset != map[] ==>
      && tx.getRev.Some? && FromOneRevision(h, tx.getRev.value, tx.rset)
      && (tx.prefetch != map[] ==> tx.getRev.value == base)
    requires FirstIn(tx.wset, keys).None?
    ensures var tx' := GetTx(tx, h, keys).0;
            && tx'.rset != map[] && tx'.getRev.Some?
            && FromOneRevision(h, tx'.getRev.value, tx'.rset)
            && tx'.getRev.value == (
                 if tx.rset != map[] then tx.getRev.value else if tx.prefetch != map[] then base else Revision(h))
            && (tx'.prefetch != map[] ==> tx.prefetch != map[])
            && Coherent(h, base, tx'.prefetch)
  {
    var tx1 := UsePrefetch(tx, keys);
    GetCoherent(h, tx, base, keys);
    FirstListed(keys);
    if tx.rset != map[] {
      assert FromOneRevision(h, tx.getRev.value, tx1.rset);
      FetchAtRevision(h, tx1, keys, tx.getRev.value);
    } else if tx.prefetch == map[] {
      assert tx1.rset == map[];
      FetchAtRevision(h, tx1, keys, Revision(h));
    } else {
      PrefetchFromBase(h, tx, base, keys);
      FetchCached(h, tx1, keys);
    }
  }

  lemma FirstListed(keys: seq<Key>)
    ensures keys != [] ==> keys[0] in keys
  {
  }

  // An attempt that starts from the prefetch starts from the revision the prefetch is from.
  lemma PrefetchFromBase(h: History, tx: Tx, base: nat, keys: seq<Key>)
    requires keys != [] && tx.rset == map[] && Coherent(h, base, tx.prefetch)
    requires forall k | k in keys :: k in tx.prefetch
    ensures var tx1 := UsePrefetch(tx, keys);
            && FromOneRevision(h, base, tx1.rset) && keys[0] in tx1.rset && tx1.rset[keys[0]].rev == base
  {
    FirstListed(keys);
  }

  // A fetch that adds entries of the revision the read set is already from.
  lemma FetchAtRevision(h: History, tx: Tx, keys: seq<Key>, rev: nat)
    requires keys != [] && 0 < rev < |h| && FromOneRevision(h, rev, tx.rset)
    requires if tx.getRev.Some? then tx.getRev.value == rev else rev == Revision(h) && tx.rset == map[]
    ensures var (tx', resp) := Fetch(tx, h, keys);
            && tx' == tx.(rset := tx'.rset) && tx'.rset != map[] && FromOneRevision(h, rev, tx'.rset)
            && resp.Some? && (tx.rset == map[] ==> resp.value.rev == Revision(h))
  {
    FirstInFinds(tx.rset, keys);
    assert keys[0] in keys;
  }

  lemma FetchCached(h: History, tx: Tx, keys: seq<Key>)
    requires keys != [] && keys[0] in tx.rset
    ensures Fetch(tx, h, keys) == (tx, Some(tx.rset[keys[0]]))
  {
    FirstInFinds(tx.rset, keys);
  }

  lemma GetWrittenIsSilent(tx: Tx, h: History, key: Key)
    ensures key in tx.wset ==> GetTx(tx, h, [key]).0 == tx
  {
  }

  lemma GetCoherent(h: History, tx: Tx, base: nat, keys: seq<Key>)
    requires CanGet(tx, keys) && Coherent(h, base, tx.prefetch)
    ensures Coherent(h, base, GetTx(tx, h, keys).0.prefetch)
  {
  }

  lemma GetKeepsSnapshot(h: History, c: Client, key: Key, r: P.Reply)
    requires ClientInv(h, c) && FixesFirst(c) && (c.warmed || c.prefetchKeys == [])
    requires c.prog(c.log) in {P.Get(key), P.Rev(key)} && key !in c.tx.wset
    ensures var c' := Answered(c, GetTx(c.tx, h, [key]).0, r);
            && OneSnapshot(h, c')
            && c'.tx.rset != map[] && !P.Quiet(c.prog, c'.log)
  {
    FirstInFinds(c.tx.wset, [key]);
    if c.tx.rset == map[] {
      assert P.ReadsNext(c.prog, c.log);
    }
    GetFixesSnapshot(h, c.tx, c.base, [key]);
    QuietAppend(c.prog, c.log, r);
    assert (c.log + [r])[..|c.log|] == c.log;
  }

  lemma GetKeepsInv(h: History, c: Client, key: Key)
    requires ClientInv(h, c) && c.prog(c.log) == P.Get(key)
    requires c.warmed || c.prefetchKeys == []
    ensures var (tx, v) := GetTx(c.tx, h, [key]); ClientInv(h, Answered(c, tx, P.Text(v)))
  {
    var (tx, v) := GetTx(c.tx, h, [key]);
    var r := P.Text(v);
    GetKeepsReads(c.tx, h, [key]);
    GetAnswers(c.tx, h, key);
    GetSourced(c.tx, h, c.base, [key]);
    AnswersKept(c.prog, c.log, r, c.tx.rset, tx.rset);
    P.OverlayAppend(c.prog, c.log, r);
    QuietAppend(c.prog, c.log, r);
    assert (c.log + [r])[..|c.log|] == c.log;
    if FixesSnapshot(c.tx.iso) {
      GetCoherent(h, c.tx, c.base, [key]);
    }
    if FixesFirst(c) && key !in c.tx.wset {
      GetKeepsSnapshot(h, c, key, r);
    }
  }

  lemma FetchAtSnapshot(h: History, tx: Tx, key: Key)
    requires tx.rset != map[] && tx.getRev.Some? && 0 < tx.getRev.value < |h|
    requires FromOneRevision(h, tx.getRev.value, tx.rset)
    ensures var tx' := Fetch(tx, h, [key]).0;
            && FromOneRevision(h, tx.getRev.value, tx'.rset)
            && tx' == tx.(rset := tx'.rset) && tx'.rset != map[] && Grows(tx.rset, tx'.rset)
  {
  }

  lemma RevKeepsInv(h: History, c: Client, key: Key)
    requires ClientInv(h, c) && c.prog(c.log) == P.Rev(key)
    requires c.warmed || c.prefetchKeys == []
    ensures var (tx, n) := RevTx(c.tx, h, key); ClientInv(h, Answered(c, tx, P.Number(n)))
  {
    var (tx, n) := RevTx(c.tx, h, key);
    var r := P.Number(n);
    RevKeepsReads(c.tx, h, key);
    RevSourced(c.tx, h, c.base, key);
    AnswersKept(c.prog, c.log, r, c.tx.rset, tx.rset);
    P.OverlayAppend(c.prog, c.log, r);
    QuietAppend(c.prog, c.log, r);
    assert (c.log + [r])[..|c.log|] == c.log;
    if FixesSnapshot(c.tx.iso) {
      GetCoherent(h, c.tx, c.base, [key]);
      FirstInFinds(GetTx(c.tx, h, [key]).0.rset, [key]);
    }
    if FixesFirst(c) {
      if key !in c.tx.wset {
        GetKeepsSnapshot(h, c, key, r);
      } else {
        GetWrittenIsSilent(c.tx, h, key);
      }
      GetSourced(c.tx, h, c.base, [key]);
      FetchAtSnapshot(h, GetTx(c.tx, h, [key]).0, key);
    }
  }

  lemma PrefetchKeepsInv(h: History, c: Client)
    requires ClientInv(h, c) && c.prefetchKeys != [] && !c.warmed
    ensures ClientInv(h, c.(tx := GetTx(c.tx, h, c.prefetchKeys).0, warmed := true))
  {
    var tx := GetTx(c.tx, h, c.prefetchKeys).0;
    assert c.tx.wset == map[] by { assert c.log == []; }
    FirstInFinds(c.tx.wset, c.prefetchKeys);
    FirstInFinds(c.tx.rset, c.prefetchKeys);
    FirstInFinds(UsePrefetch(c.tx, c.prefetchKeys).rset, c.prefetchKeys);
    GetKeepsReads(c.tx, h, c.prefetchKeys);
    GetSourced(c.tx, h, c.base, c.prefetchKeys);
    if FixesSnapshot(c.tx.iso) {
      GetCoherent(h, c.tx, c.base, c.prefetchKeys);
    }
    if FixesFirst(c) {
      GetFixesSnapshot(h, c.tx, c.base, c.prefetchKeys);
    }
  }

  // The first read of an attempt that read something, whose key is in the read set.
  lemma {:induction false} FirstRead(c: Client, n: nat) returns (j: nat)
    requires Explained(c) && P.FirstReadIsGet(c.prog) && n <= |c.log|
    requires !P.Quiet(c.prog, c.log[..n])
    ensures j < |c.log| && P.Quiet(c.prog, c.log[..j]) && P.ReadsNext(c.prog, c.log[..j])
    ensures c.prog(c.log[..j]).key in c.tx.rset
    decreases n
  {
    if !P.Quiet(c.prog, c.log[..n - 1]) {
      j := FirstRead(c, n - 1);
    } else {
      j := n - 1;
      assert c.log[..n] == c.log[..j] + [c.log[j]];
      QuietAppend(c.prog, c.log[..j], c.log[j]);
      assert c.log[..n][..j] == c.log[..j];
      assert AnswerOk(c.prog, c.log, j, c.tx.rset);
    }
  }

  lemma CoherentIsGenuine(h: History, rs: ReadSet)
    requires Coherent(h, Revision(h), rs)
    ensures AllGenuine(h, Revision(h), rs)
  {
  }

  lemma RetryReadsPrefetched(h: History, c: Client)
    requires ClientInv(h, c) && FixesFirst(c) && c.tx.rset != map[]
    requires c.warmed || c.prefetchKeys == []
    ensures forall k | k in c.prefetchKeys :: k in c.tx.rset
    ensures c.prefetchKeys == [] ==>
              forall l | P.Quiet(c.prog, l) && P.ReadsNext(c.prog, l) :: c.prog(l).key in c.tx.rset
  {
    if c.prefetchKeys == [] {
      assert c.log[..|c.log|] == c.log;
      var j := FirstRead(c, |c.log|);
      forall l | P.Quiet(c.prog, l) && P.ReadsNext(c.prog, l)
        ensures c.prog(l).key in c.tx.rset
      {
        P.QuietPathsAgree(c.prog, l, c.log[..j]);
      }
    }
  }

  // What is prefetched after a failed commit.
  lemma FailedCommitCoherent(h: History, c: Client)
    requires ClientInv(h, c) && FixesSnapshot(c.tx.iso) && !CommitTx(c.tx, h).committed
    ensures var tx := Reset(CommitTx(c.tx, h).tx);
            Coherent(h, Revision(h), tx.prefetch) && AllGenuine(h, Revision(h), tx.prefetch)
  {
    FailedCommitPrefetches(h, c.tx);
    CoherentIsGenuine(h, Reset(CommitTx(c.tx, h).tx).prefetch);
  }

  lemma FailedCommitKeepsSnapshot(h: History, c: Client)
    requires Valid(h) && ClientInv(h, c) && FixesFirst(c) && !CommitTx(c.tx, h).committed
    requires c.warmed || c.prefetchKeys == []
    ensures OneSnapshot(h, Attempt(c.(tx := CommitTx(c.tx, h).tx), Revision(h)))
  {
    if Revision(h) < MAX_INT64 {
      ConflictNeedsProgress(h, c.base, c.tx);
    }
    if c.tx.rset != map[] {
      RetryReadsPrefetched(h, c);
    }
  }

  lemma FailedCommitKeepsInv(h: History, c: Client)
    requires Valid(h)
    requires ClientInv(h, c) && !CommitTx(c.tx, h).committed
    requires c.warmed || c.prefetchKeys == []
    ensures var c' := Attempt(c.(tx := CommitTx(c.tx, h).tx), Revision(h));
            ClientInv(h, c') && (Revision(h) < MAX_INT64 ==> c'.base > c.base)
  {
    FailedCommitAccounted(h, c);
    if FixesSnapshot(c.tx.iso) {
      FailedCommitCoherent(h, c);
    }
    if FixesFirst(c) {
      FailedCommitKeepsSnapshot(h, c);
    }
  }

  lemma FailedCommitAccounted(h: History, c: Client)
    requires Valid(h) && ClientInv(h, c) && !CommitTx(c.tx, h).committed
    ensures var c' := Attempt(c.(tx := CommitTx(c.tx, h).tx), Revision(h));
            Accounted(h, c') && Explained(c') && (Revision(h) < MAX_INT64 ==> c'.base > c.base)
  {
    if Revision(h) < MAX_INT64 {
      ConflictNeedsProgress(h, c.base, c.tx);
    }
    if FixesSnapshot(c.tx.iso) {
      FailedCommitCoherent(h, c);
    }
  }

  /** Under the three guarded levels a commit succeeds only if the attempt's whole log is what the body would
      see running alone on the store as it is just before the commit. */
  lemma CommittedAttemptRanSolo(h: History, c: Client)
    requires Valid(h) && ClientInv(h, c) && !c.tx.iso.ReadCommitted?
    requires CommitTx(c.tx, h).committed
    ensures P.SoloRun(c.prog, Current(h), c.log)
    ensures Pending(c.tx.wset) == P.Overlay(c.prog, c.log)
  {
    PassedReadsAreCurrent(h, c.base, c.tx);
    forall i | 0 <= i < |c.log|
      ensures !P.Ends(c.prog(c.log[..i])) && c.log[i] == P.SoloReply(c.prog, Current(h), c.log[..i])
    {
      assert AnswerOk(c.prog, c.log, i, c.tx.rset);
    }
  }

  lemma ReplayAppend(h0: History, events: seq<Event>, e: Event)
    requires EachSolo(h0, events)
    requires e.Transaction? ==> CompletesSolo(e.prog, e.log, Current(Replay(h0, events)))
    ensures Replay(h0, events + [e]) == ReplayOne(Replay(h0, events), e)
    ensures EachSolo(h0, events + [e])
  {
    var events' := events + [e];
    assert events'[..|events|] == events;
    forall i | 0 <= i < |events'| && events'[i].Transaction?
      ensures CompletesSolo(events'[i].prog, events'[i].log, Current(Replay(h0, events'[..i])))
    {
      if i < |events| {
        assert events'[..i] == events[..i];
      }
    }
  }

  lemma CommitKeepsInv(h: History, c: Client, i: nat)
    requires Valid(h) && ClientInv(h, c) && c.prog(c.log).Finish? && CommitTx(c.tx, h).committed
    ensures CommitTx(c.tx, h).h == ReplayOne(h, CommitEvent(i, c))
    ensures CommitEvent(i, c).Transaction? ==> CompletesSolo(c.prog, c.log, Current(h))
    ensures ClientInv(h, c.(status := Committed))
  {
    if !c.tx.iso.ReadCommitted? {
      CommittedAttemptRanSolo(h, c);
    }
  }

  lemma FinishKeepsInv(h: History, c: Client, i: nat)
    requires Valid(h) && ClientInv(h, c) && c.status.Running?
    requires c.prog(c.log).Finish? && (c.warmed || c.prefetchKeys == [])
    ensures var (c', h') := AdvanceClient(c, h);
            && ClientInv(h, c')
            && (if CommitTx(c.tx, h).committed then
                  && c' == c.(status := Committed) && h' == ReplayOne(h, CommitEvent(i, c'))
                  && (CommitEvent(i, c').Transaction? ==> CompletesSolo(c'.prog, c'.log, Current(h)))
                else
                  && c'.status.Running? && h' == h && c'.fails == c.fails + 1 && c'.base == Revision(h)
                  && (Revision(h) < MAX_INT64 ==> c'.base > c.base))
  {
    if CommitTx(c.tx, h).committed {
      CommitKeepsInv(h, c, i);
    } else {
      FailedCommitKeepsInv(h, c);
    }
  }

  lemma AdvanceClientKeepsInv(h: History, c: Client, i: nat)
    requires Valid(h) && ClientInv(h, c) && c.status.Running?
    ensures var (c', h') := AdvanceClient(c, h);
            && ClientInv(h, c')
            && (!c'.status.Committed? ==> h' == h)
            && (c'.status.Committed? ==>
                  && h' == ReplayOne(h, CommitEvent(i, c'))
                  && (CommitEvent(i, c').Transaction? ==> CompletesSolo(c'.prog, c'.log, Current(h))))
            && c.fails <= c'.fails <= c.fails + 1
            && (c'.fails > c.fails && Revision(h) < MAX_INT64 ==> c'.base == Revision(h) > c.base)
  {
    if c.prefetchKeys != [] && !c.warmed {
      PrefetchKeepsInv(h, c);
    } else {
      match c.prog(c.log)
      case Get(k) => GetKeepsInv(h, c, k);
      case Rev(k) => RevKeepsInv(h, c, k);
      case Put(k, v, lease) => WriteKeepsInv(h, c, PutTx(c.tx, k, v, lease));
      case Del(k) => WriteKeepsInv(h, c, DelTx(c.tx, k));
      case Fail(e) => AbortKeepsInv(h, c, e);
      case Finish => FinishKeepsInv(h, c, i);
    }
  }

  lemma AbortKeepsInv(h: History, c: Client, e: string)
    requires ClientInv(h, c)
    ensures ClientInv(h, c.(status := Aborted(e)))
  {
  }

  lemma BeginKeepsInv(h: History, c: Client)
    requires ClientInv(h, c) && c.status.NotBegun? && UntouchedUntilBegun(c)
    ensures ClientInv(h, Begun(c, Revision(h)))
  {
  }

  // Any step leaves the clients' own invariants as they were and adds at most one event.
  lemma WorldKeepsInv(h0: History, w: World, w': World, es: seq<Event>)
    requires Inv(h0, w)
    requires forall i | 0 <= i < |w'.clients| :: ClientInv(w.hist, w'.clients[i]) && UntouchedUntilBegun(w'.clients[i])
    requires w'.events == w.events + es && |es| <= 1
    requires es == [] ==> w'.hist == w.hist
    requires es != [] ==>
               && w'.hist == ReplayOne(w.hist, es[0])
               && (es[0].Transaction? ==> CompletesSolo(es[0].prog, es[0].log, Current(w.hist)))
    ensures Inv(h0, w') && w.hist <= w'.hist
  {
    if es == [] {
      assert w'.events == w.events;
    } else {
      CommitExtends(w.hist, if es[0].Transaction? then P.Overlay(es[0].prog, es[0].log) else es[0].batch);
      assert es == [es[0]];
      ReplayAppend(h0, w.events, es[0]);
      forall i | 0 <= i < |w'.clients|
        ensures ClientInv(w'.hist, w'.clients[i])
      {
        ClientInvLater(w.hist, w'.hist, w'.clients[i]);
      }
    }
  }

  // One client moves, and its commit is recorded if it has one.
  lemma ClientMoves(h0: History, w: World, i: nat, c': Client, h': History, es: seq<Event>)
    requires Inv(h0, w) && i < |w.clients| && ClientInv(w.hist, c') && UntouchedUntilBegun(c')
    requires |es| <= 1
    requires es == [] ==> h' == w.hist
    requires es != [] ==>
               && h' == ReplayOne(w.hist, es[0])
               && (es[0].Transaction? ==> CompletesSolo(es[0].prog, es[0].log, Current(w.hist)))
    ensures var w' := World(h', w.clients[i := c'], w.events + es); Inv(h0, w') && w.hist <= w'.hist
  {
    WorldKeepsInv(h0, w, World(h', w.clients[i := c'], w.events + es), es);
  }

  lemma AdvanceKeepsInv(h0: History, w: World, i: nat)
    requires Inv(h0, w)
    requires i < |w.clients| && w.clients[i].status.Running?
    ensures Inv(h0, DoStep(w, Advance(i))) && w.hist <= DoStep(w, Advance(i)).hist
  {
    AdvanceClientKeepsInv(w.hist, w.clients[i], i);
    var (c', h') := AdvanceClient(w.clients[i], w.hist);
    AdvanceNeverRestarts(w.clients[i], w.hist);
    ClientMoves(h0, w, i, c', h', if c'.status.Committed? then [CommitEvent(i, c')] else []);
  }

  lemma AdvanceNeverRestarts(c: Client, h: History)
    requires c.status.Running?
    ensures !AdvanceClient(c, h).0.status.NotBegun?
  {
  }

  lemma StepKeepsInv(h0: History, w: World, step: Step)
    requires Inv(h0, w)
    ensures Inv(h0, DoStep(w, step)) && w.hist <= DoStep(w, step).hist
  {
    match step
    case Begin(i) =>
      if i < |w.clients| && w.clients[i].status.NotBegun? {
        BeginKeepsInv(w.hist, w.clients[i]);
        ClientMoves(h0, w, i, Begun(w.clients[i], Revision(w.hist)), w.hist, []);
        assert w.events + [] == w.events;
      }
    case Advance(i) =>
      if i < |w.clients| && w.clients[i].status.Running? {
        AdvanceKeepsInv(h0, w, i);
      }
    case RpcError(i) =>
      if i < |w.clients| && w.clients[i].status.Running? {
        AbortKeepsInv(w.hist, w.clients[i], "rpc");
        ClientMoves(h0, w, i, w.clients[i].(status := Aborted("rpc")), w.hist, []);
        assert w.events + [] == w.events;
      }
    case Outside(b) =>
      WorldKeepsInv(h0, w, DoStep(w, step), [Writes(b)]);
  }

  lemma InitialInv(w: World)
    requires Initial(w)
    ensures Inv(w.hist, w)
  {
  }

  lemma {:induction false} RunKeepsInv(w0: World, steps: seq<Step>)
    requires Initial(w0)
    ensures Inv(w0.hist, Exec(w0, steps)) && w0.hist <= Exec(w0, steps).hist
    decreases |steps|
  {
    if steps == [] {
      InitialInv(w0);
    } else {
      var before := steps[..|steps| - 1];
      RunKeepsInv(w0, before);
      StepKeepsInv(w0.hist, Exec(w0, before), steps[|steps| - 1]);
    }
  }

  lemma HistoryGrows(w: World, step: Step)
    ensures |w.hist| <= |DoStep(w, step).hist|
  {
  }

  // ---------- Main results ----------

  /** Serializability. Whatever the clients and the interleaving, the store at the end is the one obtained by
      replaying the committed transactions one after the other in commit order, and every transaction committed
      under a level other than ReadCommitted got exactly the answers it gets when it runs alone at its turn. */
  lemma {:induction false} Serializability(w0: World, steps: seq<Step>)
    requires Initial(w0)
    ensures var w := Exec(w0, steps);
            && Replay(w0.hist, w.events) == w.hist
            && EachSolo(w0.hist, w.events)
  {
    RunKeepsInv(w0, steps);
  }

  /** What a commit at any of the four levels writes: of each key the body's last write, with the new revision, and
      nothing else. */
  lemma {:induction false} CommitWritesLastWrites(w0: World, steps: seq<Step>, w: World, i: nat, k: Key, j: nat)
    requires Initial(w0) && w == Exec(w0, steps)
    requires i < |w.clients| && w.clients[i].status.Running?
    requires DoStep(w, Advance(i)).clients[i].status.Committed?
    ensures var c, h' := w.clients[i], DoStep(w, Advance(i)).hist;
            c.prog(c.log).Finish? && Wrote(w.hist, h', c.prog, c.log, k, j)
  {
    KeepsClientInv(w0, steps, i);
    CommittingClient(w, i);
    CommittingWrites(w.hist, w.clients[i], k, j);
  }

  lemma {:induction false} KeepsClientInv(w0: World, steps: seq<Step>, i: nat)
    requires Initial(w0) && i < |Exec(w0, steps).clients|
    ensures Valid(Exec(w0, steps).hist) && ClientInv(Exec(w0, steps).hist, Exec(w0, steps).clients[i])
  {
    RunKeepsInv(w0, steps);
  }

  lemma CommittingClient(w: World, i: nat)
    requires i < |w.clients| && w.clients[i].status.Running?
    ensures DoStep(w, Advance(i)).clients[i] == AdvanceClient(w.clients[i], w.hist).0
    ensures DoStep(w, Advance(i)).hist == AdvanceClient(w.clients[i], w.hist).1
  {
  }

  lemma CommittingFinishes(h: History, c: Client)
    requires c.status.Running? && AdvanceClient(c, h).0.status.Committed?
    ensures c.prog(c.log).Finish? && CommitTx(c.tx, h).committed
    ensures AdvanceClient(c, h).1 == Commit(h, Pending(c.tx.wset))
  {
  }

  lemma CommittingWrites(h: History, c: Client, k: Key, j: nat)
    requires Explained(c) && c.status.Running? && AdvanceClient(c, h).0.status.Committed?
    ensures c.prog(c.log).Finish? && Wrote(h, AdvanceClient(c, h).1, c.prog, c.log, k, j)
  {
    CommittingFinishes(h, c);
    assert Pending(c.tx.wset) == P.Overlay(c.prog, c.log);
    WroteOverlay(h, c.prog, c.log, k, j);
  }

  // From `h` to `h'` the key has changed as the body's last write of it says; there is at most one new revision.
  ghost predicate Wrote(h: History, h': History, p: P.Program, log: seq<P.Reply>, k: Key, j: nat) {
    var s, s' := h[|h| - 1], h'[|h'| - 1];
    && (h' == h || (|h'| == |h| + 1 && h'[..|h|] == h))
    && (P.Unwritten(p, log, |log|, k) ==> (k in s' <==> k in s) && (k in s ==> s'[k] == s[k]))
    && (P.LastWrite(p, log, |log|, k, j) ==>
          match p(log[..j])
          case Put(_, v, lease) =>
            && |h'| == |h| + 1 && k in s'
            && s'[k] == KV(k, v, if k in s then s[k].createRev else |h|, |h|, lease)
          case _ => k !in s')
  }

  lemma WroteOverlay(h: History, p: P.Program, log: seq<P.Reply>, k: Key, j: nat)
    ensures Wrote(h, Commit(h, P.Overlay(p, log)), p, log, k, j)
  {
    assert log[..|log|] == log;
    P.OverlayIsLastWrites(p, log, |log|, k, j);
    CommitMeans(h, P.Overlay(p, log), k);
  }

  /** Every committed transaction of every run, told without the replay's own terms: it ran to its Finish, each of its
      answers is its own last write or the store's entry just before it, and each key is left as its last write says. */
  lemma {:induction false} TransactionsInTheirTurn(w0: World, steps: seq<Step>, n: nat, i: nat, k: Key, j: nat)
    requires Initial(w0)
    requires n < |Exec(w0, steps).events| && Exec(w0, steps).events[n].Transaction?
    ensures InItsTurn(w0.hist, Exec(w0, steps).hist, Exec(w0, steps).events, n, i, k, j)
  {
    Serializability(w0, steps);
    EachInItsTurn(w0.hist, Exec(w0, steps).events, n, i, k, j);
  }

  // From `h` to `h'` the body ran to its Finish, was answered from `h`, and wrote what it wrote last.
  ghost predicate RanBetween(h: History, h': History, p: P.Program, log: seq<P.Reply>, i: nat, k: Key, j: nat) {
    && p(log).Finish?
    && (i < |log| ==> P.AnsweredAlone(p, h[|h| - 1], log, i, j))
    && Wrote(h, h', p, log, k, j)
  }

  // The transaction of event `n` ran between the events before it and those after it.
  ghost predicate InItsTurn(h0: History, end: History, events: seq<Event>, n: nat, i: nat, k: Key, j: nat)
    requires n < |events| && events[n].Transaction?
  {
    var h, h' := Replay(h0, events[..n]), Replay(h0, events[..n + 1]);
    h0 <= h <= h' <= end && RanBetween(h, h', events[n].prog, events[n].log, i, k, j)
  }

  lemma SoloRanBetween(h: History, p: P.Program, log: seq<P.Reply>, i: nat, k: Key, j: nat)
    requires CompletesSolo(p, log, Current(h))
    ensures RanBetween(h, Commit(h, P.Overlay(p, log)), p, log, i, k, j)
  {
    WroteOverlay(h, p, log, k, j);
    if i < |log| {
      P.SoloRunMeans(p, h[|h| - 1], log, i, j);
    }
  }

  lemma ReplayOneMore(h0: History, events: seq<Event>, n: nat)
    requires n < |events|
    ensures Replay(h0, events[..n + 1]) == ReplayOne(Replay(h0, events[..n]), events[n])
  {
    assert events[..n + 1][..n] == events[..n];
  }

  lemma EachInItsTurn(h0: History, events: seq<Event>, n: nat, i: nat, k: Key, j: nat)
    requires EachSolo(h0, events) && n < |events| && events[n].Transaction?
    ensures InItsTurn(h0, Replay(h0, events), events, n, i, k, j)
  {
    ReplayOneMore(h0, events, n);
    ReplaySpans(h0, events, n);
    SoloRanBetween(Replay(h0, events[..n]), events[n].prog, events[n].log, i, k, j);
  }

  lemma ReplaySpans(h0: History, events: seq<Event>, n: nat)
    requires n < |events|
    ensures h0 <= Replay(h0, events[..n]) <= Replay(h0, events[..n + 1]) <= Replay(h0, events)
  {
    ReplayGrows(h0, events, 0, n);
    ReplayGrows(h0, events, n, n + 1);
    ReplayGrows(h0, events, n + 1, |events|);
    assert events[..|events|] == events;
  }

  lemma {:induction false} ReplayGrows(h0: History, events: seq<Event>, m: nat, n: nat)
    requires m <= n <= |events|
    ensures Replay(h0, events[..m]) <= Replay(h0, events[..n])
    decreases n
  {
    if m < n {
      assert events[..n][..n - 1] == events[..n - 1];
      ReplayGrows(h0, events, m, n - 1);
    }
  }

  /** The answers of a guarded attempt that commits, at the moment it commits. */
  lemma {:induction false} CommittedAnswersAreCurrent(w0: World, steps: seq<Step>, w: World, i: nat, n: nat, j: nat)
    requires Initial(w0) && w == Exec(w0, steps)
    requires i < |w.clients| && w.clients[i].status.Running? && !w.clients[i].tx.iso.ReadCommitted?
    requires DoStep(w, Advance(i)).clients[i].status.Committed? && n < |w.clients[i].log|
    ensures P.AnsweredAlone(w.clients[i].prog, w.hist[|w.hist| - 1], w.clients[i].log, n, j)
  {
    KeepsClientInv(w0, steps, i);
    CommittingClient(w, i);
    CommittingAnswers(w.hist, w.clients[i], n, j);
  }

  lemma CommittingAnswers(h: History, c: Client, n: nat, j: nat)
    requires Valid(h) && ClientInv(h, c) && c.status.Running? && !c.tx.iso.ReadCommitted?
    requires AdvanceClient(c, h).0.status.Committed? && n < |c.log|
    ensures P.AnsweredAlone(c.prog, h[|h| - 1], c.log, n, j)
  {
    CommittingFinishes(h, c);
    CommittedAttemptRanSolo(h, c);
    P.SoloRunMeans(c.prog, h[|h| - 1], c.log, n, j);
  }

  ghost predicate IsGuardedCommit(c: Client) {
    c.status.Committed? && !c.tx.iso.ReadCommitted?
  }

  ghost predicate IsTransactionOf(e: Event, i: nat) {
    e.Transaction? && e.who == i
  }

  // Every guarded commit has its transaction in the list, nothing else has one, and nobody has two.
  ghost predicate Recorded(w: World) {
    && (forall i | 0 <= i < |w.clients| && IsGuardedCommit(w.clients[i]) ::
          Transaction(i, w.clients[i].prog, w.clients[i].log) in w.events)
    && (forall e | e in w.events && e.Transaction? ::
          && e.who < |w.clients| && IsGuardedCommit(w.clients[e.who])
          && e == Transaction(e.who, w.clients[e.who].prog, w.clients[e.who].log))
    && (forall m, n, i | 0 <= m < n < |w.events| && IsTransactionOf(w.events[m], i) ::
          !IsTransactionOf(w.events[n], i))
  }

  lemma StepKeepsRecorded(w: World, step: Step)
    requires Recorded(w)
    ensures Recorded(DoStep(w, step))
  {
    if step.Advance? && step.i < |w.clients| && w.clients[step.i].status.Running? {
      AdvanceKeepsRecorded(w, step.i);
    }
  }

  lemma AdvanceKeepsRecorded(w: World, i: nat)
    requires Recorded(w) && i < |w.clients| && w.clients[i].status.Running?
    ensures Recorded(DoStep(w, Advance(i)))
  {
    assert forall n | 0 <= n < |w.events| && w.events[n].Transaction? :: w.events[n] in w.events;
    assert forall n | 0 <= n < |w.events| :: !IsTransactionOf(w.events[n], i);
  }

  /** The replayed transactions are those of the clients whose guarded commit succeeded, exactly one for each,
      with the answers of its last attempt. */
  lemma {:induction false} CommittedAreReplayed(w0: World, steps: seq<Step>)
    requires Initial(w0)
    ensures Recorded(Exec(w0, steps))
    decreases |steps|
  {
    if steps == [] {
      assert forall i | 0 <= i < |w0.clients| :: InitialClient(w0.clients[i], w0.hist);
    } else {
      CommittedAreReplayed(w0, steps[..|steps| - 1]);
      StepKeepsRecorded(Exec(w0, steps[..|steps| - 1]), steps[|steps| - 1]);
    }
  }

  /** Repeatable reads and reads of own writes, at all four levels: a Get answers the last write of the key in
      this attempt ("" after a Del); with no such write, it answers like every earlier Get of the key. */
  lemma {:induction false} RepeatableAnswers(w0: World, steps: seq<Step>, i: nat, m: nat, n: nat, key: Key)
    requires Initial(w0)
    requires i < |Exec(w0, steps).clients|
    requires var c := Exec(w0, steps).clients[i];
             m <= n < |c.log| && c.prog(c.log[..n]) == P.Get(key) == c.prog(c.log[..m])
    ensures var c := Exec(w0, steps).clients[i];
            var own := P.Overlay(c.prog, c.log[..n]);
            && (key in own ==> c.log[n] == P.Text(P.OwnValue(own[key])))
            && (key !in own ==> c.log[n] == c.log[m])
  {
    RunKeepsInv(w0, steps);
    var c := Exec(w0, steps).clients[i];
    assert ClientInv(Exec(w0, steps).hist, c);
    assert AnswerOk(c.prog, c.log, n, c.tx.rset) && AnswerOk(c.prog, c.log, m, c.tx.rset);
    OverlayGrows(c.prog, c.log, m, n);
  }

  lemma {:induction false} OverlayGrows(p: P.Program, log: seq<P.Reply>, m: nat, n: nat)
    requires m <= n <= |log|
    ensures P.Overlay(p, log[..m]).Keys <= P.Overlay(p, log[..n]).Keys
    decreases n
  {
    if m < n {
      OverlayGrows(p, log, m, n - 1);
      assert log[..n] == log[..n - 1] + [log[n - 1]];
      P.OverlayAppend(p, log[..n - 1], log[n - 1]);
    }
  }

  // The bodies whose attempts keep to one revision: see StmTraps.SnapshotExactly for the others.
  ghost predicate KeepsOneRevision(c: Client) {
    FixesSnapshot(c.tx.iso) && (c.prefetchKeys != [] || !P.Mixes(c.prog))
  }

  /** Snapshot reads, even in an attempt that will fail: under the two stmSerializable levels every answer of an
      attempt that is not the transaction's own write is the store's answer at one single revision, no older than
      the attempt. */
  lemma {:induction false} SnapshotReads(w0: World, steps: seq<Step>, i: nat)
    requires Initial(w0)
    requires i < |Exec(w0, steps).clients| && KeepsOneRevision(Exec(w0, steps).clients[i])
    ensures var w := Exec(w0, steps);
            var c := w.clients[i];
            exists rev | c.base <= rev < |w.hist| :: P.SoloRun(c.prog, w.hist[rev], c.log)
  {
    RunKeepsInv(w0, steps);
    var w := Exec(w0, steps);
    var c := w.clients[i];
    assert ClientInv(w.hist, c);
    if FixesFirst(c) {
      SnapshotOf(w.hist, c);
    } else {
      UnfixedSnapshotOf(w.hist, c);
    }
  }

  lemma UnfixedSnapshotOf(h: History, c: Client)
    requires Explained(c) && Sourced(h, c.base, c.tx) && !P.Mixes(c.prog) && !P.FirstReadIsGet(c.prog)
    ensures exists rev | c.base <= rev < |h| :: P.SoloRun(c.prog, h[rev], c.log)
  {
    if P.Quiet(c.prog, c.log) {
      QuietIsSolo(c, h[c.base]);
    } else {
      assert c.log[..|c.log|] == c.log;
      var m := P.FirstUnquiet(c.prog, c.log, |c.log|);
      assert AnswerOk(c.prog, c.log, m, c.tx.rset);
      if P.ReadsNext(c.prog, c.log[..m]) {
        P.FirstReadDecides(c.prog, c.log[..m]);
      } else {
        RevOnlyIsSolo(h, c, m, c.prog(c.log[..m]).key);
      }
    }
  }

  lemma QuietIsSolo(c: Client, s: Snapshot)
    requires P.Quiet(c.prog, c.log)
    ensures P.SoloRun(c.prog, s, c.log)
  {
    forall i | 0 <= i < |c.log|
      ensures !P.Ends(c.prog(c.log[..i])) && c.log[i] == P.SoloReply(c.prog, s, c.log[..i])
    {
      assert P.QuietAt(c.prog, c.log, i);
    }
  }

  // The attempt has read one entry only, and reads it from some revision.
  lemma RevOnlyIsSolo(h: History, c: Client, m: nat, k: Key)
    requires Explained(c) && Sourced(h, c.base, c.tx) && !P.Mixes(c.prog)
    requires m < |c.log| && P.Quiet(c.prog, c.log[..m])
    requires c.prog(c.log[..m]) == P.Rev(k) && k in P.Overlay(c.prog, c.log[..m])
    ensures exists rev | c.base <= rev < |h| :: P.SoloRun(c.prog, h[rev], c.log)
  {
    assert AnswerOk(c.prog, c.log, m, c.tx.rset);
    var n := ModOf(c.tx.rset[k].kv);
    assert Genuine(h, c.base, k, c.tx.rset[k]);
    var rev :| c.base <= rev <= c.tx.rset[k].rev && c.tx.rset[k].kv == Lookup(h[rev], k);
    RevOnlyAttempt(c, m, k, n, |c.log|);
    assert c.log[..|c.log|] == c.log;
    forall i | 0 <= i < |c.log|
      ensures !P.Ends(c.prog(c.log[..i])) && c.log[i] == P.SoloReply(c.prog, h[rev], c.log[..i])
    {
      if i < m {
        assert c.log[..m][..i] == c.log[..i];
        assert P.QuietAt(c.prog, c.log[..m], i);
      } else if i > m {
        assert P.SilentAt(c.prog, c.log, i, k, n);
      }
    }
    assert P.SoloRun(c.prog, h[rev], c.log);
  }

  lemma {:induction false} RevOnlyAttempt(c: Client, m: nat, k: Key, n: nat, i: nat)
    requires Explained(c) && !P.Mixes(c.prog) && m < i <= |c.log| && P.Quiet(c.prog, c.log[..m])
    requires c.prog(c.log[..m]) == P.Rev(k) && k in P.Overlay(c.prog, c.log[..m])
    requires k in c.tx.rset && n == ModOf(c.tx.rset[k].kv)
    ensures P.RevOnly(c.prog, c.log[..i], m, k, n)
    decreases i
  {
    assert c.log[..i][..m] == c.log[..m];
    assert AnswerOk(c.prog, c.log, m, c.tx.rset);
    if i > m + 1 {
      RevOnlyAttempt(c, m, k, n, i - 1);
      assert !P.MixesAt(c.prog, c.log[..i - 1], m, k, n);
      assert AnswerOk(c.prog, c.log, i - 1, c.tx.rset);
      forall j | m < j < i
        ensures P.SilentAt(c.prog, c.log[..i], j, k, n)
      {
        assert c.log[..i][..j] == c.log[..j];
        if j < i - 1 {
          assert c.log[..i - 1][..j] == c.log[..j];
          assert P.SilentAt(c.prog, c.log[..i - 1], j, k, n);
        }
      }
    }
  }

  /** A retry behaves exactly as if it read every key again at the revision of the failed commit: each answer of
      the attempt that is not the transaction's own write is the store's at that revision, whether it came from
      the prefetch or from a request. */
  lemma {:induction false} RetryRereadsAtFailedCommit(w0: World, steps: seq<Step>, i: nat)
    requires Initial(w0) && Revision(Exec(w0, steps).hist) < MAX_INT64
    requires i < |Exec(w0, steps).clients| && FixesFirst(Exec(w0, steps).clients[i])
    requires Exec(w0, steps).clients[i].fails > 0
    ensures var w := Exec(w0, steps);
            var c := w.clients[i];
            c.base < |w.hist| && P.SoloRun(c.prog, w.hist[c.base], c.log)
  {
    RunKeepsInv(w0, steps);
    var w := Exec(w0, steps);
    assert ClientInv(w.hist, w.clients[i]);
    SnapshotOf(w.hist, w.clients[i]);
  }

  lemma SnapshotOf(h: History, c: Client)
    requires ClientInv(h, c) && FixesFirst(c)
    ensures exists rev | c.base <= rev < |h| :: P.SoloRun(c.prog, h[rev], c.log)
    ensures c.fails > 0 && Revision(h) < MAX_INT64 ==> P.SoloRun(c.prog, h[c.base], c.log)
  {
    var rev := if c.tx.rset == map[] then c.base else c.tx.getRev.value;
    forall j | 0 <= j < |c.log|
      ensures !P.Ends(c.prog(c.log[..j])) && c.log[j] == P.SoloReply(c.prog, h[rev], c.log[..j])
    {
      assert AnswerOk(c.prog, c.log, j, c.tx.rset);
    }
    assert P.SoloRun(c.prog, h[rev], c.log);
  }

  /** Retries are bounded by others' progress: the failed commits of one call never outnumber the revisions
      the store has gained since the call began. The call itself has committed nothing while it retries. */
  lemma {:induction false} RetriesBounded(w0: World, steps: seq<Step>, i: nat)
    requires Initial(w0) && Revision(Exec(w0, steps).hist) < MAX_INT64
    requires i < |Exec(w0, steps).clients|
    ensures var w := Exec(w0, steps); var c := w.clients[i];
            c.start + c.fails <= c.base <= Revision(w.hist)
  {
    RunKeepsInv(w0, steps);
    assert ClientInv(Exec(w0, steps).hist, Exec(w0, steps).clients[i]);
  }

  /** Failed commits of one call happen at strictly increasing revisions. */
  lemma {:induction false} ConflictsAdvance(w0: World, steps: seq<Step>, i: nat)
    requires Initial(w0) && Revision(Exec(w0, steps).hist) < MAX_INT64
    requires i < |Exec(w0, steps).clients| && Exec(w0, steps).clients[i].status.Running?
    ensures var w := Exec(w0, steps); var c := w.clients[i]; var c' := DoStep(w, Advance(i)).clients[i];
            && c.fails <= c'.fails <= c.fails + 1
            && (c'.fails > c.fails ==> c'.base == Revision(w.hist) > c.base)
  {
    RunKeepsInv(w0, steps);
    assert ClientInv(Exec(w0, steps).hist, Exec(w0, steps).clients[i]);
    AdvanceClientKeepsInv(Exec(w0, steps).hist, Exec(w0, steps).clients[i], i);
  }

  /** A client alone with the store never has to retry. */
  lemma {:induction false} LoneClientNeverRetries(w0: World, steps: seq<Step>)
    requires Initial(w0) && |w0.clients| == 1 && Revision(Exec(w0, steps).hist) < MAX_INT64
    requires forall i | 0 <= i < |steps| :: !steps[i].Outside?
    ensures |Exec(w0, steps).clients| == 1 && Exec(w0, steps).clients[0].fails == 0
  {
    LoneHistory(w0, steps);
  }

  lemma {:induction false} LoneHistory(w0: World, steps: seq<Step>)
    requires Initial(w0) && |w0.clients| == 1 && Revision(Exec(w0, steps).hist) < MAX_INT64
    requires forall i | 0 <= i < |steps| :: !steps[i].Outside?
    ensures var w := Exec(w0, steps);
            && |w.clients| == 1 && w.clients[0].fails == 0 && w.clients[0].start == Revision(w0.hist)
            && (w.clients[0].status.Running? || w.clients[0].status.NotBegun? ==> w.hist == w0.hist)
    decreases |steps|
  {
    if steps == [] {
      assert InitialClient(w0.clients[0], w0.hist);
    } else {
      var before := steps[..|steps| - 1];
      var w := Exec(w0, before);
      HistoryGrows(w, steps[|steps| - 1]);
      LoneHistory(w0, before);
      RunKeepsInv(w0, before);
      assert ClientInv(w.hist, w.clients[0]);
      if w.clients[0].status.Running? {
        AdvanceClientKeepsInv(w.hist, w.clients[0], 0);
        CommittingStops(w.clients[0], w.hist);
      }
    }
  }

  lemma CommittingStops(c: Client, h: History)
    ensures AdvanceClient(c, h).0.status.Running? ==> AdvanceClient(c, h).1 == h
    ensures AdvanceClient(c, h).0.start == c.start
  {
  }

  /** After a failed commit of an stmSerializable, every prefetched response is the store's entry at the
      revision of that commit. */
  lemma {:induction false} PrefetchCoherence(w0: World, steps: seq<Step>, i: nat)
    requires Initial(w0)
    requires i < |Exec(w0, steps).clients| && FixesSnapshot(Exec(w0, steps).clients[i].tx.iso)
    ensures Coherent(Exec(w0, steps).hist, Exec(w0, steps).clients[i].base, Exec(w0, steps).clients[i].tx.prefetch)
  {
    RunKeepsInv(w0, steps);
    assert ClientInv(Exec(w0, steps).hist, Exec(w0, steps).clients[i]);
  }
}
