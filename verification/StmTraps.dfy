/** The two ways a transaction body can lose the snapshot guarantee, with the exact conditions. */
module StmTraps {
  import opened Store
  import opened StmSpec
  import opened StmRuns
  import P = Programs

  // ---------- A Rev before the first Get ----------

  // One call, not begun yet, alone with the store.
  ghost function Alone(h: History, prog: P.Program, iso: Isolation): World {
    World(h, [Client(prog, [], NewTx(iso), false, [], NotBegun, Revision(h), Revision(h), 0)], [])
  }

  // The call begins and makes `n` calls.
  function Schedule(n: nat): seq<Step> {
    if n == 0 then [Begin(0)] else Schedule(n - 1) + [Advance(0)]
  }

  ghost function Solo(h: History, prog: P.Program, tx: Tx, log: seq<P.Reply>): World {
    World(h, [Client(prog, [], tx, false, log, Running, Revision(h), Revision(h), 0)], [])
  }

  lemma Unfold(w: World, steps: seq<Step>, step: Step)
    ensures Exec(w, steps + [step]) == DoStep(Exec(w, steps), step)
  {
  }

  // One quiet call changes nothing but the write set.
  lemma QuietStep(h: History, prog: P.Program, tx: Tx, log: seq<P.Reply>, r: P.Reply)
    returns (ws: WriteSet)
    requires P.QuietAt(prog, log + [r], |log|) && Mirrors(tx.wset, P.Overlay(prog, log))
    ensures DoStep(Solo(h, prog, tx, log), Advance(0)) == Solo(h, prog, tx.(wset := ws), log + [r])
    ensures Mirrors(ws, P.Overlay(prog, log + [r]))
  {
    assert (log + [r])[..|log|] == log;
    P.OverlayAppend(prog, log, r);
    match prog(log) {
      case Put(k, v, lease) => ws := PutTx(tx, k, v, lease).wset;
      case Del(k) => ws := DelTx(tx, k).wset;
      case Get(k) =>
        ws := tx.wset;
        FirstInFinds(tx.wset, [k]);
    }
  }

  // While the body only writes, or reads its own writes, nothing but the write set changes.
  lemma {:induction false} QuietRun(h: History, prog: P.Program, iso: Isolation, log: seq<P.Reply>)
    returns (ws: WriteSet)
    requires P.Quiet(prog, log)
    ensures Exec(Alone(h, prog, iso), Schedule(|log|)) == Solo(h, prog, NewTx(iso).(wset := ws), log)
    ensures Mirrors(ws, P.Overlay(prog, log))
    decreases |log|
  {
    if log == [] {
      ws := map[];
      Unfold(Alone(h, prog, iso), [], Begin(0));
      assert [Begin(0)] == [] + [Begin(0)];
    } else {
      var n := |log| - 1;
      var before := log[..n];
      assert log == before + [log[n]];
      QuietAppend(prog, before, log[n]);
      assert P.QuietAt(prog, log, n);
      var ws0 := QuietRun(h, prog, iso, before);
      Unfold(Alone(h, prog, iso), Schedule(n), Advance(0));
      ws := QuietStep(h, prog, NewTx(iso).(wset := ws0), before, log[n]);
    }
  }

  // A Rev of a written key reads the store now and leaves the revision option unset.
  lemma RevOfWritten(tx: Tx, h: History, key: Key)
    requires key in tx.wset && tx.rset == map[] && tx.getRev == None
    ensures RevTx(tx, h, key) == (tx.(rset := map[key := Serve(h, None, key)]), ModOf(Lookup(Current(h), key)))
  {
    FirstInFinds(tx.wset, [key]);
    FirstInFinds(tx.rset, [key]);
    assert Served(h, None, [key]) == map[key := Serve(h, None, key)];
    assert tx.rset + map[key := Serve(h, None, key)] == map[key := Serve(h, None, key)];
  }

  lemma QuietThenRev(h: History, prog: P.Program, iso: Isolation, log: seq<P.Reply>, k: Key) returns (ws: WriteSet)
    requires P.Quiet(prog, log) && prog(log) == P.Rev(k) && k in P.Overlay(prog, log)
    ensures Exec(Alone(h, prog, iso), Schedule(|log| + 1))
         == Solo(h, prog, Asked(h, iso, k, ws), log + [P.Number(ModOf(Lookup(Current(h), k)))])
    ensures Mirrors(ws, P.Overlay(prog, log + [P.Number(ModOf(Lookup(Current(h), k)))]))
  {
    ws := QuietRun(h, prog, iso, log);
    Unfold(Alone(h, prog, iso), Schedule(|log|), Advance(0));
    RevOfWritten(NewTx(iso).(wset := ws), h, k);
    P.OverlayAppend(prog, log, P.Number(ModOf(Lookup(Current(h), k))));
  }

  // The transaction has asked for the revision of one written key, and nothing else.
  function Asked(h: History, iso: Isolation, k: Key, ws: WriteSet): Tx {
    Tx(iso, map[k := Serve(h, None, k)], ws, None, map[])
  }

  // A further Rev of that key is answered from the read set.
  lemma SameRev(h: History, iso: Isolation, k: Key, ws: WriteSet)
    requires k in ws
    ensures RevTx(Asked(h, iso, k, ws), h, k) == (Asked(h, iso, k, ws), ModOf(Lookup(Current(h), k)))
  {
    FirstInFinds(ws, [k]);
    FirstInFinds(Asked(h, iso, k, ws).rset, [k]);
  }

  // After the Rev, a silent call changes nothing but the write set.
  lemma SilentStep(h: History, prog: P.Program, iso: Isolation, ws: WriteSet, log: seq<P.Reply>, r: P.Reply,
                   k: Key, n: nat)
    returns (ws': WriteSet)
    requires P.SilentAt(prog, log + [r], |log|, k, n) && n == ModOf(Lookup(Current(h), k))
    requires Mirrors(ws, P.Overlay(prog, log)) && k in ws
    ensures DoStep(Solo(h, prog, Asked(h, iso, k, ws), log), Advance(0))
         == Solo(h, prog, Asked(h, iso, k, ws'), log + [r])
    ensures Mirrors(ws', P.Overlay(prog, log + [r])) && k in ws'
  {
    assert (log + [r])[..|log|] == log;
    P.OverlayAppend(prog, log, r);
    if P.QuietAt(prog, log + [r], |log|) {
      ws' := QuietStep(h, prog, Asked(h, iso, k, ws), log, r);
    } else {
      ws' := ws;
      SameRev(h, iso, k, ws);
    }
  }

  lemma RevOnlyPrefix(prog: P.Program, log: seq<P.Reply>, m: nat, k: Key, n: nat)
    requires P.RevOnly(prog, log, m, k, n) && m + 1 < |log|
    ensures P.RevOnly(prog, log[..|log| - 1], m, k, n)
    ensures var i := |log| - 1; log == log[..i] + [log[i]] && P.SilentAt(prog, log[..i] + [log[i]], i, k, n)
  {
    var before := log[..|log| - 1];
    assert before[..m] == log[..m];
    assert log == before + [log[|log| - 1]];
    forall i | m < i < |before|
      ensures P.SilentAt(prog, before, i, k, n)
    {
      assert before[..i] == log[..i];
      assert P.SilentAt(prog, log, i, k, n);
    }
  }

  // Up to the read of another entry the call has asked for one revision only.
  lemma {:induction false} SilentRun(h: History, prog: P.Program, iso: Isolation, log: seq<P.Reply>,
                                     m: nat, k: Key, n: nat)
    returns (ws: WriteSet)
    requires P.RevOnly(prog, log, m, k, n) && n == ModOf(Lookup(Current(h), k))
    ensures Exec(Alone(h, prog, iso), Schedule(|log|)) == Solo(h, prog, Asked(h, iso, k, ws), log)
    ensures Mirrors(ws, P.Overlay(prog, log)) && k in ws
    decreases |log|
  {
    if |log| == m + 1 {
      ws := SilentStart(h, prog, iso, log, m, k, n);
    } else {
      var before, last := log[..|log| - 1], log[|log| - 1];
      RevOnlyPrefix(prog, log, m, k, n);
      ws := SilentRun(h, prog, iso, before, m, k, n);
      ws := SilentOnce(h, prog, iso, ws, before, last, k, n);
    }
  }

  lemma SilentStart(h: History, prog: P.Program, iso: Isolation, log: seq<P.Reply>, m: nat, k: Key, n: nat)
    returns (ws: WriteSet)
    requires P.RevOnly(prog, log, m, k, n) && n == ModOf(Lookup(Current(h), k)) && |log| == m + 1
    ensures Exec(Alone(h, prog, iso), Schedule(|log|)) == Solo(h, prog, Asked(h, iso, k, ws), log)
    ensures Mirrors(ws, P.Overlay(prog, log)) && k in ws
  {
    assert log == log[..m] + [log[m]];
    ws := QuietThenRev(h, prog, iso, log[..m], k);
    P.OverlayAppend(prog, log[..m], log[m]);
  }

  lemma SilentOnce(h: History, prog: P.Program, iso: Isolation, ws: WriteSet, log: seq<P.Reply>, r: P.Reply,
                   k: Key, n: nat)
    returns (ws': WriteSet)
    requires P.SilentAt(prog, log + [r], |log|, k, n) && n == ModOf(Lookup(Current(h), k))
    requires Exec(Alone(h, prog, iso), Schedule(|log|)) == Solo(h, prog, Asked(h, iso, k, ws), log)
    requires Mirrors(ws, P.Overlay(prog, log)) && k in ws
    ensures Exec(Alone(h, prog, iso), Schedule(|log + [r]|)) == Solo(h, prog, Asked(h, iso, k, ws'), log + [r])
    ensures Mirrors(ws', P.Overlay(prog, log + [r])) && k in ws'
  {
    Unfold(Alone(h, prog, iso), Schedule(|log|), Advance(0));
    ws' := SilentStep(h, prog, iso, ws, log, r, k, n);
  }

  // If a call of this body has read anything, its snapshot revision is fixed.
  ghost predicate FixedIn(w: World, i: nat, prog: P.Program, iso: Isolation) {
    i < |w.clients| && w.clients[i].prog == prog && w.clients[i].tx.iso == iso
    && w.clients[i].prefetchKeys == [] && w.clients[i].tx.rset != map[]
    ==> w.clients[i].tx.getRev.Some?
  }

  lemma FixedByFirstRead(w0: World, steps: seq<Step>, i: nat, prog: P.Program, iso: Isolation)
    requires Initial(w0) && FixesSnapshot(iso) && P.FirstReadIsGet(prog)
    ensures FixedIn(Exec(w0, steps), i, prog, iso)
  {
    RunKeepsInv(w0, steps);
    if i < |Exec(w0, steps).clients| {
      assert ClientInv(Exec(w0, steps).hist, Exec(w0, steps).clients[i]);
    }
  }

  /** Exactly which bodies always fix the snapshot revision by their first read, in every run and every attempt:
      those that never ask for the revision of a key they have written before they have read anything. */
  lemma {:induction false} SnapshotFixedExactly(prog: P.Program, iso: Isolation)
    requires FixesSnapshot(iso)
    ensures P.FirstReadIsGet(prog) <==>
              forall w0, steps, i: nat | Initial(w0) ::
                FixedIn(Exec(w0, steps), i, prog, iso)
  {
    if P.FirstReadIsGet(prog) {
      forall w0, steps, i: nat | Initial(w0)
        ensures FixedIn(Exec(w0, steps), i, prog, iso)
      {
        FixedByFirstRead(w0, steps, i, prog, iso);
      }
    } else {
      var log :| P.Quiet(prog, log) && prog(log).Rev? && prog(log).key in P.Overlay(prog, log);
      UnfixedRun(prog, iso, log);
    }
  }

  lemma UnfixedRun(prog: P.Program, iso: Isolation, log: seq<P.Reply>)
    requires P.Quiet(prog, log) && prog(log).Rev? && prog(log).key in P.Overlay(prog, log)
    ensures Initial(Alone(NEW_STORE, prog, iso))
    ensures !FixedIn(Exec(Alone(NEW_STORE, prog, iso), Schedule(|log| + 1)), 0, prog, iso)
  {
    var ws := QuietThenRev(NEW_STORE, prog, iso, log, prog(log).key);
    assert prog(log).key in Asked(NEW_STORE, iso, prog(log).key, ws).rset;
  }

  // A store at whose current revision the key was last modified at revision `n`, or is missing if that is 0.
  function StoreWith(k: Key, n: nat): History {
    if n == 0 then NEW_STORE else seq(n, _ => map[]) + [map[k := KV(k, "", n, n, 0)]]
  }

  lemma StoreWithValid(k: Key, n: nat)
    ensures Valid(StoreWith(k, n)) && ModOf(Lookup(Current(StoreWith(k, n)), k)) == n < |StoreWith(k, n)|
    ensures forall r, j | 0 <= r < |StoreWith(k, n)| && j in StoreWith(k, n)[r] :: j == k
  {
  }

  // A read of another entry goes to the store as it is then.
  lemma ReadAfterRev(tx: Tx, h: History, key: Key)
    requires FixesSnapshot(tx.iso) && tx.rset != map[] && key !in tx.rset
    requires tx.getRev == None && tx.prefetch == map[]
    ensures key !in tx.wset ==> GetTx(tx, h, [key]).1 == ValueOf(Lookup(Current(h), key))
    ensures RevTx(tx, h, key).1 == ModOf(Lookup(Current(h), key))
  {
    FirstInFinds(tx.wset, [key]);
    assert UsePrefetch(tx, [key]) == tx;
    FirstInFinds(tx.rset, [key]);
    FirstInFinds(GetTx(tx, h, [key]).0.rset, [key]);
  }

  // Two answers that no single snapshot gives: revision `n` of one key, and the entry of another that
  // appeared together with a later revision of the first.
  lemma NoSnapshotAnswersSo(prog: P.Program, s: Snapshot, log: seq<P.Reply>, m: nat, k: Key, n: nat, r: P.Reply)
    requires P.MixesAt(prog, log, m, k, n)
    requires var j := prog(log).key;
             || (j !in s && r !in {P.Text(""), P.Number(0)})
             || (k in s && s[k].modRev != n)
    ensures !P.SoloRun(prog, s, log + [r])
  {
    var all := log + [r];
    assert all[..m] == log[..m] && all[..|log|] == log;
    assert all[m] == P.Number(n) && all[|log|] == r;
  }

  // Another client stores both keys at once.
  function Both(k: Key, j: Key): Batch {
    map[k := Put("a", 0), j := Put("b", 0)]
  }

  lemma BothStored(h: History, k: Key, j: Key)
    requires j !in Current(h) && j != k
    ensures var h' := Commit(h, Both(k, j));
            && |h'| == |h| + 1 && h <= h' && k in Current(h') && j in Current(h')
            && Current(h')[j].value == "b" && Current(h')[j].modRev == |h| && Current(h')[k].modRev == |h|
  {
    assert k in Both(k, j) && j in Both(k, j);
  }

  lemma AskedIsTidy(h: History, iso: Isolation, k: Key, ws: WriteSet)
    requires FixesSnapshot(iso)
    ensures Tidy(Asked(h, iso, k, ws)) && Asked(h, iso, k, ws).rset.Keys == {k}
  {
  }

  lemma OverlayStays(prog: P.Program, log: seq<P.Reply>, m: nat, k: Key, n: nat)
    requires P.MixesAt(prog, log, m, k, n)
    ensures k in P.Overlay(prog, log) && prog(log).key != k
  {
    OverlayGrows(prog, log, m, |log|);
    assert log[..|log|] == log;
  }

  function MixingSteps(n: nat, k: Key, j: Key): seq<Step> {
    Schedule(n) + [Outside(Both(k, j))] + [Advance(0)]
  }

  lemma MixingRun(h: History, prog: P.Program, iso: Isolation, log: seq<P.Reply>, m: nat, k: Key, n: nat)
    returns (r: P.Reply)
    requires FixesSnapshot(iso) && P.MixesAt(prog, log, m, k, n) && n == ModOf(Lookup(Current(h), k))
    requires prog(log).key !in Current(h)
    ensures var j := prog(log).key;
            var w := Exec(Alone(h, prog, iso), MixingSteps(|log|, k, j));
            w.hist == Commit(h, Both(k, j)) && IsAlone(w, prog, iso, log + [r])
    ensures r == P.Text("b") || r == P.Number(|h|)
  {
    var j := prog(log).key;
    OverlayStays(prog, log, m, k, n);
    var steps := Schedule(|log|) + [Outside(Both(k, j))];
    var ws := SilentThenWrites(h, prog, iso, log, m, k, n);
    BothStored(h, k, j);
    AskedIsTidy(h, iso, k, ws);
    r := ReadStep(Alone(h, prog, iso), steps, prog, Asked(h, iso, k, ws), log, j);
  }

  lemma SilentThenWrites(h: History, prog: P.Program, iso: Isolation, log: seq<P.Reply>, m: nat, k: Key, n: nat)
    returns (ws: WriteSet)
    requires P.MixesAt(prog, log, m, k, n) && n == ModOf(Lookup(Current(h), k))
    ensures var b := Both(k, prog(log).key);
            var w := Exec(Alone(h, prog, iso), Schedule(|log|) + [Outside(b)]);
            && w.hist == Commit(h, b) && IsAlone(w, prog, iso, log)
            && w.clients[0].status.Running? && w.clients[0].tx == Asked(h, iso, k, ws)
    ensures prog(log).Get? ==> prog(log).key !in ws
  {
    ws := SilentRun(h, prog, iso, log, m, k, n);
    Unfold(Alone(h, prog, iso), Schedule(|log|), Outside(Both(k, prog(log).key)));
  }

  // One client, with this body and these answers, in its first attempt.
  ghost predicate IsAlone(w: World, prog: P.Program, iso: Isolation, log: seq<P.Reply>) {
    |w.clients| == 1 && IsCall(w.clients[0], prog, iso) && w.clients[0].log == log
  }

  ghost predicate IsCall(c: Client, prog: P.Program, iso: Isolation) {
    c.prog == prog && c.tx.iso == iso && c.prefetchKeys == []
  }

  // The next read after the silent part.
  lemma ReadStep(w0: World, steps: seq<Step>, prog: P.Program, tx: Tx, log: seq<P.Reply>, j: Key) returns (r: P.Reply)
    requires IsAlone(Exec(w0, steps), prog, tx.iso, log) && Exec(w0, steps).clients[0].status.Running?
    requires Exec(w0, steps).clients[0].tx == tx
    requires (prog(log) == P.Get(j) && j !in tx.wset) || prog(log) == P.Rev(j)
    requires FixesSnapshot(tx.iso) && tx.rset != map[] && j !in tx.rset && Tidy(tx)
    requires tx.getRev == None && tx.prefetch == map[]
    ensures Exec(w0, steps + [Advance(0)]).hist == Exec(w0, steps).hist
    ensures IsAlone(Exec(w0, steps + [Advance(0)]), prog, tx.iso, log + [r])
    ensures var e := Lookup(Current(Exec(w0, steps).hist), j); r == P.Text(ValueOf(e)) || r == P.Number(ModOf(e))
  {
    var h := Exec(w0, steps).hist;
    Unfold(w0, steps, Advance(0));
    ReadAfterRev(tx, h, j);
    GetKeepsReads(tx, h, [j]);
    RevKeepsReads(tx, h, j);
    r := if prog(log).Get? then P.Text(ValueOf(Lookup(Current(h), j))) else P.Number(ModOf(Lookup(Current(h), j)));
  }

  // All answers of the call's attempt come from one revision, no older than the attempt.
  ghost predicate OneRevision(w: World, i: nat, prog: P.Program, iso: Isolation) {
    i < |w.clients| && IsCall(w.clients[i], prog, iso) ==>
      exists rev | w.clients[i].base <= rev < |w.hist| :: P.SoloRun(prog, w.hist[rev], w.clients[i].log)
  }

  /** Whenever a body gets from a Rev that comes first to a read of another entry, there is a run, at either level, in
      which its answers are those of no single revision of the store; the attempt then cannot commit. */
  lemma {:induction false} RevBeforeGetMixesRevisions(prog: P.Program, iso: Isolation, log: seq<P.Reply>,
                                                      m: nat, k: Key, n: nat)
    returns (h: History, steps: seq<Step>)
    requires FixesSnapshot(iso) && P.MixesAt(prog, log, m, k, n)
    ensures Initial(Alone(h, prog, iso))
    ensures !OneRevision(Exec(Alone(h, prog, iso), steps), 0, prog, iso)
  {
    h := StoreWith(k, n);
    StoreWithValid(k, n);
    var j := prog(log).key;
    OverlayStays(prog, log, m, k, n);
    BothStored(h, k, j);
    steps := MixingSteps(|log|, k, j);
    var r := MixingRun(h, prog, iso, log, m, k, n);
    var h' := Commit(h, Both(k, j));
    forall rev | 0 <= rev < |h'|
      ensures !P.SoloRun(prog, h'[rev], log + [r])
    {
      NoSnapshotAnswersSo(prog, h'[rev], log, m, k, n, r);
    }
  }

  /** Exactly which bodies keep to one revision in every attempt of every run, at the stmSerializable levels and
      without WithPrefetch: those that cannot get from a Rev that comes first to a read of another entry. */
  lemma {:induction false} SnapshotExactly(prog: P.Program, iso: Isolation)
    requires FixesSnapshot(iso)
    ensures !P.Mixes(prog) <==>
              forall w0, steps, i: nat | Initial(w0) :: OneRevision(Exec(w0, steps), i, prog, iso)
  {
    if P.Mixes(prog) {
      var log, m: nat, k, n: nat :| P.MixesAt(prog, log, m, k, n);
      var h, steps := RevBeforeGetMixesRevisions(prog, iso, log, m, k, n);
      assert !OneRevision(Exec(Alone(h, prog, iso), steps), 0, prog, iso);
    } else {
      forall w0, steps, i: nat | Initial(w0)
        ensures OneRevision(Exec(w0, steps), i, prog, iso)
      {
        if i < |Exec(w0, steps).clients| && IsCall(Exec(w0, steps).clients[i], prog, iso) {
          SnapshotReads(w0, steps, i);
        }
      }
    }
  }

  // Writes "x", asks for its revision, then reads "y".
  function RevFirst(log: seq<P.Reply>): P.Instr {
    if |log| == 0 then P.Put("x", "1", 0)
    else if |log| == 1 then P.Rev("x")
    else if |log| == 2 then P.Get("y")
    else P.Finish
  }

  /** There are such bodies. */
  lemma RevFirstMixes()
    ensures P.Mixes(RevFirst)
  {
    var log := [P.Done, P.Number(0)];
    assert log[..1] == [] + [P.Done] && log == [P.Done] + [P.Number(0)];
    P.OverlayAppend(RevFirst, [], P.Done);
    P.OverlayAppend(RevFirst, [P.Done], P.Number(0));
    assert P.QuietAt(RevFirst, [P.Done], 0);
    assert P.MixesAt(RevFirst, log, 1, "x", 0);
  }

  // ---------- A Get of several keys ----------

  function FirstKeyIn(ks: set<Key>, keys: seq<Key>): Option<Key> {
    if keys == [] then None else if keys[0] in ks then Some(keys[0]) else FirstKeyIn(ks, keys[1..])
  }

  // The keys whose responses the transaction already has; a plain stm has no prefetch.
  function Cached(tx: Tx): set<Key> {
    tx.rset.Keys + if FixesSnapshot(tx.iso) then tx.prefetch.Keys else {}
  }

  // The first key of the list that is written; else the first one that is cached; else the first of all.
  function AnsweredKey(tx: Tx, keys: seq<Key>): Key
    requires keys != []
  {
    var w, c := FirstKeyIn(tx.wset.Keys, keys), FirstKeyIn(Cached(tx), keys);
    if w.Some? then w.value else if c.Some? then c.value else keys[0]
  }

  lemma FirstKeyFinds<V>(m: map<Key, V>, keys: seq<Key>)
    ensures var k := FirstKeyIn(m.Keys, keys);
            && (k.None? <==> forall j | j in keys :: j !in m)
            && (k.Some? ==> k.value in keys && k.value in m && FirstIn(m, keys) == Some(m[k.value]))
            && (k.None? ==> FirstIn(m, keys) == None)
            && (keys != [] && keys[0] in m ==> k == Some(keys[0]))
  {
  }

  lemma FirstCachedUsed(tx: Tx, keys: seq<Key>, all: seq<Key>)
    requires forall k | k in keys :: k in all
    ensures FirstKeyIn((tx.rset + (map k | k in all && k in tx.prefetch :: tx.prefetch[k])).Keys, keys)
         == FirstKeyIn(tx.rset.Keys + tx.prefetch.Keys, keys)
  {
  }

  // The read set a Get looks in.
  function Looked(tx: Tx, keys: seq<Key>): ReadSet {
    if FixesSnapshot(tx.iso) then UsePrefetch(tx, keys).rset else tx.rset
  }

  /** A Get of several keys answers with one of them, as a Get of that key alone would. It is the first key,
      as documented, exactly if that key is written, or if no key of the list is written and either the first
      key is cached or none is: one cached or prefetched key is enough to change the answer. */
  lemma MultiKeyGetExactly(tx: Tx, h: History, keys: seq<Key>)
    requires keys != []
    ensures var k := AnsweredKey(tx, keys);
            && k in keys
            && GetTx(tx, h, keys).1 == GetTx(tx, h, [k]).1
            && (k == keys[0] <==>
                  || keys[0] in tx.wset
                  || ((forall j | j in keys :: j !in tx.wset)
                      && (keys[0] in Cached(tx) || forall j | j in keys :: j !in Cached(tx))))
  {
    var k := AnsweredKey(tx, keys);
    FirstKeyFinds(tx.wset, keys);
    FirstKeyFinds(tx.wset, [k]);
    FirstKeyFinds(Looked(tx, keys), keys);
    FirstKeyFinds(Looked(tx, [k]), [k]);
    FirstCachedUsed(tx, keys, keys);
    FirstCachedUsed(tx, [k], [k]);
    assert Looked(tx, keys).Keys
        == tx.rset.Keys + if FixesSnapshot(tx.iso) then (set j | j in keys && j in tx.prefetch) else {};
  }
}
