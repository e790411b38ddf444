/** Transaction bodies. The function a caller hands to NewSTM is deterministic: what it does next is a
    function of the answers it has had so far. This module also says what such a body means when it
    runs alone, which is the yardstick for serializability. */
module Programs {
  import opened Store

  datatype Instr =
    | Get(key: Key)
    | Rev(key: Key)
    | Put(key: Key, val: string, lease: nat)
    | Del(key: Key)
    | Finish
    | Fail(error: string)

  datatype Reply = Text(s: string) | Number(n: nat) | Done

  type Program = seq<Reply> -> Instr

  predicate Ends(i: Instr) {
    i.Finish? || i.Fail?
  }

  // The buffered writes after the answers in `log`: the last write of each key.
  ghost function Overlay(p: Program, log: seq<Reply>): Batch {
    if log == [] then map[]
    else
      var before := log[..|log| - 1];
      Step(p(before), Overlay(p, before))
  }

  lemma OverlayAppend(p: Program, log: seq<Reply>, r: Reply)
    ensures Overlay(p, log + [r]) == Step(p(log), Overlay(p, log))
  {
  }

  function Step(i: Instr, b: Batch): Batch {
    match i
    case Put(k, v, lease) => b[k := Store.Put(v, lease)]
    case Del(k) => b[k := Delete]
    case _ => b
  }

  function OwnValue(w: Write): string {
    match w
    case Put(v, _) => v
    case Delete => ""
  }

  // The answer the next instruction gets when nobody else touches the snapshot.
  ghost function SoloReply(p: Program, s: Snapshot, log: seq<Reply>): Reply {
    match p(log)
    case Get(k) =>
      if k in Overlay(p, log) then Text(OwnValue(Overlay(p, log)[k])) else Text(ValueOf(Lookup(s, k)))
    case Rev(k) => Number(ModOf(Lookup(s, k)))
    case _ => Done
  }

  // The body, run alone on the snapshot, gets exactly the answers in `log`.
  ghost predicate SoloRun(p: Program, s: Snapshot, log: seq<Reply>) {
    forall i | 0 <= i < |log| :: !Ends(p(log[..i])) && log[i] == SoloReply(p, s, log[..i])
  }

  // ---------- The same, told by the instructions alone ----------

  predicate Changes(i: Instr, k: Key) {
    (i.Put? || i.Del?) && i.key == k
  }

  // None of the first `n` instructions wrote the key.
  ghost predicate Unwritten(p: Program, log: seq<Reply>, n: nat, k: Key)
    requires n <= |log|
  {
    forall i | 0 <= i < n :: !Changes(p(log[..i]), k)
  }

  // Of the first `n` instructions, number `j` was the last one to write the key.
  ghost predicate LastWrite(p: Program, log: seq<Reply>, n: nat, k: Key, j: nat)
    requires n <= |log|
  {
    && j < n && Changes(p(log[..j]), k)
    && forall i | j < i < n :: !Changes(p(log[..i]), k)
  }

  // The answer to instruction `i` of a body that has the snapshot to itself; `j` is the last write before it of the
  // key it asks for, if there is one.
  ghost predicate AnsweredAlone(p: Program, s: Snapshot, log: seq<Reply>, i: nat, j: nat)
    requires i < |log|
  {
    match p(log[..i])
    case Get(k) =>
      && (Unwritten(p, log, i, k) ==> log[i] == Text(if k in s then s[k].value else ""))
      && (LastWrite(p, log, i, k, j) ==> log[i] == Text(if p(log[..j]).Put? then p(log[..j]).val else ""))
    case Rev(k) => log[i] == Number(if k in s then s[k].modRev else 0)
    case Put(_, _, _) => log[i] == Done
    case Del(_) => log[i] == Done
    case _ => false
  }

  /** What is buffered for a key is its last write, and nothing if it has none. */
  lemma {:induction false} OverlayIsLastWrites(p: Program, log: seq<Reply>, n: nat, k: Key, j: nat)
    requires n <= |log|
    ensures k !in Overlay(p, log[..n]) <==> Unwritten(p, log, n, k)
    ensures LastWrite(p, log, n, k, j) ==>
              k in Overlay(p, log[..n])
              && match p(log[..j]) {
                   case Put(_, v, lease) => Overlay(p, log[..n])[k] == Store.Put(v, lease)
                   case _ => Overlay(p, log[..n])[k] == Delete
                 }
    decreases n
  {
    if n > 0 {
      assert log[..n] == log[..n - 1] + [log[n - 1]];
      OverlayAppend(p, log[..n - 1], log[n - 1]);
      OverlayIsLastWrites(p, log, n - 1, k, j);
    }
  }

  /** A solo run's answers: a Get answers the last own write of the key ("" after a Del), else the value in the
      snapshot ("" if the key is missing); a Rev the modification revision in the snapshot (0 if it is missing). */
  lemma SoloRunMeans(p: Program, s: Snapshot, log: seq<Reply>, i: nat, j: nat)
    requires SoloRun(p, s, log) && i < |log|
    ensures AnsweredAlone(p, s, log, i, j)
  {
    assert log[i] == SoloReply(p, s, log[..i]);
    match p(log[..i])
    case Get(k) => OverlayIsLastWrites(p, log, i, k, j);
    case _ =>
  }

  /** Running alone is deterministic: a snapshot allows one completed run. */
  lemma SoloRunUnique(p: Program, s: Snapshot, log1: seq<Reply>, log2: seq<Reply>)
    requires SoloRun(p, s, log1) && SoloRun(p, s, log2)
    requires Ends(p(log1)) && Ends(p(log2))
    ensures log1 == log2
  {
    if |log1| <= |log2| {
      SoloRunPrefix(p, s, log1, log2);
    } else {
      SoloRunPrefix(p, s, log2, log1);
    }
  }

  lemma SoloRunPrefix(p: Program, s: Snapshot, log1: seq<Reply>, log2: seq<Reply>)
    requires SoloRun(p, s, log1) && SoloRun(p, s, log2)
    requires Ends(p(log1)) && |log1| <= |log2|
    ensures log1 == log2
  {
    SoloRunsAgree(p, s, log1, log2, |log1|);
    assert log1 == log1[..|log1|] == log2[..|log1|];
  }

  lemma {:induction false} SoloRunsAgree(p: Program, s: Snapshot, log1: seq<Reply>, log2: seq<Reply>, n: nat)
    requires SoloRun(p, s, log1) && SoloRun(p, s, log2)
    requires n <= |log1| && n <= |log2|
    ensures log1[..n] == log2[..n]
  {
    if n > 0 {
      SoloRunsAgree(p, s, log1, log2, n - 1);
      assert log1[..n] == log1[..n - 1] + [log1[n - 1]];
      assert log2[..n] == log2[..n - 1] + [log2[n - 1]];
    }
  }

  // ---------- Up to the first read ----------

  // Every instruction so far was answered from the transaction's own writes.
  ghost predicate Quiet(p: Program, log: seq<Reply>) {
    forall i | 0 <= i < |log| :: QuietAt(p, log, i)
  }

  ghost predicate QuietAt(p: Program, log: seq<Reply>, i: nat)
    requires i < |log|
  {
    var before := log[..i];
    match p(before)
    case Put(_, _, _) => log[i] == Done
    case Del(_) => log[i] == Done
    case Get(k) => k in Overlay(p, before) && log[i] == Text(OwnValue(Overlay(p, before)[k]))
    case _ => false
  }

  // The next instruction reads a key the transaction has not written.
  ghost predicate ReadsNext(p: Program, log: seq<Reply>) {
    (p(log).Get? || p(log).Rev?) && p(log).key !in Overlay(p, log)
  }

  /** A deterministic body's first read is always of the same key, after the same answers. */
  lemma QuietPathsAgree(p: Program, log1: seq<Reply>, log2: seq<Reply>)
    requires Quiet(p, log1) && Quiet(p, log2)
    requires ReadsNext(p, log1) && ReadsNext(p, log2)
    ensures log1 == log2
  {
    if |log1| <= |log2| {
      QuietPathPrefix(p, log1, log2);
    } else {
      QuietPathPrefix(p, log2, log1);
    }
  }

  lemma QuietPathPrefix(p: Program, log1: seq<Reply>, log2: seq<Reply>)
    requires Quiet(p, log1) && Quiet(p, log2)
    requires ReadsNext(p, log1) && |log1| <= |log2|
    ensures log1 == log2
  {
    QuietPrefixesAgree(p, log1, log2, |log1|);
    assert log1 == log1[..|log1|] == log2[..|log1|];
    assert |log1| < |log2| ==> QuietAt(p, log2, |log1|);
  }

  lemma {:induction false} QuietPrefixesAgree(p: Program, log1: seq<Reply>, log2: seq<Reply>, n: nat)
    requires Quiet(p, log1) && Quiet(p, log2)
    requires n <= |log1| && n <= |log2|
    ensures log1[..n] == log2[..n]
  {
    if n > 0 {
      QuietPrefixesAgree(p, log1, log2, n - 1);
      assert QuietAt(p, log1, n - 1) && QuietAt(p, log2, n - 1);
      assert log1[..n] == log1[..n - 1] + [log1[n - 1]];
      assert log2[..n] == log2[..n - 1] + [log2[n - 1]];
    }
  }

  // The body never asks for the revision of a key it has written before its first read.
  ghost predicate FirstReadIsGet(p: Program) {
    forall log | Quiet(p, log) :: p(log).Rev? ==> p(log).key !in Overlay(p, log)
  }

  // ---------- After a Rev that comes first ----------

  ghost predicate SilentAt(p: Program, log: seq<Reply>, i: nat, k: Key, n: nat)
    requires i < |log|
  {
    QuietAt(p, log, i) || (p(log[..i]) == Rev(k) && log[i] == Number(n))
  }

  // The first read, at `m`, was a Rev of the written key `k`, answered `n`; since then there were only writes, reads
  // of own writes, and more Revs of that key with that answer.
  ghost predicate RevOnly(p: Program, log: seq<Reply>, m: nat, k: Key, n: nat) {
    && m < |log| && Quiet(p, log[..m])
    && p(log[..m]) == Rev(k) && k in Overlay(p, log[..m]) && log[m] == Number(n)
    && forall i | m < i < |log| :: SilentAt(p, log, i, k, n)
  }

  // The next instruction depends on another entry of the store.
  ghost predicate ReadsOther(p: Program, log: seq<Reply>, k: Key) {
    (p(log).Get? && p(log).key !in Overlay(p, log)) || (p(log).Rev? && p(log).key != k)
  }

  ghost predicate MixesAt(p: Program, log: seq<Reply>, m: nat, k: Key, n: nat) {
    RevOnly(p, log, m, k, n) && ReadsOther(p, log, k)
  }

  // The body can get from a Rev that comes first to a read of another entry.
  ghost predicate Mixes(p: Program) {
    exists log, m: nat, k, n: nat :: MixesAt(p, log, m, k, n)
  }

  lemma {:induction false} FirstUnquiet(p: Program, log: seq<Reply>, n: nat) returns (m: nat)
    requires n <= |log| && !Quiet(p, log[..n])
    ensures m < n && Quiet(p, log[..m]) && !QuietAt(p, log, m)
    decreases n
  {
    if Quiet(p, log[..n - 1]) {
      m := n - 1;
      QuietPrefix(p, log, n);
      QuietPrefix(p, log, m);
    } else {
      m := FirstUnquiet(p, log, n - 1);
    }
  }

  lemma QuietPrefix(p: Program, log: seq<Reply>, n: nat)
    requires n <= |log|
    ensures Quiet(p, log[..n]) <==> forall i | 0 <= i < n :: QuietAt(p, log, i)
  {
    forall i | 0 <= i < n
      ensures QuietAt(p, log[..n], i) == QuietAt(p, log, i)
    {
      assert log[..n][..i] == log[..i];
    }
    assert Quiet(p, log[..n]) ==> forall i | 0 <= i < n :: QuietAt(p, log[..n], i);
  }

  /** If some quiet path ends in a read of an unwritten key, none ends in a Rev of a written one. */
  lemma FirstReadDecides(p: Program, log: seq<Reply>)
    requires Quiet(p, log) && ReadsNext(p, log)
    ensures FirstReadIsGet(p)
  {
    forall l | Quiet(p, l)
      ensures p(l).Rev? ==> p(l).key !in Overlay(p, l)
    {
      if |l| < |log| {
        QuietPrefixesAgree(p, l, log, |l|);
        assert l == l[..|l|] == log[..|l|];
        assert QuietAt(p, log, |l|);
      } else {
        QuietPathPrefix(p, log, l);
        assert l == log;
      }
    }
  }
}
