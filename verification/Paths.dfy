/** Paths of a client through its own steps, each of them taken at some moment of a store that others keep
    changing in between. */
module Paths {
  import opened Store
  import opened Waiting

  // A step, and the store it is taken on.
  datatype Stamp<S> = Stamp(h: History, step: S)

  // What a step makes of the client and the store.
  type Mover<!M, !S> = (M, History, S) -> (M, History)

  ghost function Play<M, S>(move: Mover<M, S>, m: M, trace: seq<Stamp<S>>): M
    decreases |trace|
  {
    if trace == [] then m
    else
      var last := trace[|trace| - 1];
      move(Play(move, m, trace[..|trace| - 1]), last.h, last.step).0
  }

  // The store only grows: from `h0` to the first step, from what a step leaves to the next, and then to `h`.
  ghost predicate Linked<M, S>(move: Mover<M, S>, m: M, h0: History, trace: seq<Stamp<S>>, h: History)
    decreases |trace|
  {
    if trace == [] then h0 <= h
    else
      var before, last := trace[..|trace| - 1], trace[|trace| - 1];
      Linked(move, m, h0, before, last.h) && move(Play(move, m, before), last.h, last.step).1 <= h
  }

  // The steps, all of them the client's own, lead from `m0` and `h0` to `m` and `h`.
  ghost predicate Path<M, S(!new)>(move: Mover<M, S>, own: S -> bool,
                                   m0: M, h0: History, trace: seq<Stamp<S>>, m: M, h: History)
  {
    && m == Play(move, m0, trace) && Linked(move, m0, h0, trace, h)
    && forall k | 0 <= k < |trace| :: own(trace[k].step)
  }

  lemma PathLater<M, S(!new)>(move: Mover<M, S>, own: S -> bool, m0: M, h0: History, trace: seq<Stamp<S>>,
                              m: M, h: History, h': History)
    requires Path(move, own, m0, h0, trace, m, h) && h <= h'
    ensures Path(move, own, m0, h0, trace, m, h')
  {
  }

  lemma PathStep<M, S(!new)>(move: Mover<M, S>, own: S -> bool, m0: M, h0: History, trace: seq<Stamp<S>>,
                             m: M, h: History, step: S, pre: History, h': History)
    requires Path(move, own, m0, h0, trace, m, h) && own(step) && h <= pre
    requires move(m, pre, step).1 <= h'
    ensures Path(move, own, m0, h0, trace + [Stamp(pre, step)], move(m, pre, step).0, h')
  {
    PathLater(move, own, m0, h0, trace, m, h, pre);
    assert (trace + [Stamp(pre, step)])[..|trace|] == trace;
  }

  lemma OneStep<M, S(!new)>(move: Mover<M, S>, own: S -> bool, m: M, h0: History, step: S, pre: History, h: History)
    returns (trace: seq<Stamp<S>>)
    requires own(step) && h0 <= pre && move(m, pre, step).1 <= h
    ensures Path(move, own, m, h0, trace, move(m, pre, step).0, h)
  {
    PathStep(move, own, m, h0, [], m, h0, step, pre, h);
    trace := [] + [Stamp(pre, step)];
  }

  lemma {:induction false} PathConcat<M, S(!new)>(
      move: Mover<M, S>, own: S -> bool, m0: M, h0: History, trace1: seq<Stamp<S>>, m1: M, h1: History,
      trace2: seq<Stamp<S>>, m2: M, h2: History)
    requires Path(move, own, m0, h0, trace1, m1, h1) && Path(move, own, m1, h1, trace2, m2, h2)
    ensures Path(move, own, m0, h0, trace1 + trace2, m2, h2)
    decreases |trace2|
  {
    if trace2 == [] {
      assert trace1 + trace2 == trace1;
      PathLater(move, own, m0, h0, trace1, m1, h1, h2);
    } else {
      var before, last := trace2[..|trace2| - 1], trace2[|trace2| - 1];
      var m := Play(move, m1, before);
      PathConcat(move, own, m0, h0, trace1, m1, h1, before, m, last.h);
      PathStep(move, own, m0, h0, trace1 + before, m, last.h, last.step, last.h, h2);
      assert trace1 + trace2 == trace1 + before + [last];
    }
  }

  ghost predicate SightIsStep<M, S(!new)>(move: Mover<M, S>, own: S -> bool, at: Stage -> M, step: Sight -> S,
                                          stage: Stage, sight: Sight)
  {
    own(step(sight)) && move(at(stage), sight.h, step(sight)) == (at(StageOf(sight)), sight.h)
  }

  /** The course of a wait is a path, if each sight is a step: `at` says where the client is at a stage. */
  lemma {:induction false} CourseIsPath<M, S(!new)>(
      move: Mover<M, S>, own: S -> bool, at: Stage -> M, step: Sight -> S,
      pfx: Key, max: int, h0: History, h: History, sights: seq<Sight>)
    returns (trace: seq<Stamp<S>>)
    requires Course(pfx, max, h0, h, sights)
    requires forall stage, sight | Sees(pfx, max, stage, sight) :: SightIsStep(move, own, at, step, stage, sight)
    ensures Path(move, own, at(Asking), h0, trace, at(StageAfter(sights)), h)
    decreases |sights|
  {
    if sights == [] {
      trace := [];
    } else {
      var before, last := sights[..|sights| - 1], sights[|sights| - 1];
      trace := CourseIsPath(move, own, at, step, pfx, max, h0, last.h, before);
      assert SightIsStep(move, own, at, step, StageAfter(before), last);
      PathStep(move, own, at(Asking), h0, trace, at(StageAfter(before)), last.h, step(last), last.h, h);
      trace := trace + [Stamp(last.h, step(last))];
    }
  }
}
