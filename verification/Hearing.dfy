/** What an observer of an election has been told, and the list of posts that this makes: every answer and every
    delivery counts, in order, and none is left out. */
module Hearing {
  import opened Store
  import opened Cluster

  datatype Post = Post(rev: nat, kv: KV)

  // About to ask who leads; waiting for a first put under the prefix; or watching the leader's key. `from` is the
  // first revision of which nothing has been delivered.
  datatype Ear = Inquiring | Expecting(from: nat) | On(key: Key, from: nat)

  datatype Heard = Heard(ear: Ear, posts: seq<Post>)

  // It is what the observer has asked for.
  predicate Expects(pfx: Key, ear: Ear, t: Told) {
    match ear
    case Inquiring => t.Answer? && t.pfx == pfx
    case Expecting(from) => t.Delivery? && t.scope == Prefix(pfx) && t.from == from
    case On(key, from) => t.Delivery? && t.scope == One(key) && t.from == from
  }

  function FirstPut(evs: seq<Event>, i: nat): (r: nat)
    requires i <= |evs|
    ensures i <= r <= |evs| && (r < |evs| ==> evs[r].PutEvent?)
    decreases |evs| - i
  {
    if i == |evs| || evs[i].PutEvent? then i else FirstPut(evs, i + 1)
  }

  // The puts of a delivery from the i-th event on, up to the first deletion.
  function PutsFrom(header: nat, evs: seq<Event>, i: nat): seq<Post>
    requires i <= |evs|
    decreases |evs| - i
  {
    if i == |evs| || evs[i].DeleteEvent? then [] else [Post(header, evs[i].kv)] + PutsFrom(header, evs, i + 1)
  }

  predicate Gone(evs: seq<Event>) {
    exists i | 0 <= i < |evs| :: evs[i].DeleteEvent?
  }

  // The leader answered is posted; of a delivery under the prefix the first put; of a delivery on the leader's key
  // every put up to the deletion.
  ghost function Hear(s: Heard, t: Told): Heard {
    match t
    case Answer(_, resp) =>
      if resp.kv.None? then Heard(Expecting(resp.rev), s.posts)
      else Heard(On(resp.kv.value.key, resp.rev + 1), s.posts + [Post(resp.rev, resp.kv.value)])
    case Delivery(_, _, to, header, evs) =>
      if s.ear.On? then
        Heard(if Gone(evs) then Inquiring else On(s.ear.key, to), s.posts + PutsFrom(header, evs, 0))
      else if FirstPut(evs, 0) == |evs| then Heard(Expecting(to), s.posts)
      else
        var kv := evs[FirstPut(evs, 0)].kv;
        Heard(On(kv.key, kv.modRev + 1), s.posts + [Post(kv.modRev, kv)])
  }

  // Since `start`.
  ghost function HearFrom(told: Log, start: Log): Heard {
    if told == start || told.Empty? then Heard(Inquiring, []) else Hear(HearFrom(told.before, start), told.last)
  }

  // Everything the observer has been told is what it had asked for: no watch starts late or leaves a gap.
  ghost predicate Proper(pfx: Key, told: Log, start: Log) {
    || told == start
    || (told.Then? && Proper(pfx, told.before, start) && Expects(pfx, HearFrom(told.before, start).ear, told.last))
  }

  ghost predicate Listens(pfx: Key, told: Log, start: Log, ear: Ear, posts: seq<Post>) {
    Proper(pfx, told, start) && HearFrom(told, start) == Heard(ear, posts)
  }

  lemma ListensOn(pfx: Key, told: Log, start: Log, ear: Ear, posts: seq<Post>, t: Told)
    requires Listens(pfx, told, start, ear, posts) && Expects(pfx, ear, t)
    ensures var s := Hear(Heard(ear, posts), t); Listens(pfx, Then(told, t), start, s.ear, s.posts)
    ensures Then(told, t) != start
  {
    ProperLength(pfx, told, start);
  }

  lemma {:induction false} ProperLength(pfx: Key, told: Log, start: Log)
    requires Proper(pfx, told, start)
    ensures Length(told) >= Length(start)
  {
    if told != start {
      ProperLength(pfx, told.before, start);
    }
  }

  // ---------- Why it ends ----------

  // The watch is over; or the context was done when `pending` was about to be posted; or the request for the next
  // leader failed.
  datatype Ending = WatchOver | Cancelled(pending: Post) | GetFailed

  // The pending post is the first that what was told last has added and that is not among the posts.
  ghost predicate NextUp(told: Log, start: Log, posts: seq<Post>, p: Post) {
    && told != start && told.Then?
    && HearFrom(told.before, start).posts <= posts
    && posts + [p] <= HearFrom(told, start).posts
  }

  // The posts are what has been heard, all of it and nothing else, up to the pending post if there is one.
  ghost predicate NothingMissed(pfx: Key, told: Log, start: Log, posts: seq<Post>, ending: Ending) {
    && Proper(pfx, told, start)
    && match ending
       case WatchOver => HearFrom(told, start).posts == posts && !HearFrom(told, start).ear.Inquiring?
       case Cancelled(p) => NextUp(told, start, posts, p)
       case GetFailed => HearFrom(told, start) == Heard(Inquiring, posts)
  }

  // A leader has been heard of, and is the next to post.
  ghost predicate Spotted(pfx: Key, told: Log, start: Log, posts: seq<Post>, p: Post) {
    Listens(pfx, told, start, On(p.kv.key, p.rev + 1), posts + [p]) && NextUp(told, start, posts, p)
  }

  lemma SpottedIsPending(pfx: Key, told: Log, start: Log, posts: seq<Post>, p: Post)
    requires Spotted(pfx, told, start, posts, p)
    ensures Listens(pfx, told, start, On(p.kv.key, p.rev + 1), posts + [p])
    ensures NothingMissed(pfx, told, start, posts, Cancelled(p))
  {
  }

  lemma AnswerHeard(pfx: Key, told: Log, start: Log, posts: seq<Post>, resp: GetResp)
    requires Listens(pfx, told, start, Inquiring, posts)
    ensures var told' := Then(told, Answer(pfx, resp));
            if resp.kv.Some? then Spotted(pfx, told', start, posts, Post(resp.rev, resp.kv.value))
            else Listens(pfx, told', start, Expecting(resp.rev), posts)
  {
    ListensOn(pfx, told, start, Inquiring, posts, Answer(pfx, resp));
  }

  lemma PrefixHeard(pfx: Key, told: Log, start: Log, posts: seq<Post>, from: nat, to: nat, header: nat,
                    evs: seq<Event>)
    requires Listens(pfx, told, start, Expecting(from), posts)
    ensures var told', i := Then(told, Delivery(Prefix(pfx), from, to, header, evs)), FirstPut(evs, 0);
            if i < |evs| then Spotted(pfx, told', start, posts, Post(evs[i].kv.modRev, evs[i].kv))
            else Listens(pfx, told', start, Expecting(to), posts)
  {
    ListensOn(pfx, told, start, Expecting(from), posts, Delivery(Prefix(pfx), from, to, header, evs));
  }

  // Listening in vain: the watch ends with everything posted.
  lemma WatchEndsComplete(pfx: Key, told: Log, start: Log, ear: Ear, posts: seq<Post>)
    requires Listens(pfx, told, start, ear, posts)
    ensures NothingMissed(pfx, told, start, posts, if ear.Inquiring? then GetFailed else WatchOver)
  {
  }

  lemma PutsNext(posts: seq<Post>, header: nat, evs: seq<Event>, i: nat)
    requires i < |evs| && evs[i].PutEvent?
    ensures posts + PutsFrom(header, evs, i) == posts + [Post(header, evs[i].kv)] + PutsFrom(header, evs, i + 1)
    ensures posts + [Post(header, evs[i].kv)] <= posts + PutsFrom(header, evs, i)
  {
    assert posts + ([Post(header, evs[i].kv)] + PutsFrom(header, evs, i + 1))
        == posts + [Post(header, evs[i].kv)] + PutsFrom(header, evs, i + 1);
  }

  lemma PutsDone(posts: seq<Post>, header: nat, evs: seq<Event>, i: nat)
    requires i <= |evs| && (i < |evs| ==> evs[i].DeleteEvent?)
    ensures posts + PutsFrom(header, evs, i) == posts
  {
  }
}
