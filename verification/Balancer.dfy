/** The client load balancer: three maps, the recorder and the cached picker, driven by resolver updates and
    connection state changes. Each handler runs under the balancer's lock. */
module Balancer {
  import opened Connectivity
  import opened RoundRobin

  type Address = string

  datatype Picker = ErrPicker(err: PickError) | RoundRobinOf(rr: RoundRobinPicker)

  datatype Published = Nothing | Published(state: State, picker: Picker)

  // The client connection of gRPC: it makes sub-connections, or refuses to, and is told about the state.
  class ClientConn {
    var issued: set<SubConn>
    var refusals: seq<Address>
    var removed: set<SubConn>
    var connects: seq<SubConn>
    var published: Published

    constructor ()
      ensures issued == {} && refusals == [] && removed == {} && connects == [] && published == Nothing
    {
      issued, refusals, removed, connects, published := {}, [], {}, [], Nothing;
    }

    // A handle never issued before, or a failure.
    method NewSubConn(addr: Address) returns (ok: bool, sc: SubConn)
      modifies this`issued, this`refusals
      ensures ok ==> sc !in old(issued) && issued == old(issued) + {sc} && refusals == old(refusals)
      ensures !ok ==> issued == old(issued) && refusals == old(refusals) + [addr]
    {
      var handle: SubConn := *;
      var failed: bool := *;
      sc, ok := handle, !failed && handle !in issued;
      if ok {
        issued := issued + {sc};
      } else {
        refusals := refusals + [addr];
      }
    }
  }

  function Listed(addrs: seq<Address>): set<Address> {
    set a | a in addrs
  }

  // The ready sub-connections of the resolved addresses.
  ghost predicate CurrentReady(addrToSc: map<Address, SubConn>, scToSt: map<SubConn, State>, sc: SubConn) {
    sc in addrToSc.Values && sc in scToSt && scToSt[sc] == Ready
  }

  // Each current address has its own sub-connection, which maps back to it and has a state.
  ghost predicate Consistent(
      addrToSc: map<Address, SubConn>, scToAddr: map<SubConn, Address>, scToSt: map<SubConn, State>)
  {
    && scToAddr.Keys == scToSt.Keys
    && forall a | a in addrToSc :: addrToSc[a] in scToAddr && scToAddr[addrToSc[a]] == a
  }

  // The balancer's maps and what gRPC was asked for, at one moment.
  datatype Books = Books(
    addrToSc: map<Address, SubConn>, scToAddr: map<SubConn, Address>, scToSt: map<SubConn, State>,
    issued: set<SubConn>, refusals: seq<Address>, connects: seq<SubConn>)

  ghost function Created(b: Books, addr: Address, sc: SubConn): Books {
    Books(b.addrToSc[addr := sc], b.scToAddr[sc := addr], b.scToSt[sc := Idle],
          b.issued + {sc}, b.refusals, b.connects + [sc])
  }

  ghost function RefusedOnce(b: Books, addr: Address): Books {
    b.(refusals := b.refusals + [addr])
  }

  // The books as they were, plus new idle sub-connections for the addresses handled and not failed.
  ghost predicate Extends(b0: Books, b: Books, handled: set<Address>, failed: set<Address>) {
    && failed <= handled - b0.addrToSc.Keys && b0.issued <= b.issued
    && b.addrToSc.Keys == b0.addrToSc.Keys + (handled - failed)
    && (forall a | a in b0.addrToSc :: b.addrToSc[a] == b0.addrToSc[a])
    && (forall a | a in b.addrToSc && a !in b0.addrToSc :: Fresh(b0, b, b.addrToSc[a]))
    && (forall sc | sc in b0.scToSt :: sc in b.scToSt && b.scToSt[sc] == b0.scToSt[sc])
    && (handled <= b0.addrToSc.Keys ==> failed == {} && b == b0)
  }

  ghost predicate Fresh(b0: Books, b: Books, sc: SubConn) {
    sc !in b0.issued && sc in b.issued && sc in b.scToSt && b.scToSt[sc] == Idle
  }

  // Every failed address was refused, and the new sub-connections have been told to connect, each of them once.
  ghost predicate Asked(b0: Books, b: Books, failed: set<Address>) {
    && b0.refusals <= b.refusals && b0.connects <= b.connects
    && failed <= Listed(b.refusals[|b0.refusals|..])
    && ListsNew(b0.addrToSc, b.addrToSc, b.connects[|b0.connects|..])
  }

  ghost predicate ListsNew(addrToSc0: map<Address, SubConn>, addrToSc: map<Address, SubConn>, scs: seq<SubConn>) {
    && (forall i, j | 0 <= i < j < |scs| :: scs[i] != scs[j])
    && (forall a | a in addrToSc && a !in addrToSc0 :: addrToSc[a] in scs)
    && (forall sc | sc in scs :: exists a | a in addrToSc && a !in addrToSc0 :: addrToSc[a] == sc)
  }

  lemma ListsOneMore(addrToSc0: map<Address, SubConn>, addrToSc: map<Address, SubConn>, scs: seq<SubConn>,
                     addr: Address, sc: SubConn)
    requires ListsNew(addrToSc0, addrToSc, scs)
    requires addr !in addrToSc && addr !in addrToSc0 && forall a | a in addrToSc :: addrToSc[a] != sc
    ensures ListsNew(addrToSc0, addrToSc[addr := sc], scs + [sc])
  {
    var m, all := addrToSc[addr := sc], scs + [sc];
    assert m[addr] == sc && sc in all;
    assert sc !in scs;
    forall a | a in addrToSc && a !in addrToSc0
      ensures m[a] == addrToSc[a] && m[a] in all
    {
      assert addrToSc[a] in scs;
    }
    forall c | c in all
      ensures exists a | a in m && a !in addrToSc0 :: m[a] == c
    {
      if c in scs {
        var a :| a in addrToSc && a !in addrToSc0 && addrToSc[a] == c;
        assert m[a] == c;
      }
    }
  }

  lemma CreatedExtends(b0: Books, b: Books, handled: set<Address>, failed: set<Address>, addr: Address, sc: SubConn)
    requires Extends(b0, b, handled, failed) && addr !in b.addrToSc && sc !in b.issued
    requires b0.scToSt.Keys <= b0.issued && b.scToSt.Keys <= b.issued
    ensures Extends(b0, Created(b, addr, sc), handled + {addr}, failed - {addr})
  {
    var b' := Created(b, addr, sc);
    assert b'.addrToSc.Keys == b.addrToSc.Keys + {addr};
    forall a | a in b'.addrToSc && a !in b0.addrToSc
      ensures Fresh(b0, b', b'.addrToSc[a])
    {
      assert a != addr ==> Fresh(b0, b, b.addrToSc[a]);
    }
  }

  lemma CreatedAsked(b0: Books, b: Books, handled: set<Address>, failed: set<Address>, addr: Address, sc: SubConn)
    requires Extends(b0, b, handled, failed) && Asked(b0, b, failed) && addr !in b.addrToSc
    requires sc !in b.issued && b.addrToSc.Values <= b.issued
    ensures Asked(b0, Created(b, addr, sc), failed - {addr})
  {
    forall a | a in b.addrToSc
      ensures b.addrToSc[a] != sc
    {
      assert b.addrToSc[a] in b.addrToSc.Values;
    }
    ListsOneMore(b0.addrToSc, b.addrToSc, b.connects[|b0.connects|..], addr, sc);
    assert Created(b, addr, sc).connects[|b0.connects|..] == b.connects[|b0.connects|..] + [sc];
  }

  lemma RefusedExtends(b0: Books, b: Books, handled: set<Address>, failed: set<Address>, addr: Address)
    requires Extends(b0, b, handled, failed) && Asked(b0, b, failed) && addr !in b.addrToSc
    ensures Extends(b0, RefusedOnce(b, addr), handled + {addr}, failed + {addr})
    ensures Asked(b0, RefusedOnce(b, addr), failed + {addr})
  {
    assert RefusedOnce(b, addr).refusals[|b0.refusals|..] == b.refusals[|b0.refusals|..] + [addr];
    assert forall a | a in b.addrToSc && a !in b0.addrToSc :: Fresh(b0, b, b.addrToSc[a]);
  }

  // An update for `addrs`, after which exactly these have a sub-connection, except the `failed` ones: new
  // addresses whose creation was refused. Known addresses keep theirs; new ones get one never issued before, idle
  // and told to connect once; nothing is forgotten yet about removed ones.
  ghost predicate Updated(b0: Books, b: Books, addrs: seq<Address>, failed: set<Address>) {
    && b.addrToSc.Keys == Listed(addrs) - failed
    && b0.issued <= b.issued && b0.refusals <= b.refusals && b0.connects <= b.connects
    && failed <= Listed(b.refusals[|b0.refusals|..]) - b0.addrToSc.Keys
    && (forall a | a in b.addrToSc && a in b0.addrToSc :: b.addrToSc[a] == b0.addrToSc[a])
    && (forall a | a in b.addrToSc && a !in b0.addrToSc :: Fresh(b0, b, b.addrToSc[a]))
    && (forall sc | sc in b0.scToSt :: sc in b.scToSt && b.scToSt[sc] == b0.scToSt[sc])
    && ListsNew(b0.addrToSc, b.addrToSc, b.connects[|b0.connects|..])
    && (Listed(addrs) <= b0.addrToSc.Keys ==> b == b0.(addrToSc := b.addrToSc))
  }

  function Retained(addrToSc: map<Address, SubConn>, addrs: seq<Address>): map<Address, SubConn> {
    map a | a in addrToSc && a in addrs :: addrToSc[a]
  }

  function Dropped(addrToSc: map<Address, SubConn>, addrs: seq<Address>): set<SubConn> {
    set a | a in addrToSc && a !in addrs :: addrToSc[a]
  }

  lemma OnlyKnownDropped(b0: Books, b: Books, addrs: seq<Address>, failed: set<Address>)
    requires Extends(b0, b, Listed(addrs), failed)
    ensures Dropped(b.addrToSc, addrs) == Dropped(b0.addrToSc, addrs)
  {
    assert forall a | a in b.addrToSc && a !in addrs :: a in b0.addrToSc && b.addrToSc[a] == b0.addrToSc[a];
    assert forall a | a in b0.addrToSc :: a in b.addrToSc && b.addrToSc[a] == b0.addrToSc[a];
  }

  // No address keeps a sub-connection that is dropped.
  lemma DroppedAreGone(addrToSc: map<Address, SubConn>, scToAddr: map<SubConn, Address>, scToSt: map<SubConn, State>,
                       addrs: seq<Address>)
    requires Consistent(addrToSc, scToAddr, scToSt)
    ensures Dropped(addrToSc, addrs) !! Retained(addrToSc, addrs).Values
  {
  }

  lemma RetainingUpdates(b0: Books, b: Books, addrs: seq<Address>, failed: set<Address>)
    requires Extends(b0, b, Listed(addrs), failed) && Asked(b0, b, failed)
    ensures Updated(b0, b.(addrToSc := Retained(b.addrToSc, addrs)), addrs, failed)
  {
    var b' := b.(addrToSc := Retained(b.addrToSc, addrs));
    assert forall a | a in b.addrToSc && a !in b0.addrToSc :: a in b'.addrToSc && b'.addrToSc[a] == b.addrToSc[a];
    forall a | a in b'.addrToSc && a !in b0.addrToSc
      ensures Fresh(b0, b', b'.addrToSc[a])
    {
      assert Fresh(b0, b, b.addrToSc[a]);
    }
    RetainedListsNew(b0.addrToSc, b.addrToSc, addrs, b.connects[|b0.connects|..]);
  }

  lemma RetainedListsNew(addrToSc0: map<Address, SubConn>, addrToSc: map<Address, SubConn>, addrs: seq<Address>,
                         scs: seq<SubConn>)
    requires ListsNew(addrToSc0, addrToSc, scs)
    requires forall a | a in addrToSc && a !in addrToSc0 :: a in addrs
    ensures ListsNew(addrToSc0, Retained(addrToSc, addrs), scs)
  {
    var m := Retained(addrToSc, addrs);
    forall sc | sc in scs
      ensures exists a | a in m && a !in addrToSc0 :: m[a] == sc
    {
      var a :| a in addrToSc && a !in addrToSc0 && addrToSc[a] == sc;
      assert m[a] == sc;
    }
  }

  // ---------- Moments ----------

  // What a picker answers: an error, or the sub-connections in turn.
  datatype View = Failing(err: PickError) | Turn(scs: seq<SubConn>, next: nat)

  // What gRPC was last told: a state, and whether the picker that came with it is the one in use.
  datatype Announced = NotYet | Told(state: State, inUse: bool)

  function Announcement(published: Published, picker: Picker): Announced {
    match published
    case Nothing => NotYet
    case Published(state, p) => Told(state, p == picker)
  }

  // The balancer, recorder, picker and connection at one moment.
  datatype Moment = Moment(books: Books, removed: set<SubConn>, cur: State, view: View, announced: Announced)

  ghost function InTurn(v: View): set<SubConn> {
    if v.Turn? then set sc | sc in v.scs else {}
  }

  // The answer to a call, and the picker after it.
  ghost function Served(v: View): (PickResult, View) {
    match v
    case Failing(err) => (Refused(err), v)
    case Turn(scs, next) =>
      if next < |scs| then (Picked(scs[next]), Turn(scs, After(|scs|, next))) else (Refused(NoSubConnAvailable), v)
  }

  // Address maps, aggregate state and picker agree with the recorded states, and removed sub-connections are no
  // longer those of an address.
  ghost predicate Sound(m: Moment) {
    var b := m.books;
    && Consistent(b.addrToSc, b.scToAddr, b.scToSt)
    && m.removed <= b.issued && m.removed !! b.addrToSc.Values && b.scToSt.Keys <= b.issued
    && (m.cur == Aggregate(b.scToSt) || (m.cur == Idle && forall sc | sc in b.scToSt :: b.scToSt[sc] == Idle))
    && (forall sc | CurrentReady(b.addrToSc, b.scToSt, sc) :: sc in InTurn(m.view))
    && InTurn(m.view) <= In(b.scToSt, Ready)
    && (m.view == Failing(AllInTransientFailure) <==> m.cur == TransientFailure)
    && (m.view.Turn? ==> NoDuplicates(m.view.scs) && (m.view.scs == [] || m.view.next < |m.view.scs|))
  }

  // A new picker is due: readiness changed, or the aggregate entered or left transient failure.
  predicate PickerDue(oldState: State, s: State, oldCur: State, cur: State) {
    (s == Ready) != (oldState == Ready) || (cur == TransientFailure) != (oldCur == TransientFailure)
  }

  // The picker is a new one, for exactly the ready sub-connections of current addresses.
  ghost predicate Rebuilt(m: Moment) {
    if m.cur == TransientFailure then m.view == Failing(AllInTransientFailure)
    else
      && m.view.Turn? && m.view.next == 0
      && forall sc :: sc in m.view.scs <==> CurrentReady(m.books.addrToSc, m.books.scToSt, sc)
  }

  datatype Event = Resolved(addrs: seq<Address>, err: bool) | StateChanged(sc: SubConn, s: State) | Call

  // What an event makes of a moment, and its answers.
  ghost predicate Handled(m: Moment, e: Event, m': Moment, answers: seq<PickResult>) {
    match e
    case Resolved(addrs, err) =>
      && answers == []
      && if err then m' == m else exists failed :: Resolves(m, m', addrs, failed)
    case StateChanged(sc, s) =>
      && answers == []
      && if sc !in m.books.scToSt || (s == Shutdown && sc !in m.removed) then m' == m else Reported(m, m', sc, s)
    case Call =>
      answers == [Served(m.view).0] && m' == m.(view := Served(m.view).1)
  }

  ghost predicate Resolves(m: Moment, m': Moment, addrs: seq<Address>, failed: set<Address>) {
    && Updated(m.books, m'.books, addrs, failed)
    && m' == m.(books := m'.books, removed := m.removed + Dropped(m.books.addrToSc, addrs))
  }

  ghost predicate Reported(m: Moment, m': Moment, sc: SubConn, s: State)
    requires sc in m.books.scToSt
  {
    var b := m.books;
    && m'.books == b.(
         scToSt := if s.Shutdown? then b.scToSt - {sc} else b.scToSt[sc := s],
         scToAddr := if s.Shutdown? then b.scToAddr - {sc} else b.scToAddr,
         connects := b.connects + if s.Idle? then [sc] else [])
    && m'.removed == m.removed && m'.cur == Aggregate(m'.books.scToSt) && m'.announced == Told(m'.cur, true)
    && if PickerDue(b.scToSt[sc], s, m.cur, m'.cur) then Rebuilt(m') else m'.view == m.view
  }

  class Balancer {
    var addrToSc: map<Address, SubConn>
    var scToAddr: map<SubConn, Address>
    var scToSt: map<SubConn, State>
    const currentConn: ClientConn
    const recorder: Recorder
    var picker: Picker

    constructor (cc: ClientConn)
      ensures Valid() && AddressesConsistent() && fresh(recorder) && currentConn == cc
      ensures addrToSc == map[] && scToAddr == map[] && scToSt == map[] && picker == ErrPicker(NoSubConnAvailable)
    {
      addrToSc, scToAddr, scToSt := map[], map[], map[];
      currentConn := cc;
      recorder := new Recorder();
      picker := ErrPicker(NoSubConnAvailable);
      new;
      assert forall s :: In(map[], s) == {};
    }

    // ---------- Invariants ----------

    ghost function PickerSet(): set<SubConn>
      reads this
    {
      match picker
      case ErrPicker(_) => {}
      case RoundRobinOf(rr) => set sc | sc in rr.scs
    }

    // The counters are the recounts, and the current state is the recomputed aggregate; before the first
    // transition, when every sub-connection is idle, it is Idle.
    ghost predicate RecorderExact()
      reads this, recorder
    {
      && recorder.Counts(scToSt)
      && (recorder.cur == Aggregate(scToSt)
          || (recorder.cur == Idle && forall sc | sc in scToSt :: scToSt[sc] == Idle))
    }

    // The ready sub-connections of current addresses are in the picker, the picker's are all recorded ready, and
    // it is the transient-failure picker exactly when the aggregate is TransientFailure.
    ghost predicate PickerCoherent()
      reads this, recorder, if picker.RoundRobinOf? then {picker.rr} else {}
    {
      && (picker.RoundRobinOf? ==> picker.rr.Valid())
      && (forall sc | CurrentReady(addrToSc, scToSt, sc) :: sc in PickerSet())
      && PickerSet() <= In(scToSt, Ready)
      && (picker == ErrPicker(AllInTransientFailure) <==> recorder.cur == TransientFailure)
    }

    ghost predicate Valid()
      reads this, recorder, currentConn, if picker.RoundRobinOf? then {picker.rr} else {}
    {
      && RecorderExact()
      && PickerCoherent()
      && addrToSc.Values <= currentConn.issued
      && scToSt.Keys <= currentConn.issued
    }

    ghost predicate AddressesConsistent()
      reads this
    {
      Consistent(addrToSc, scToAddr, scToSt)
    }

    ghost function PickerView(): View
      reads this, if picker.RoundRobinOf? then {picker.rr} else {}
    {
      match picker
      case ErrPicker(err) => Failing(err)
      case RoundRobinOf(rr) => Turn(rr.scs, rr.next)
    }

    ghost function Now(): Moment
      reads this, recorder, currentConn, if picker.RoundRobinOf? then {picker.rr} else {}
    {
      Moment(CurrentBooks(), currentConn.removed, recorder.cur, PickerView(),
             Announcement(currentConn.published, picker))
    }

    lemma NowIsSound()
      requires Valid() && AddressesConsistent() && RemovedAreGone()
      ensures Sound(Now())
    {
    }

    // No current address has a sub-connection that gRPC was told to remove.
    ghost predicate RemovedAreGone()
      reads this, currentConn
    {
      currentConn.removed <= currentConn.issued && currentConn.removed !! addrToSc.Values
    }

    // ---------- Resolver updates ----------

    /** An update without error leaves exactly the resolved addresses, except those whose creation gRPC refused;
        one with an error changes nothing. */
    method HandleResolvedAddrs(addrs: seq<Address>, err: bool) returns (ghost failed: set<Address>)
      requires Valid()
      modifies this`addrToSc, this`scToAddr, this`scToSt
      modifies currentConn`issued, currentConn`refusals, currentConn`removed, currentConn`connects
      ensures Valid() && (old(AddressesConsistent()) ==> AddressesConsistent())
      ensures if err then unchanged(this) && unchanged(currentConn)
              else Updated(old(CurrentBooks()), CurrentBooks(), addrs, failed)
      ensures currentConn.removed == old(currentConn.removed) + if err then {} else Dropped(old(addrToSc), addrs)
      ensures !err ==> forall sc :: sc in currentConn.removed <==>
                sc in old(currentConn.removed)
                || exists a :: a in old(addrToSc) && a !in addrs && old(addrToSc)[a] == sc
      ensures old(AddressesConsistent() && RemovedAreGone()) ==> RemovedAreGone()
    {
      failed := {};
      if err {
        return;
      }
      failed := AddResolved(addrs);
      ghost var consistent := AddressesConsistent();
      RetainingUpdates(old(CurrentBooks()), CurrentBooks(), addrs, failed);
      OnlyKnownDropped(old(CurrentBooks()), CurrentBooks(), addrs, failed);
      ghost var added := addrToSc;
      RemoveUnresolved(addrs);
      if consistent {
        DroppedAreGone(added, scToAddr, scToSt, addrs);
      }
    }

    ghost function CurrentBooks(): Books
      reads this, currentConn
    {
      Books(addrToSc, scToAddr, scToSt, currentConn.issued, currentConn.refusals, currentConn.connects)
    }

    method AddResolved(addrs: seq<Address>) returns (ghost failed: set<Address>)
      requires Valid()
      modifies this`addrToSc, this`scToAddr, this`scToSt
      modifies currentConn`issued, currentConn`refusals, currentConn`connects
      ensures Valid() && (old(AddressesConsistent()) ==> AddressesConsistent())
      ensures Extends(old(CurrentBooks()), CurrentBooks(), Listed(addrs), failed)
      ensures Asked(old(CurrentBooks()), CurrentBooks(), failed)
      ensures old(RemovedAreGone()) ==> RemovedAreGone()
    {
      failed := {};
      for i := 0 to |addrs|
        invariant Valid() && (old(AddressesConsistent()) ==> AddressesConsistent())
        invariant Extends(old(CurrentBooks()), CurrentBooks(), Listed(addrs[..i]), failed)
        invariant Asked(old(CurrentBooks()), CurrentBooks(), failed)
        invariant old(RemovedAreGone()) ==> RemovedAreGone()
      {
        ghost var b, handled := CurrentBooks(), Listed(addrs[..i]);
        assert Listed(addrs[..i + 1]) == handled + {addrs[i]};
        if addrs[i] !in addrToSc {
          var ok, sc := Create(addrs[i]);
          if ok {
            CreatedExtends(old(CurrentBooks()), b, handled, failed, addrs[i], sc);
            CreatedAsked(old(CurrentBooks()), b, handled, failed, addrs[i], sc);
            failed := failed - {addrs[i]};
          } else {
            RefusedExtends(old(CurrentBooks()), b, handled, failed, addrs[i]);
            failed := failed + {addrs[i]};
          }
        }
      }
      assert addrs[..|addrs|] == addrs;
    }

    method Create(addr: Address) returns (ok: bool, sc: SubConn)
      requires Valid() && addr !in addrToSc
      modifies this`addrToSc, this`scToAddr, this`scToSt
      modifies currentConn`issued, currentConn`refusals, currentConn`connects
      ensures Valid() && (old(AddressesConsistent()) ==> AddressesConsistent())
      ensures old(RemovedAreGone()) ==> RemovedAreGone()
      ensures !ok ==> CurrentBooks() == RefusedOnce(old(CurrentBooks()), addr)
      ensures ok ==> sc !in old(currentConn.issued) && CurrentBooks() == Created(old(CurrentBooks()), addr, sc)
    {
      ok, sc := currentConn.NewSubConn(addr);
      if !ok {
        return;
      }
      IdleAdded(scToSt, sc);
      addrToSc := addrToSc[addr := sc];
      scToAddr := scToAddr[sc := addr];
      scToSt := scToSt[sc := Idle];
      currentConn.connects := currentConn.connects + [sc];
    }

    method RemoveUnresolved(addrs: seq<Address>)
      requires Valid()
      modifies this`addrToSc, currentConn`removed
      ensures Valid() && (old(AddressesConsistent()) ==> AddressesConsistent())
      ensures addrToSc == Retained(old(addrToSc), addrs)
      ensures currentConn.removed == old(currentConn.removed) + Dropped(old(addrToSc), addrs)
    {
      RemoveAll(addrs);
    }

    // The loop of HandleResolvedAddrs over the known addresses.
    method RemoveAll(addrs: seq<Address>)
      modifies this`addrToSc, currentConn`removed
      ensures addrToSc == Retained(old(addrToSc), addrs)
      ensures currentConn.removed == old(currentConn.removed) + Dropped(old(addrToSc), addrs)
    {
      var todo := addrToSc.Keys;
      while todo != {}
        invariant todo <= old(addrToSc).Keys
        invariant addrToSc == map a | a in old(addrToSc) && (a in addrs || a in todo) :: old(addrToSc)[a]
        invariant currentConn.removed
               == old(currentConn.removed) + set a | a in old(addrToSc) && a !in addrs && a !in todo :: old(addrToSc)[a]
      {
        var addr :| addr in todo;
        todo := todo - {addr};
        if addr !in addrs {
          currentConn.removed := currentConn.removed + {addrToSc[addr]};
          addrToSc := addrToSc - {addr};
        }
      }
    }

    // ---------- Connection state changes ----------

    /** One sub-connection reports a state; reports about forgotten ones change nothing. The state is recorded, or
        forgotten at Shutdown, the current state is the aggregate recomputed from scratch, and gRPC is told of it
        together with the picker. The address maps stay consistent except in one case, a Shutdown of a
        sub-connection whose address is still current. */
    method HandleSubConnStateChange(sc: SubConn, s: State)
      requires Valid()
      modifies this`scToAddr, this`scToSt, this`picker, recorder, currentConn`connects, currentConn`published
      ensures Valid()
      ensures sc !in old(scToSt) ==>
        && unchanged(this) && unchanged(recorder) && unchanged(currentConn)
      ensures sc in old(scToSt) ==>
        && scToSt == (if s.Shutdown? then old(scToSt) - {sc} else old(scToSt)[sc := s])
        && scToAddr == (if s.Shutdown? then old(scToAddr) - {sc} else old(scToAddr))
        && recorder.cur == Aggregate(scToSt)
        && currentConn.connects == old(currentConn.connects) + (if s.Idle? then [sc] else [])
        && currentConn.published == Published(recorder.cur, picker)
      ensures picker == old(picker) || (picker.RoundRobinOf? ==> fresh(picker.rr))
      ensures sc in old(scToSt) ==>
        if PickerDue(old(scToSt)[sc], s, old(recorder.cur), recorder.cur) then Rebuilt(Now()) else picker == old(picker)
      ensures sc in old(scToSt) ==> Reported(old(Now()), Now(), sc, s)
      ensures old(AddressesConsistent()) && sc in old(scToSt) ==>
        (AddressesConsistent() <==> !(s.Shutdown? && sc in addrToSc.Values))
    {
      if sc !in scToSt {
        return;
      }
      var oldState := scToSt[sc];
      ShutdownBreaksAddresses(sc, s);
      SetState(sc, s);
      Refresh(old(scToSt), sc, oldState, s);
      currentConn.published := Published(recorder.cur, picker);
    }

    // The state is recorded, or forgotten together with the address.
    method SetState(sc: SubConn, s: State)
      requires sc in scToSt
      modifies this`scToAddr, this`scToSt, currentConn`connects
      ensures scToSt == if s.Shutdown? then old(scToSt) - {sc} else old(scToSt)[sc := s]
      ensures scToAddr == if s.Shutdown? then old(scToAddr) - {sc} else old(scToAddr)
      ensures currentConn.connects == old(currentConn.connects) + (if s.Idle? then [sc] else [])
    {
      scToSt := scToSt[sc := s];
      match s {
        case Idle =>
          currentConn.connects := currentConn.connects + [sc];
        case Shutdown =>
          scToAddr := scToAddr - {sc};
          scToSt := scToSt - {sc};
        case _ =>
      }
    }

    /** Exactly when the address maps stop being consistent: a Shutdown of the sub-connection of a current
        address. */
    lemma ShutdownBreaksAddresses(sc: SubConn, s: State)
      requires sc in scToSt
      ensures var st := if s.Shutdown? then scToSt - {sc} else scToSt[sc := s];
              var ad := if s.Shutdown? then scToAddr - {sc} else scToAddr;
              AddressesConsistent() ==>
                (Consistent(addrToSc, ad, st) <==> !(s.Shutdown? && sc in addrToSc.Values))
    {
      var ad := if s.Shutdown? then scToAddr - {sc} else scToAddr;
      if AddressesConsistent() && s.Shutdown? && sc in addrToSc.Values {
        var a :| a in addrToSc && addrToSc[a] == sc;
        assert addrToSc[a] !in ad;
      }
    }

    // Recorder and picker catch up with the transition that turned the states `m` into the present ones.
    method Refresh(ghost m: map<SubConn, State>, sc: SubConn, oldState: State, s: State)
      requires sc in m && m[sc] == oldState && recorder.Counts(m)
      requires scToSt == if s.Shutdown? then m - {sc} else m[sc := s]
      requires picker.RoundRobinOf? ==> picker.rr.Valid()
      requires forall c | CurrentReady(addrToSc, m, c) :: c in PickerSet()
      requires PickerSet() <= In(m, Ready)
      requires picker == ErrPicker(AllInTransientFailure) <==> recorder.cur == TransientFailure
      modifies this`picker, recorder
      ensures RecorderExact() && PickerCoherent() && recorder.cur == Aggregate(scToSt)
      ensures picker == old(picker) || (picker.RoundRobinOf? ==> fresh(picker.rr))
      ensures if PickerDue(oldState, s, old(recorder.cur), recorder.cur) then Rebuilt(Now()) else picker == old(picker)
    {
      var oldAggrState := recorder.cur;
      Record(m, sc, oldState, s);
      if (s == Ready) != (oldState == Ready)
         || (recorder.cur == TransientFailure) != (oldAggrState == TransientFailure)
      {
        UpdatePicker();
      } else {
        PickerStillCoherent(m, sc, s);
      }
    }

    // The recorder takes the transition that turned the states `m` into the present ones.
    method Record(ghost m: map<SubConn, State>, ghost sc: SubConn, from: State, s: State)
      requires sc in m && m[sc] == from && recorder.Counts(m)
      requires scToSt == if s.Shutdown? then m - {sc} else m[sc := s]
      modifies recorder
      ensures recorder.Counts(scToSt) && recorder.cur == Aggregate(scToSt)
    {
      forall t | t in {Ready, Connecting, TransientFailure}
        ensures Wrap(Count(m, t) - Counted(m[sc], t) + Counted(s, t)) == Count(scToSt, t)
      {
        TransitionCounts(m, sc, s, t);
      }
      recorder.RecordTransition(from, s);
    }

    lemma PickerStillCoherent(m: map<SubConn, State>, sc: SubConn, s: State)
      requires sc in m && scToSt == if s.Shutdown? then m - {sc} else m[sc := s]
      requires (s == Ready) == (m[sc] == Ready)
      requires forall c | CurrentReady(addrToSc, m, c) :: c in PickerSet()
      requires PickerSet() <= In(m, Ready)
      requires picker.RoundRobinOf? ==> picker.rr.Valid()
      requires picker == ErrPicker(AllInTransientFailure) <==> recorder.cur == TransientFailure
      ensures PickerCoherent()
    {
    }

    method UpdatePicker()
      requires recorder.Counts(scToSt) && recorder.cur == Aggregate(scToSt)
      modifies this`picker
      ensures PickerCoherent()
      ensures picker.RoundRobinOf? ==> fresh(picker.rr) && picker.rr.next == 0
      ensures recorder.cur != TransientFailure ==>
        forall sc :: sc in PickerSet() <==> CurrentReady(addrToSc, scToSt, sc)
      ensures Rebuilt(Now())
    {
      if recorder.cur == TransientFailure {
        picker := ErrPicker(AllInTransientFailure);
        return;
      }
      var ready: set<SubConn> := {};
      var todo := addrToSc.Keys;
      while todo != {}
        invariant todo <= addrToSc.Keys
        invariant forall sc :: sc in ready <==>
                    exists a | a in addrToSc && a !in todo :: addrToSc[a] == sc && sc in scToSt && scToSt[sc] == Ready
      {
        var addr :| addr in todo;
        todo := todo - {addr};
        var sc := addrToSc[addr];
        if sc in scToSt && scToSt[sc] == Ready {
          ready := ready + {sc};
        }
      }
      var rr := new RoundRobinPicker(ready);
      picker := RoundRobinOf(rr);
    }

    // ---------- Picking ----------

    /** A call picks a sub-connection that is recorded ready whenever one of a current address is; it fails with
        a transient failure exactly when that is the aggregate state. */
    method Pick() returns (result: PickResult)
      requires Valid()
      modifies if picker.RoundRobinOf? then {picker.rr} else {}
      ensures Valid()
      ensures result.Picked? ==> result.sc in scToSt && scToSt[result.sc] == Ready
      ensures (exists sc :: CurrentReady(addrToSc, scToSt, sc)) ==> result.Picked?
      ensures result == Refused(AllInTransientFailure) <==> recorder.cur == TransientFailure
      ensures (result, PickerView()) == Served(old(PickerView()))
    {
      match picker
      case ErrPicker(err) => result := Refused(err);
      case RoundRobinOf(rr) =>
        result := rr.Pick();
        if result.Picked? {
          assert result.sc in PickerSet();
        }
    }
  }

  // ---------- Whole runs ----------

  // The balancer handles the event; a Shutdown reported of a sub-connection not removed does not happen.
  method Handle(bb: Balancer, e: Event) returns (answers: seq<PickResult>)
    requires bb.Valid() && bb.AddressesConsistent() && bb.RemovedAreGone()
    modifies bb, bb.recorder, bb.currentConn, if bb.picker.RoundRobinOf? then {bb.picker.rr} else {}
    ensures bb.Valid() && bb.AddressesConsistent() && bb.RemovedAreGone()
    ensures bb.picker == old(bb.picker) || (bb.picker.RoundRobinOf? ==> fresh(bb.picker.rr))
    ensures Handled(old(bb.Now()), e, bb.Now(), answers)
  {
    answers := [];
    match e {
      case Resolved(addrs, err) =>
        ghost var failed := bb.HandleResolvedAddrs(addrs, err);
        assert !err ==> Resolves(old(bb.Now()), bb.Now(), addrs, failed);
      case StateChanged(sc, s) =>
        if s != Shutdown || sc in bb.currentConn.removed {
          bb.HandleSubConnStateChange(sc, s);
        }
      case Call =>
        var pick := bb.Pick();
        answers := [pick];
    }
  }

  // The moments of a run: before the first event, and after each of them.
  ghost predicate IsRun(trace: seq<Moment>, events: seq<Event>, answers: seq<seq<PickResult>>) {
    && |trace| == |events| + 1 && |answers| == |events|
    && (forall i | 0 <= i < |trace| :: Sound(trace[i]))
    && (forall i | 0 <= i < |events| :: Handled(trace[i], events[i], trace[i + 1], answers[i]))
  }

  // A new balancer on the connection.
  ghost function NewMoment(cc: ClientConn): Moment
    reads cc
  {
    Moment(Books(map[], map[], map[], cc.issued, cc.refusals, cc.connects), cc.removed, Idle,
           Failing(NoSubConnAvailable), Announcement(cc.published, ErrPicker(NoSubConnAvailable)))
  }

  /** Whatever happens to a new balancer, in whatever order (resolver updates, state reports, calls being picked),
      every event has exactly its effect, and at every moment address maps, recorder and picker agree with the
      recorded states. gRPC reports Shutdown only of sub-connections it was told to remove; every other report may
      come at any time. `answers` holds, for each event, the answers to calls. */
  method Run(cc: ClientConn, events: seq<Event>)
    returns (bb: Balancer, answers: seq<seq<PickResult>>, ghost trace: seq<Moment>)
    requires cc.removed <= cc.issued
    modifies cc
    ensures bb.currentConn == cc && bb.Valid() && bb.AddressesConsistent() && bb.RemovedAreGone()
    ensures IsRun(trace, events, answers)
    ensures trace[0] == old(NewMoment(cc))
    ensures trace[|events|] == bb.Now()
  {
    bb := new Balancer(cc);
    bb.NowIsSound();
    answers, trace := [], [bb.Now()];
    for i := 0 to |events|
      invariant fresh(bb) && fresh(bb.recorder) && bb.currentConn == cc
      invariant bb.picker.RoundRobinOf? ==> fresh(bb.picker.rr)
      invariant bb.Valid() && bb.AddressesConsistent() && bb.RemovedAreGone()
      invariant IsRun(trace, events[..i], answers) && trace[i] == bb.Now()
      invariant trace[0] == old(NewMoment(cc))
    {
      var more := Handle(bb, events[i]);
      bb.NowIsSound();
      RunAppend(trace, events[..i], answers, events[i], bb.Now(), more);
      assert events[..i + 1] == events[..i] + [events[i]];
      answers, trace := answers + [more], trace + [bb.Now()];
    }
    assert events[..|events|] == events;
  }

  lemma RunAppend(trace: seq<Moment>, events: seq<Event>, answers: seq<seq<PickResult>>,
                  e: Event, m: Moment, more: seq<PickResult>)
    requires IsRun(trace, events, answers) && Sound(m) && Handled(trace[|events|], e, m, more)
    ensures IsRun(trace + [m], events + [e], answers + [more])
  {
  }

  // ---------- What follows for every run ----------

  /** A call is refused only if no sub-connection of a current address is ready, and it never gets one that is not
      recorded ready. */
  lemma CallsServed(trace: seq<Moment>, events: seq<Event>, answers: seq<seq<PickResult>>, i: nat)
    requires IsRun(trace, events, answers) && i < |events| && events[i].Call?
    ensures |answers[i]| == 1
    ensures var b, answer := trace[i].books, answers[i][0];
            && (answer.Refused? ==> forall a | a in b.addrToSc && b.addrToSc[a] in b.scToSt ::
                  b.scToSt[b.addrToSc[a]] != Ready)
            && (answer.Picked? ==> answer.sc in b.scToSt && b.scToSt[answer.sc] == Ready)
            && (answer == Refused(AllInTransientFailure) <==> trace[i].cur == TransientFailure)
  {
    assert Sound(trace[i]) && Handled(trace[i], events[i], trace[i + 1], answers[i]);
    var b, answer := trace[i].books, answers[i][0];
    assert answer.Picked? ==> answer.sc in InTurn(trace[i].view);
    forall a | a in b.addrToSc && b.addrToSc[a] in b.scToSt
      ensures CurrentReady(b.addrToSc, b.scToSt, b.addrToSc[a]) <==> b.scToSt[b.addrToSc[a]] == Ready
    {
    }
  }

  // The calls before event `k`, from event `i` on.
  function CallsBetween(events: seq<Event>, i: nat, k: nat): nat
    requires i <= k <= |events|
    decreases k
  {
    if i == k then 0 else CallsBetween(events, i, k - 1) + if events[k - 1].Call? then 1 else 0
  }

  // A report that its sub-connection has become ready or is no longer ready.
  ghost predicate ChangesReadiness(m: Moment, e: Event) {
    e.StateChanged? && e.sc in m.books.scToSt && (e.s == Ready) != (m.books.scToSt[e.sc] == Ready)
  }

  lemma TurnStays(m: Moment, e: Event, m': Moment, answers: seq<PickResult>)
    requires Sound(m) && Handled(m, e, m', answers) && !e.Call? && !ChangesReadiness(m, e)
    requires m.view.Turn? && m.view.scs != []
    ensures m'.view == m.view
  {
    if e.StateChanged? && m' != m {
      var sc := m.view.scs[0];
      assert sc in InTurn(m.view);
      assert sc in m'.books.scToSt && m'.books.scToSt[sc] == Ready;
    }
  }

  // The sub-connections are served in turn, and `a` leads to the next, round the end.
  ghost predicate AtTurn(v: View, scs: seq<SubConn>, a: nat) {
    scs != [] && v == Turn(scs, a % |scs|)
  }

  lemma TurnStep(m: Moment, e: Event, m': Moment, answers: seq<PickResult>, scs: seq<SubConn>, a: nat)
    requires Sound(m) && Handled(m, e, m', answers) && !ChangesReadiness(m, e) && AtTurn(m.view, scs, a)
    ensures AtTurn(m'.view, scs, if e.Call? then a + 1 else a)
    ensures e.Call? ==> answers == [Picked(scs[a % |scs|])]
  {
    if e.Call? {
      AfterTurns(|scs|, a);
    } else {
      TurnStays(m, e, m', answers);
    }
  }

  lemma {:induction false} TurnMoves(trace: seq<Moment>, events: seq<Event>, answers: seq<seq<PickResult>>,
                                     i: nat, k: nat, scs: seq<SubConn>, a: nat)
    requires IsRun(trace, events, answers) && i <= k <= |events|
    requires forall l | i <= l < k :: !ChangesReadiness(trace[l], events[l])
    requires AtTurn(trace[i].view, scs, a)
    ensures AtTurn(trace[k].view, scs, a + CallsBetween(events, i, k))
    decreases k
  {
    if i < k {
      TurnMoves(trace, events, answers, i, k - 1, scs, a);
      assert Sound(trace[k - 1]) && Handled(trace[k - 1], events[k - 1], trace[k], answers[k - 1]);
      TurnStep(trace[k - 1], events[k - 1], trace[k], answers[k - 1], scs, a + CallsBetween(events, i, k - 1));
    }
  }

  lemma CallAtTurn(trace: seq<Moment>, events: seq<Event>, answers: seq<seq<PickResult>>,
                   i: nat, k: nat, scs: seq<SubConn>, a: nat)
    requires IsRun(trace, events, answers) && i <= k < |events| && events[k].Call?
    requires forall l | i <= l < k :: !ChangesReadiness(trace[l], events[l])
    requires AtTurn(trace[i].view, scs, a)
    ensures answers[k] == [Picked(scs[(a + CallsBetween(events, i, k)) % |scs|])]
  {
    TurnMoves(trace, events, answers, i, k, scs, a);
    assert Sound(trace[k]) && Handled(trace[k], events[k], trace[k + 1], answers[k]);
    TurnStep(trace[k], events[k], trace[k + 1], answers[k], scs, a + CallsBetween(events, i, k));
  }

  /** As long as no sub-connection becomes ready or stops being ready, calls are served in turn, whatever updates and
      other reports come between them: the rotation does not start again, and the fairness results hold. */
  lemma {:induction false} CallsRotate(trace: seq<Moment>, events: seq<Event>, answers: seq<seq<PickResult>>,
                                       i: nat, k: nat, n: nat)
    requires IsRun(trace, events, answers) && i <= k < |events| && events[k].Call?
    requires forall l | i <= l < k :: !ChangesReadiness(trace[l], events[l])
    requires trace[i].view.Turn? && trace[i].view.scs != [] && n > CallsBetween(events, i, k)
    ensures var v, j := trace[i].view, CallsBetween(events, i, k);
            && v.next < |v.scs| && |Picks(v.scs, v.next, n)| == n
            && answers[k] == [Picked(v.scs[(v.next + j) % |v.scs|])] == [Picked(Picks(v.scs, v.next, n)[j])]
  {
    var v, j := trace[i].view, CallsBetween(events, i, k);
    assert Sound(trace[i]);
    ModUnique(v.next, |v.scs|, 0, v.next);
    CallAtTurn(trace, events, answers, i, k, v.scs, v.next);
    PickAt(v.scs, v.next, n, j);
  }

  /** An update tells gRPC to remove exactly the sub-connections of the addresses that are gone. Addresses that stay
      keep theirs; each new one gets a sub-connection that was never issued before, idle and told to connect, unless
      gRPC refused; every other recorded state, and what calls get, is unchanged. */
  lemma UpdateExactly(trace: seq<Moment>, events: seq<Event>, answers: seq<seq<PickResult>>, i: nat,
                      addrs: seq<Address>)
    requires IsRun(trace, events, answers) && i < |events| && events[i] == Resolved(addrs, false)
    ensures var m, m' := trace[i], trace[i + 1]; var b, b' := m.books, m'.books;
            && (forall sc :: sc in m'.removed <==>
                  sc in m.removed || exists a :: a in b.addrToSc && a !in addrs && b.addrToSc[a] == sc)
            && (forall a | a in b.addrToSc && a in addrs :: a in b'.addrToSc && b'.addrToSc[a] == b.addrToSc[a])
            && (forall a | a in b'.addrToSc && a !in b.addrToSc ::
                  var sc := b'.addrToSc[a];
                  && a in addrs && sc !in b.issued && sc !in b.scToSt && sc in b'.scToSt && b'.scToSt[sc] == Idle
                  && sc in b'.connects[|b.connects|..])
            && (forall sc | sc in b.scToSt :: sc in b'.scToSt && b'.scToSt[sc] == b.scToSt[sc])
            && m'.cur == m.cur && m'.view == m.view && m'.announced == m.announced
  {
    var b, b' := trace[i].books, trace[i + 1].books;
    assert Sound(trace[i]) && Handled(trace[i], events[i], trace[i + 1], answers[i]);
    var failed :| Resolves(trace[i], trace[i + 1], addrs, failed);
    forall a | a in b'.addrToSc && a !in b.addrToSc
      ensures a in addrs && Fresh(b, b', b'.addrToSc[a]) && b'.addrToSc[a] in b'.connects[|b.connects|..]
    {
      assert a in Listed(addrs);
    }
    assert forall a | a in b.addrToSc && a in addrs :: a in Listed(addrs);
  }

  // The report is about a sub-connection the balancer knows; Shutdown comes only of removed ones.
  ghost predicate Counts(m: Moment, e: Event) {
    e.StateChanged? && e.sc in m.books.scToSt && (e.s == Shutdown ==> e.sc in m.removed)
  }

  /** After every report the current state, which gRPC is told together with the picker in use, is Ready if and only if
      some sub-connection is ready, Connecting if and only if none is ready and some is connecting, and
      TransientFailure if and only if neither. An idle sub-connection is told to connect. */
  lemma ReportAggregates(trace: seq<Moment>, events: seq<Event>, answers: seq<seq<PickResult>>, i: nat)
    requires IsRun(trace, events, answers) && i < |events| && Counts(trace[i], events[i])
    ensures var m, m', sc, s := trace[i], trace[i + 1], events[i].sc, events[i].s;
            var st, st' := m.books.scToSt, m'.books.scToSt;
            && (sc in st' <==> s != Shutdown) && (s != Shutdown ==> st'[sc] == s)
            && (forall c | c != sc :: (c in st' <==> c in st) && (c in st ==> st'[c] == st[c]))
            && (m'.cur == Ready <==> exists c :: c in st' && st'[c] == Ready)
            && (m'.cur == Connecting <==>
                  (forall c | c in st' :: st'[c] != Ready) && exists c :: c in st' && st'[c] == Connecting)
            && (m'.cur == TransientFailure <==> forall c | c in st' :: st'[c] != Ready && st'[c] != Connecting)
            && m'.announced == Told(m'.cur, true)
            && m'.books.connects == m.books.connects + if s == Idle then [sc] else []
  {
    assert Handled(trace[i], events[i], trace[i + 1], answers[i]);
  }

  /** A report rebuilds the picker exactly if it changes readiness, or if TransientFailure begins or ends: then calls
      are refused with that failure, or get the ready sub-connections of current addresses, each once, from the first
      on. Any other report leaves the rotation where it is. */
  lemma ReportRebuilds(trace: seq<Moment>, events: seq<Event>, answers: seq<seq<PickResult>>, i: nat)
    requires IsRun(trace, events, answers) && i < |events| && Counts(trace[i], events[i])
    ensures var m, m', sc, s := trace[i], trace[i + 1], events[i].sc, events[i].s; var b, b' := m.books, m'.books;
            var failed, fails := m.cur == TransientFailure, m'.cur == TransientFailure;
            && b'.addrToSc == b.addrToSc
            && (if failed == fails && (s == Ready <==> b.scToSt[sc] == Ready) then m'.view == m.view
                else if fails then m'.view == Failing(AllInTransientFailure)
                else
                  && m'.view.Turn? && m'.view.next == 0
                  && (forall j, k | 0 <= j < k < |m'.view.scs| :: m'.view.scs[j] != m'.view.scs[k])
                  && forall c :: c in m'.view.scs <==>
                       c in b'.scToSt && b'.scToSt[c] == Ready && exists a :: a in b'.addrToSc && b'.addrToSc[a] == c)
  {
    assert Sound(trace[i + 1]) && Handled(trace[i], events[i], trace[i + 1], answers[i]);
    var b' := trace[i + 1].books;
    forall c
      ensures c in b'.addrToSc.Values <==> exists a :: a in b'.addrToSc && b'.addrToSc[a] == c
    {
    }
  }

  /** What gRPC was told last stays true until the next report: updates and calls change neither the current state nor
      the picker in use, and a report about a forgotten sub-connection changes nothing. */
  lemma AnnouncementStays(trace: seq<Moment>, events: seq<Event>, answers: seq<seq<PickResult>>, i: nat)
    requires IsRun(trace, events, answers) && i < |events| && !Counts(trace[i], events[i])
    ensures trace[i + 1].announced == trace[i].announced && trace[i + 1].cur == trace[i].cur
    ensures events[i].StateChanged? ==> trace[i + 1] == trace[i]
  {
    assert Handled(trace[i], events[i], trace[i + 1], answers[i]);
  }

  /** Reports and calls leave the resolved addresses alone, and an update leaves exactly those it lists, except
      where gRPC refused: the addresses are those of the last update. */
  lemma AddressesOnlyByUpdate(trace: seq<Moment>, events: seq<Event>, answers: seq<seq<PickResult>>, i: nat)
    requires IsRun(trace, events, answers) && i < |events|
    ensures var b, b' := trace[i].books, trace[i + 1].books;
            if events[i].Resolved? && !events[i].err
            then (forall a | a in b'.addrToSc :: a in events[i].addrs)
                 && forall a | a in events[i].addrs && a !in b'.addrToSc :: a !in b.addrToSc && a in b'.refusals
            else b'.addrToSc == b.addrToSc
  {
    var b, b' := trace[i].books, trace[i + 1].books;
    assert Handled(trace[i], events[i], trace[i + 1], answers[i]);
    if events[i].Resolved? && !events[i].err {
      var failed :| Resolves(trace[i], trace[i + 1], events[i].addrs, failed);
      forall a | a in events[i].addrs && a !in b'.addrToSc
        ensures a !in b.addrToSc && a in b'.refusals
      {
        assert a in Listed(events[i].addrs) && a in failed;
      }
    }
  }
}
