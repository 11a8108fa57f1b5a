/** The in-memory fan-out of internal/service/eventbus.go, first on plain values and then as the
    classes that update it. A channel is named by its handle, its position in the order of creation. */
module BusSpec {
  const BUFFER_SIZE: nat := 256

  datatype Event = Event(id: int, body: string)

  // closes counts how often the Done channel was closed: Go panics on the second close.
  datatype Channel = Channel(owner: string, buffer: seq<Event>, closes: nat)

  datatype BusState = BusState(subs: map<string, nat>, chans: seq<Channel>)

  const EMPTY_BUS: BusState := BusState(map[], [])

  predicate Listed(b: BusState, h: nat) {
    h < |b.chans| && b.chans[h].owner in b.subs && b.subs[b.chans[h].owner] == h
  }

  /** A subscriber with no room left: the default branch of the send in Publish. */
  predicate Full(b: BusState, id: string) {
    id in b.subs && b.subs[id] < |b.chans| && |b.chans[b.subs[id]].buffer| >= BUFFER_SIZE
  }

  function FullIds(b: BusState): set<string> {
    set id | id in b.subs && Full(b, id)
  }

  function Enqueue(c: Channel, e: Event): Channel {
    if |c.buffer| < BUFFER_SIZE then c.(buffer := c.buffer + [e]) else c
  }

  function CloseDone(c: Channel): Channel {
    c.(closes := c.closes + 1)
  }

  /** Delete the ids and close their channels: Unregister, and the second phase of Publish. */
  function DropAll(b: BusState, ids: set<string>): BusState {
    BusState(b.subs - ids,
             seq(|b.chans|, h requires 0 <= h < |b.chans| =>
               if Listed(b, h) && b.chans[h].owner in ids then CloseDone(b.chans[h]) else b.chans[h]))
  }

  function RegisterSub(b: BusState, id: string): BusState {
    var cleared := DropAll(b, {id});
    BusState(cleared.subs[id := |cleared.chans|], cleared.chans + [Channel(id, [], 0)])
  }

  function FanOutEvent(b: BusState, e: Event): BusState {
    b.(chans := seq(|b.chans|, h requires 0 <= h < |b.chans| =>
         if Listed(b, h) then Enqueue(b.chans[h], e) else b.chans[h]))
  }

  function SendTo(b: BusState, id: string, e: Event): BusState {
    if id in b.subs && b.subs[id] < |b.chans|
    then b.(chans := b.chans[b.subs[id] := Enqueue(b.chans[b.subs[id]], e)])
    else b
  }

  function ReceiveFrom(b: BusState, h: nat): BusState {
    if h < |b.chans| && b.chans[h].buffer != []
    then b.(chans := b.chans[h := b.chans[h].(buffer := b.chans[h].buffer[1..])])
    else b
  }

  // Every write a bus can see. Sends and evictions are single steps on one id, so a run may
  // interleave any number of publishers, each cut anywhere between its two phases.
  datatype BusAction =
    | Register(id: string)
    | Unregister(id: string)
    | Send(id: string, e: Event)
    | EvictIds(ids: set<string>)
    | Receive(h: nat)

  function BusStep(b: BusState, a: BusAction): BusState {
    match a
    case Register(id) => RegisterSub(b, id)
    case Unregister(id) => DropAll(b, {id})
    case Send(id, e) => SendTo(b, id, e)
    case EvictIds(ids) => DropAll(b, ids)
    case Receive(h) => ReceiveFrom(b, h)
  }

  // What goroutines other than the owner of a channel do to the bus; receives of others touch their own
  // channels only.
  datatype Env = Joins(id: string) | Leaves(id: string) | Sends(id: string, e: Event) | Evicts(ids: seq<string>)

  function EnvStep(b: BusState, a: Env): BusState {
    match a
    case Joins(id) => BusStep(b, Register(id))
    case Leaves(id) => BusStep(b, Unregister(id))
    case Sends(id, e) => BusStep(b, Send(id, e))
    case Evicts(ids) => BusStep(b, EvictIds(set id | id in ids))
  }

  function BusRun(b: BusState, acts: seq<BusAction>): BusState
    decreases |acts|
  {
    if acts == [] then b else BusRun(BusStep(b, acts[0]), acts[1..])
  }

  ghost predicate BusInv(b: BusState) {
    && (forall id :: id in b.subs ==> b.subs[id] < |b.chans| && b.chans[b.subs[id]].owner == id)
    && (forall h :: 0 <= h < |b.chans| ==>
          && b.chans[h].closes <= 1
          && (b.chans[h].closes == 0 <==> Listed(b, h))
          && |b.chans[h].buffer| <= BUFFER_SIZE)
  }

  lemma BusStepKeepsInv(b: BusState, a: BusAction)
    requires BusInv(b)
    ensures BusInv(BusStep(b, a))
  {
    match a {
      case Register(id) => DropKeepsInv(b, {id}); RegisterKeepsInv(b, id);
      case Unregister(id) => DropKeepsInv(b, {id});
      case Send(id, e) =>
      case EvictIds(ids) => DropKeepsInv(b, ids);
      case Receive(h) =>
    }
  }

  lemma DropKeepsInv(b: BusState, ids: set<string>)
    requires BusInv(b)
    ensures BusInv(DropAll(b, ids))
  {
    var r := DropAll(b, ids);
    forall h | 0 <= h < |r.chans|
      ensures r.chans[h].closes <= 1 && (r.chans[h].closes == 0 <==> Listed(r, h))
      ensures |r.chans[h].buffer| <= BUFFER_SIZE
    {
      assert b.chans[h].closes == 0 <==> Listed(b, h);
    }
  }

  lemma DropOne(b: BusState, id: string)
    requires BusInv(b)
    ensures id !in b.subs ==> DropAll(b, {id}) == b
    ensures id in b.subs ==>
              DropAll(b, {id}) == BusState(b.subs - {id}, b.chans[b.subs[id] := CloseDone(b.chans[b.subs[id]])])
  {
    var d := DropAll(b, {id});
    if id in b.subs {
      assert d.chans == b.chans[b.subs[id] := CloseDone(b.chans[b.subs[id]])];
    } else {
      assert d.subs == b.subs && d.chans == b.chans;
    }
  }

  lemma DropTwice(b: BusState, first: set<string>, second: set<string>)
    requires BusInv(b)
    ensures DropAll(DropAll(b, first), second) == DropAll(b, first + second)
  {
    var d := DropAll(b, first);
    forall h | 0 <= h < |b.chans|
      ensures DropAll(d, second).chans[h] == DropAll(b, first + second).chans[h]
    {
      assert Listed(d, h) <==> Listed(b, h) && b.chans[h].owner !in first;
    }
    assert DropAll(d, second).chans == DropAll(b, first + second).chans;
    assert DropAll(d, second).subs == DropAll(b, first + second).subs;
  }

  lemma RegisterKeepsInv(b: BusState, id: string)
    requires BusInv(b)
    ensures BusInv(RegisterSub(b, id))
  {
    DropKeepsInv(b, {id});
    var d := DropAll(b, {id});
    var r := RegisterSub(b, id);
    forall h | 0 <= h < |r.chans|
      ensures r.chans[h].closes == 0 <==> Listed(r, h)
    {
      if h < |d.chans| {
        assert r.chans[h] == d.chans[h];
        assert d.chans[h].closes == 0 <==> Listed(d, h);
      }
    }
  }

  lemma FanOutKeepsInv(b: BusState, e: Event)
    requires BusInv(b)
    ensures BusInv(FanOutEvent(b, e))
  {
    var r := FanOutEvent(b, e);
    forall h | 0 <= h < |r.chans|
      ensures r.chans[h].closes == 0 <==> Listed(r, h)
    {
      assert b.chans[h].closes == 0 <==> Listed(b, h);
    }
  }

  /** In every interleaving of registrations, removals, sends, receives and evictions a channel is
      in the subscriber map exactly while its Done is open, Done is never closed a second time and
      no buffer outgrows its capacity. */
  lemma {:induction false} CloseOnceInEveryRun(acts: seq<BusAction>)
    ensures var b := BusRun(EMPTY_BUS, acts);
            && (forall h :: 0 <= h < |b.chans| ==> b.chans[h].closes <= 1 && |b.chans[h].buffer| <= 256)
            && (forall h :: 0 <= h < |b.chans| ==> (b.chans[h].closes == 0 <==> Listed(b, h)))
            && (forall id :: id in b.subs ==> b.subs[id] < |b.chans| && b.chans[b.subs[id]].owner == id)
  {
    BusRunKeepsInv(EMPTY_BUS, acts);
  }

  lemma {:induction false} BusRunKeepsInv(b: BusState, acts: seq<BusAction>)
    requires BusInv(b)
    ensures BusInv(BusRun(b, acts))
    decreases |acts|
  {
    if acts != [] {
      BusStepKeepsInv(b, acts[0]);
      BusRunKeepsInv(BusStep(b, acts[0]), acts[1..]);
    }
  }

  predicate Distinct(s: seq<string>) {
    forall i, j :: 0 <= i < j < |s| ==> s[i] != s[j]
  }

  function SendAll(b: BusState, order: seq<string>, e: Event): BusState
    decreases |order|
  {
    if order == [] then b else SendAll(SendTo(b, order[0], e), order[1..], e)
  }

  lemma {:induction false} SendAllSnoc(b: BusState, order: seq<string>, id: string, e: Event)
    ensures SendAll(b, order + [id], e) == SendTo(SendAll(b, order, e), id, e)
    decreases |order|
  {
    if order == [] {
      assert [id][1..] == [];
    } else {
      SendAllSnoc(SendTo(b, order[0], e), order[1..], id, e);
      assert (order + [id])[1..] == order[1..] + [id];
    }
  }

  lemma {:induction false} SendNext(b: BusState, order: seq<string>, id: string, e: Event)
    requires BusInv(b) && id in b.subs && id !in order
    requires Distinct(order)
    ensures SendAll(b, order + [id], e) == SendTo(SendAll(b, order, e), id, e)
    ensures Full(SendAll(b, order, e), id) == Full(b, id)
    ensures Distinct(order + [id])
  {
    SendAllEffect(b, order, e);
    SendAllSnoc(b, order, id, e);
  }

  /** Go visits the subscriber map in any order: one send for each id, in whatever order, is FanOutEvent. */
  lemma {:induction false} FanOutInAnyOrder(b: BusState, order: seq<string>, e: Event)
    requires BusInv(b)
    requires Distinct(order)
    requires forall id :: id in order <==> id in b.subs
    ensures SendAll(b, order, e) == FanOutEvent(b, e)
  {
    SendAllEffect(b, order, e);
    var s, f := SendAll(b, order, e), FanOutEvent(b, e);
    forall h | 0 <= h < |b.chans|
      ensures s.chans[h] == f.chans[h]
    {
      assert Listed(b, h) ==> b.chans[h].owner in order;
    }
    assert s.chans == f.chans;
  }

  /** What a fan-out does to each listed subscriber: a channel with room takes the event at its end, a full one
      keeps its 256 events and is found full. */
  lemma FanOutOnEach(b: BusState, e: Event)
    requires BusInv(b)
    ensures var r := FanOutEvent(b, e);
            && r.subs == b.subs && |r.chans| == |b.chans|
            && forall id :: id in b.subs ==>
                 var h := b.subs[id];
                 && (|b.chans[h].buffer| < 256 ==>
                       r.chans[h] == b.chans[h].(buffer := b.chans[h].buffer + [e]) && id !in FullIds(b))
                 && (|b.chans[h].buffer| >= 256 ==> r.chans[h] == b.chans[h] && id in FullIds(b))
  {
  }

  /** What dropping ids does: they leave the map and their channels are closed, all others stay as they are. */
  lemma DropOnEach(b: BusState, ids: set<string>)
    requires BusInv(b)
    ensures var r := DropAll(b, ids);
            && |r.chans| == |b.chans|
            && (forall id :: id in r.subs <==> id in b.subs && id !in ids)
            && (forall id :: id in b.subs && id in ids ==> r.chans[b.subs[id]] == b.chans[b.subs[id]].(closes := 1))
            && (forall id :: id in b.subs && id !in ids ==>
                  r.subs[id] == b.subs[id] && r.chans[b.subs[id]] == b.chans[b.subs[id]])
            && forall h :: 0 <= h < |b.chans| && b.chans[h].closes == 1 ==> r.chans[h] == b.chans[h]
  {
  }

  /** A whole publication on each listed subscriber: it has the event, or it is gone and its channel closed. */
  lemma PublishOnEach(b: BusState, e: Event)
    requires BusInv(b)
    ensures var r := DropAll(FanOutEvent(b, e), FullIds(b));
            && |r.chans| == |b.chans|
            && (forall id :: id in r.subs <==> id in b.subs && |b.chans[b.subs[id]].buffer| < 256)
            && forall id :: id in b.subs ==>
                 var h := b.subs[id];
                 && (|b.chans[h].buffer| < 256 ==>
                       r.subs[id] == h && r.chans[h] == b.chans[h].(buffer := b.chans[h].buffer + [e]))
                 && (|b.chans[h].buffer| >= 256 ==>
                       r.chans[h].buffer == b.chans[h].buffer && r.chans[h].closes == 1)
  {
    FanOutOnEach(b, e);
  }

  /** Of what goes on while publishers share the read lock, the part that reaches one channel. */
  function OnChannel(acts: seq<BusAction>, id: string, h: nat): seq<BusAction>
    decreases |acts|
  {
    if acts == [] then []
    else (if acts[0] == Receive(h) || (acts[0].Send? && acts[0].id == id) then [acts[0]] else [])
         + OnChannel(acts[1..], id, h)
  }

  /** Under the shared read lock the fan-outs of several publishers mix, and may reach two channels in opposite
      orders. To each listed channel only the order of what reaches it matters. */
  lemma {:induction false} OneChannelAtATime(b: BusState, acts: seq<BusAction>, id: string)
    requires BusInv(b) && id in b.subs
    requires forall k :: 0 <= k < |acts| ==> acts[k].Send? || acts[k].Receive?
    ensures var (h, r) := (b.subs[id], BusRun(b, acts));
            var own := BusRun(b, OnChannel(acts, id, h));
            && r.subs == own.subs == b.subs && h < |r.chans| == |own.chans| == |b.chans|
            && r.chans[h] == own.chans[h]
  {
    SameOnChannel(b, b, acts, id);
  }

  lemma {:induction false} SameOnChannel(b: BusState, d: BusState, acts: seq<BusAction>, id: string)
    requires BusInv(b) && id in b.subs && d.subs == b.subs && |d.chans| == |b.chans|
    requires d.chans[b.subs[id]] == b.chans[b.subs[id]]
    requires forall k :: 0 <= k < |acts| ==> acts[k].Send? || acts[k].Receive?
    ensures var (h, r) := (b.subs[id], BusRun(b, acts));
            var own := BusRun(d, OnChannel(acts, id, h));
            && r.subs == own.subs == b.subs && |r.chans| == |own.chans| == |b.chans|
            && r.chans[h] == own.chans[h]
    decreases |acts|
  {
    if acts != [] {
      var (h, a, rest) := (b.subs[id], acts[0], acts[1..]);
      BusStepKeepsInv(b, a);
      if a == Receive(h) || (a.Send? && a.id == id) {
        assert OnChannel(acts, id, h)[0] == a && OnChannel(acts, id, h)[1..] == OnChannel(rest, id, h);
        SameOnChannel(BusStep(b, a), BusStep(d, a), rest, id);
      } else {
        assert OnChannel(acts, id, h) == OnChannel(rest, id, h);
        SameOnChannel(BusStep(b, a), d, rest, id);
      }
    }
  }

  lemma {:induction false} SendAllEffect(b: BusState, order: seq<string>, e: Event)
    requires BusInv(b)
    requires Distinct(order)
    ensures var s := SendAll(b, order, e);
            && s.subs == b.subs && |s.chans| == |b.chans|
            && forall h :: 0 <= h < |b.chans| ==>
                 s.chans[h] == if Listed(b, h) && b.chans[h].owner in order then Enqueue(b.chans[h], e) else b.chans[h]
    decreases |order|
  {
    if order != [] {
      var b1 := SendTo(b, order[0], e);
      BusStepKeepsInv(b, Send(order[0], e));
      var rest := order[1..];
      SendAllEffect(b1, rest, e);
      assert order == [order[0]] + rest;
      var s := SendAll(b, order, e);
      forall h | 0 <= h < |b.chans|
        ensures s.chans[h] == if Listed(b, h) && b.chans[h].owner in order then Enqueue(b.chans[h], e) else b.chans[h]
      {
        assert b.chans[h].owner == b1.chans[h].owner;
        assert Listed(b1, h) == Listed(b, h);
        if Listed(b, h) && b.chans[h].owner == order[0] {
          assert order[0] !in rest;
        }
      }
    }
  }
}

/** The same bus as the objects of eventbus.go: a map of channel objects changed under a lock. */
module EventBus {
  import opened BusSpec

  class SubscriberChannel {
    const id: string
    ghost const handle: nat
    var ch: seq<Event>
    var done: bool

    constructor (id: string, ghost handle: nat)
      ensures this.id == id && this.handle == handle && ch == [] && !done
    {
      this.id := id;
      this.handle := handle;
      ch := [];
      done := false;
    }

    // Closing a closed Go channel panics, so the caller must know that Done is open.
    method CloseDone()
      requires !done
      modifies this`done
      ensures done
    {
      done := true;
    }

    method Receive() returns (e: Event)
      requires ch != []
      modifies this`ch
      ensures e == old(ch)[0] && ch == old(ch)[1..]
    {
      e := ch[0];
      ch := ch[1..];
    }

    method TrySend(e: Event) returns (sent: bool)
      modifies this`ch
      ensures sent <==> |old(ch)| < 256
      ensures ch == if sent then old(ch) + [e] else old(ch)
    {
      sent := |ch| < BUFFER_SIZE;
      if sent {
        ch := ch + [e];
      }
    }
  }

  class Bus {
    var subscribers: map<string, SubscriberChannel>
    ghost var issued: seq<SubscriberChannel>  // every channel ever made, by handle
    ghost var state: BusState                 // the value of BusSpec these objects stand for

    ghost predicate Valid()
      reads this, issued
    {
      && |state.chans| == |issued|
      && (forall i :: 0 <= i < |issued| ==>
            issued[i].handle == i
            && state.chans[i] == Channel(issued[i].id, issued[i].ch, if issued[i].done then 1 else 0))
      && state.subs.Keys == subscribers.Keys
      && (forall id :: id in subscribers ==>
            state.subs[id] < |issued| && issued[state.subs[id]] == subscribers[id])
      && BusInv(state)
    }

    constructor ()
      ensures Valid() && state == EMPTY_BUS
    {
      subscribers := map[];
      issued := [];
      state := EMPTY_BUS;
    }

    method Unregister(id: string)
      requires Valid()
      modifies this`subscribers, this`state, issued
      ensures Valid()
      ensures state == DropAll(old(state), {id})
    {
      DropKeepsInv(state, {id});
      DropOne(state, id);
      if id in subscribers {
        var sc := subscribers[id];
        ghost var h := state.subs[id];
        assert state.chans[h].closes == 0;
        subscribers := subscribers - {id};
        sc.CloseDone();
        state := BusState(state.subs - {id}, state.chans[h := CloseDone(state.chans[h])]);
      }
    }

    method Register(id: string) returns (sc: SubscriberChannel)
      requires Valid()
      modifies this, issued
      ensures Valid() && fresh(sc) && issued == old(issued) + [sc] && sc.handle == |old(issued)| == |old(state).chans|
      ensures state == RegisterSub(old(state), id)
      ensures id in subscribers && subscribers[id] == sc
      ensures sc.id == id && sc.ch == [] && !sc.done
    {
      RegisterKeepsInv(state, id);
      Unregister(id);
      hide DropAll, BusInv;
      sc := Issue(id);
    }

    /** A new channel, listed under the id in place of whatever is listed there. */
    method Issue(id: string) returns (sc: SubscriberChannel)
      requires Valid() && BusInv(BusState(state.subs[id := |state.chans|], state.chans + [Channel(id, [], 0)]))
      modifies this
      ensures Valid() && fresh(sc) && issued == old(issued) + [sc]
      ensures state == BusState(old(state).subs[id := |old(state).chans|], old(state).chans + [Channel(id, [], 0)])
      ensures id in subscribers && subscribers[id] == sc
      ensures sc.id == id && sc.ch == [] && !sc.done
    {
      hide BusInv;
      sc := new SubscriberChannel(id, |issued|);
      subscribers := subscribers[id := sc];
      state := BusState(state.subs[id := |state.chans|], state.chans + [Channel(id, [], 0)]);
      issued := issued + [sc];
    }

    method SendOne(id: string, e: Event) returns (sent: bool)
      requires Valid() && id in subscribers
      modifies this`state, issued
      ensures Valid()
      ensures state == SendTo(old(state), id, e)
      ensures sent <==> !Full(old(state), id)
    {
      ghost var h := state.subs[id];
      BusStepKeepsInv(state, BusSpec.Send(id, e));
      sent := subscribers[id].TrySend(e);
      state := state.(chans := state.chans[h := Enqueue(state.chans[h], e)]);
    }

    /** First phase of Publish, under the read lock: a non-blocking send to every subscriber. */
    method FanOut(e: Event) returns (toEvict: seq<string>)
      requires Valid()
      modifies this`state, issued
      ensures Valid()
      ensures state == FanOutEvent(old(state), e)
      ensures forall id :: id in toEvict <==> id in FullIds(old(state))
      ensures forall id :: id in toEvict <==> id in subscribers && |old(subscribers[id].ch)| >= 256
      ensures forall id :: id in subscribers ==>
                subscribers[id].ch == if |old(subscribers[id].ch)| < 256 then old(subscribers[id].ch) + [e]
                                      else old(subscribers[id].ch)
    {
      ghost var before := state;
      ghost var order: seq<string> := [];
      toEvict := [];
      var todo := subscribers.Keys;
      while todo != {}
        invariant Valid()
        invariant forall id :: id in before.subs <==> id in order || id in todo
        invariant forall id :: id in todo ==> id !in order
        invariant Distinct(order)
        invariant state == SendAll(before, order, e)
        invariant forall id :: id in toEvict <==> id in order && Full(before, id)
        decreases todo
      {
        var id :| id in todo;
        SendNext(before, order, id, e);
        todo := todo - {id};
        order := order + [id];
        var sent := SendOne(id, e);
        if !sent {
          toEvict := toEvict + [id];
        }
      }
      FanOutInAnyOrder(before, order, e);
      FanOutOnEach(before, e);
    }

    /** Second phase of Publish, under the write lock and possibly much later. */
    method Evict(toEvict: seq<string>)
      requires Valid()
      modifies this`subscribers, this`state, issued
      ensures Valid()
      ensures state == DropAll(old(state), set id | id in toEvict)
    {
      ghost var before := state;
      assert DropAll(before, {}) == before by {
        assert DropAll(before, {}).subs == before.subs;
        assert DropAll(before, {}).chans == before.chans;
      }
      ghost var gone := {};
      for i := 0 to |toEvict|
        invariant Valid()
        invariant gone == set id | id in toEvict[..i]
        invariant state == DropAll(before, gone)
      {
        Unregister(toEvict[i]);
        DropTwice(before, gone, {toEvict[i]});
        gone := gone + {toEvict[i]};
      }
      assert toEvict[..|toEvict|] == toEvict;
    }

    /** A receive by the owner of a channel. */
    method Take(sc: SubscriberChannel) returns (e: Event)
      requires Valid() && sc.handle < |issued| && issued[sc.handle] == sc && sc.ch != []
      modifies this`state, sc`ch
      ensures Valid()
      ensures state == ReceiveFrom(old(state), sc.handle)
      ensures e == old(sc.ch)[0]
    {
      BusStepKeepsInv(state, BusSpec.Receive(sc.handle));
      hide BusInv;
      e := sc.Receive();
      state := ReceiveFrom(state, sc.handle);
    }

    /** What another goroutine does to the bus. */
    method Perform(a: Env)
      requires Valid()
      modifies this, issued
      ensures Valid() && state == EnvStep(old(state), a)
      ensures state == match a
                       case Joins(id) => RegisterSub(old(state), id)
                       case Leaves(id) => DropAll(old(state), {id})
                       case Sends(id, e) => SendTo(old(state), id, e)
                       case Evicts(ids) => DropAll(old(state), set id | id in ids)
      ensures old(issued) <= issued && forall i :: |old(issued)| <= i < |issued| ==> fresh(issued[i])
    {
      hide BusInv, DropAll;
      match a {
        case Joins(id) => var sc := Register(id);
        case Leaves(id) => Unregister(id);
        case Evicts(ids) => Evict(ids);
        case Sends(id, e) =>
          if id in subscribers {
            var sent := SendOne(id, e);
          }
      }
    }
  }
}
