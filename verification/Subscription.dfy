/** The tables of internal/storage/sqlite_event_sub.go and the handler of internal/service/subscription.go,
    one call at a time; module Delivery interleaves their steps. */
module Subscription {
  import opened BusSpec
  import opened EventLog
  import opened EventBus
  import opened Prelude
  import D = Delivery
  import G = DeliveryGuarantees

  lemma QueryInPlain(events: seq<Event>, after: int, limit: int)
    requires Ascending(events)
    ensures var rows := EventLog.ListAfter(events, after, limit);
            && Ascending(rows) && (forall e :: e in rows ==> e in events && e.id > after)
            && forall e :: e in events && e.id > after ==>
                 || e in rows
                 || (|rows| == (if limit <= 0 then 100 else if limit > 1000 then 1000 else limit)
                     && forall x :: x in rows ==> x.id < e.id)
  {
    var rows := EventLog.ListAfter(events, after, limit);
    var p := |events| - |After(events, after)|;
    QueryIsStretch(events, after, limit);
    hide EventLog.ListAfter, After;
    StretchRows(events, after, p, rows);
  }

  lemma StretchRows(events: seq<Event>, after: int, p: nat, rows: seq<Event>)
    requires Ascending(events) && p + |rows| <= |events| && rows == events[p..p + |rows|]
    requires forall i :: 0 <= i < |events| ==> (events[i].id > after <==> i >= p)
    ensures Ascending(rows) && forall e :: e in rows ==> e in events && e.id > after
    ensures forall e :: e in events && e.id > after ==>
              e in rows || (p + |rows| < |events| && forall x :: x in rows ==> x.id < e.id)
  {
    assert forall k :: 0 <= k < |rows| ==> rows[k] == events[p + k] && events[p + k] in events;
    forall e | e in events && e.id > after
      ensures e in rows || (p + |rows| < |events| && forall x :: x in rows ==> x.id < e.id)
    {
      var i :| 0 <= i < |events| && events[i] == e;
      if i < p + |rows| {
        assert rows[i - p] == e;
      }
    }
  }

  class EventRepo {
    var events: seq<Event>
    var sequence: int  // AUTOINCREMENT: at least every id ever given out

    ghost predicate Valid()
      reads this
    {
      Ascending(events) && forall e :: e in events ==> e.id <= sequence
    }

    constructor ()
      ensures Valid() && events == []
    {
      events := [];
      sequence := 0;
    }

    /** fails stands for an error of the INSERT. */
    method Append(body: string, fails: bool) returns (id: Option<int>)
      requires Valid()
      modifies this
      ensures Valid() && (id.None? <==> fails)
      ensures id.None? ==> events == old(events)
      ensures id.Some? ==> events == old(events) + [Event(id.value, body)] && D.AboveLog(old(events), id.value)
    {
      if fails {
        return None;
      }
      sequence := sequence + 1;
      events := events + [Event(sequence, body)];
      return Some(sequence);
    }

    /** The rows of the query, scanned one by one. */
    method ListAfter(afterID: int, limit: int) returns (rows: seq<Event>)
      ensures rows == EventLog.ListAfter(events, afterID, limit)
      ensures |rows| <= if limit <= 0 then 100 else if limit > 1000 then 1000 else limit
      ensures Ascending(events) ==>
                && Ascending(rows) && (forall e :: e in rows ==> e in events && e.id > afterID)
                && forall e :: e in events && e.id > afterID ==>
                     || e in rows
                     || (|rows| == (if limit <= 0 then 100 else if limit > 1000 then 1000 else limit)
                         && forall x :: x in rows ==> x.id < e.id)
    {
      hide Ascending;
      rows := [];
      for i := 0 to |events|
        invariant rows == EventLog.ListAfter(events[..i], afterID, limit)
      {
        assert events[..i + 1] == events[..i] + [events[i]];
        AfterSnoc(events[..i], events[i], afterID);
        if events[i].id > afterID && |rows| < ClampLimit(limit) {
          rows := rows + [events[i]];
        }
      }
      assert events[..|events|] == events;
      if Ascending(events) { QueryInPlain(events, afterID, limit); }
    }
  }

  class SubscriberRepo {
    var lastEventID: map<string, int>

    constructor ()
      ensures lastEventID == map[]
    {
      lastEventID := map[];
    }

    /** An UPDATE: a missing row is not created. fails stands for an error of the database. */
    method UpdateCheckpoint(id: string, last: int, fails: bool) returns (ok: bool)
      modifies this
      ensures ok <==> !fails
      ensures lastEventID == if ok && id in old(lastEventID) then old(lastEventID)[id := last] else old(lastEventID)
    {
      ok := !fails;
      if ok && id in lastEventID {
        lastEventID := lastEventID[id := last];
      }
    }
  }

  /** Publish, when nothing comes between its phases. An append that fails ends it with nothing done. */
  method Publish(bus: Bus, repo: EventRepo, body: string, fails: bool) returns (id: Option<int>)
    requires bus.Valid() && repo.Valid()
    modifies repo, bus`state, bus`subscribers, bus.issued
    ensures bus.Valid() && repo.Valid()
    ensures id.None? <==> fails
    ensures id.None? ==> repo.events == old(repo.events) && bus.state == old(bus.state)
    ensures id.Some? ==>
              && repo.events == old(repo.events) + [Event(id.value, body)] && D.AboveLog(old(repo.events), id.value)
              && bus.state == DropAll(FanOutEvent(old(bus.state), Event(id.value, body)), FullIds(old(bus.state)))
  {
    hide FanOutEvent, DropAll, BusInv, FullIds, Ascending;
    id := repo.Append(body, fails);
    if id.Some? {
      Spread(bus, Event(id.value, body));
    }
  }

  /** The two phases of Publish on the bus. */
  method Spread(bus: Bus, e: Event)
    requires bus.Valid()
    modifies bus`state, bus`subscribers, bus.issued
    ensures bus.Valid() && bus.state == DropAll(FanOutEvent(old(bus.state), e), FullIds(old(bus.state)))
  {
    hide *;
    ghost var full := FullIds(bus.state);
    var toEvict := bus.FanOut(e);
    assert (set s | s in toEvict) == full;
    if |toEvict| > 0 {
      bus.Evict(toEvict);
    } else {
      assert full == {};
      DropNone(bus.state);
    }
  }

  lemma DropNone(b: BusState)
    ensures DropAll(b, {}) == b
  {
    assert DropAll(b, {}).subs == b.subs;
    assert DropAll(b, {}).chans == b.chans;
  }

  /** The ids the live loop writes and the lastSentID it reaches, event by event. */
  function LiveFold(after: int, es: seq<Event>): (seq<int>, int) {
    if es == [] then ([], after)
    else
      var (live, last) := LiveFold(after, es[..|es| - 1]);
      D.LiveStep(live, last, es[|es| - 1].id)
  }

  /** The live loop writes every event of its channel exactly when they arrive in increasing order,
      above the starting id. Fan-outs of concurrent publishers in the wrong order lose events. */
  lemma {:induction false} LiveLoopKeepsAllExactly(after: int, es: seq<Event>)
    ensures LiveFold(after, es).0 == Ids(es) <==> G.Increasing(after, Ids(es))
    ensures |LiveFold(after, es).0| <= |es|
    ensures LiveFold(after, es).1 == D.LastOf(after, LiveFold(after, es).0)
    ensures G.Increasing(after, LiveFold(after, es).0)
  {
    if es != [] {
      var n := |es| - 1;
      LiveLoopKeepsAllExactly(after, es[..n]);
      IncreasingNext(after, Ids(es[..n]), es[n].id);
      IncreasingNext(after, LiveFold(after, es[..n]).0, es[n].id);
      assert Ids(es) == Ids(es[..n]) + [es[n].id];
    }
  }

  lemma IncreasingNext(after: int, ids: seq<int>, id: int)
    ensures G.Increasing(after, ids + [id]) <==> G.Increasing(after, ids) && id > D.LastOf(after, ids)
  {
    var next := ids + [id];
    assert forall k :: 0 <= k < |ids| ==> ids[k] == next[k];
    assert next[|ids|] == id;
  }

  /** Event k is new and no earlier one is as new. */
  ghost predicate IsRecord(after: int, es: seq<Event>, k: nat)
    requires k < |es|
  {
    es[k].id > after && forall j :: 0 <= j < k ==> es[j].id < es[k].id
  }

  lemma {:induction false} FoldLast(after: int, es: seq<Event>)
    ensures var last := LiveFold(after, es).1;
            && last >= after && (forall j :: 0 <= j < |es| ==> es[j].id <= last)
            && (last == after || exists j :: 0 <= j < |es| && es[j].id == last)
  {
    if es != [] {
      var n := |es| - 1;
      FoldLast(after, es[..n]);
      if j :| 0 <= j < n && es[..n][j].id == LiveFold(after, es[..n]).1 {
        assert es[j].id == LiveFold(after, es[..n]).1;
      }
      assert forall j :: 0 <= j < n ==> es[j] == es[..n][j];
    }
  }

  /** The live loop writes exactly the records of what its channel delivers. */
  lemma {:induction false} FoldWritesRecords(after: int, es: seq<Event>, id: int)
    ensures id in LiveFold(after, es).0 <==> exists k :: 0 <= k < |es| && es[k].id == id && IsRecord(after, es, k)
  {
    if es != [] {
      var n := |es| - 1;
      FoldWritesRecords(after, es[..n], id);
      FoldLast(after, es[..n]);
      assert forall j :: 0 <= j < n ==> es[j] == es[..n][j];
      assert IsRecord(after, es, n) <==> es[n].id > LiveFold(after, es[..n]).1;
      if k :| 0 <= k < n && es[..n][k].id == id && IsRecord(after, es[..n], k) {
        assert IsRecord(after, es, k);
      }
      if k :| 0 <= k < n && es[k].id == id && IsRecord(after, es, k) {
        assert IsRecord(after, es[..n], k);
      }
    }
  }

  // What happens to a connection in its live loop: the select picks one of its three cases, or another
  // goroutine gets hold of the bus. A case that is not ready is never picked, which leaves everything as it is.
  datatype Round = CtxDone | SeesDone | TakesEvent | Others(a: Env)

  function AfterRound(now: BusState, h: nat, round: Round): BusState {
    match round
    case TakesEvent => ReceiveFrom(now, h)
    case Others(a) => EnvStep(now, a)
    case _ => now
  }

  /** The event, if any, that channel h delivers in the round. */
  function Delivering(now: BusState, h: nat, round: Round): seq<Event> {
    if round.TakesEvent? && h < |now.chans| && now.chans[h].buffer != [] then [now.chans[h].buffer[0]] else []
  }

  /** The event, if any, that reaches channel h in the round: sent to its subscriber while it is listed and
      has room. */
  function Arriving(now: BusState, h: nat, round: Round): seq<Event> {
    if round.Others? && round.a.Sends? && Listed(now, h) && now.chans[h].owner == round.a.id
       && |now.chans[h].buffer| < BUFFER_SIZE
    then [round.a.e] else []
  }

  /** The bus after these rounds, and the events that channel h has delivered in them. */
  function Rounds(b: BusState, h: nat, rounds: seq<Round>): (BusState, seq<Event>) {
    if rounds == [] then (b, [])
    else
      var n := |rounds| - 1;
      var (now, received) := Rounds(b, h, rounds[..n]);
      (AfterRound(now, h, rounds[n]), received + Delivering(now, h, rounds[n]))
  }

  /** The round ends the loop. */
  predicate Ends(now: BusState, h: nat, round: Round) {
    round.CtxDone? || (round.SeesDone? && h < |now.chans| && now.chans[h].closes > 0)
  }

  /** The loop goes on for n rounds and then ends, unless the script does. */
  ghost predicate EndsAfter(b: BusState, h: nat, rounds: seq<Round>, n: nat) {
    && n <= |rounds|
    && (forall k :: 0 <= k < n ==> !Ends(Rounds(b, h, rounds[..k]).0, h, rounds[k]))
    && (n < |rounds| ==> Ends(Rounds(b, h, rounds[..n]).0, h, rounds[n]))
  }

  function Reaching(b: BusState, h: nat, rounds: seq<Round>): seq<Event> {
    if rounds == [] then []
    else
      var n := |rounds| - 1;
      Reaching(b, h, rounds[..n]) + Arriving(Rounds(b, h, rounds[..n]).0, h, rounds[n])
  }

  lemma EnvOnChannel(b: BusState, a: Env, h: nat)
    requires BusInv(b) && h < |b.chans|
    ensures BusInv(EnvStep(b, a)) && h < |EnvStep(b, a).chans|
    ensures EnvStep(b, a).chans[h].buffer == b.chans[h].buffer + Arriving(b, h, Others(a))
  {
    match a {
      case Joins(id) => BusStepKeepsInv(b, Register(id));
      case Leaves(id) => BusStepKeepsInv(b, Unregister(id));
      case Sends(id, e) => BusStepKeepsInv(b, Send(id, e));
      case Evicts(ids) => BusStepKeepsInv(b, EvictIds(set id | id in ids));
    }
  }

  /** A channel is first in, first out: what it delivers, and then what waits in it, is what waited before
      and then what reached it. */
  lemma {:induction false} ChannelIsFifo(b: BusState, h: nat, rounds: seq<Round>)
    requires BusInv(b) && h < |b.chans|
    ensures var (now, received) := Rounds(b, h, rounds);
            && BusInv(now) && h < |now.chans|
            && received + now.chans[h].buffer == b.chans[h].buffer + Reaching(b, h, rounds)
  {
    if rounds != [] {
      hide BusInv, Arriving, Delivering, AfterRound;
      var n := |rounds| - 1;
      ChannelIsFifo(b, h, rounds[..n]);
      var (now, received) := Rounds(b, h, rounds[..n]);
      RoundIsFifo(now, h, rounds[n]);
      Regroup(received, Delivering(now, h, rounds[n]), AfterRound(now, h, rounds[n]).chans[h].buffer,
              now.chans[h].buffer, Arriving(now, h, rounds[n]), b.chans[h].buffer, Reaching(b, h, rounds[..n]));
    }
  }

  lemma Regroup(received: seq<Event>, taken: seq<Event>, after: seq<Event>, before: seq<Event>, arrived: seq<Event>,
                base: seq<Event>, reached: seq<Event>)
    requires received + before == base + reached && taken + after == before + arrived
    ensures (received + taken) + after == base + (reached + arrived)
  {
    calc {
      (received + taken) + after;
      received + (before + arrived);
      (base + reached) + arrived;
      base + (reached + arrived);
    }
  }

  lemma RoundIsFifo(now: BusState, h: nat, round: Round)
    requires BusInv(now) && h < |now.chans|
    ensures var next := AfterRound(now, h, round);
            && BusInv(next) && h < |next.chans|
            && Delivering(now, h, round) + next.chans[h].buffer == now.chans[h].buffer + Arriving(now, h, round)
  {
    hide BusInv, EnvStep, ReceiveFrom;
    match round {
      case Others(a) => EnvOnChannel(now, a, h);
      case TakesEvent => TakeFromChannel(now, h);
      case _ =>
    }
  }

  lemma TakeFromChannel(b: BusState, h: nat)
    requires BusInv(b) && h < |b.chans|
    ensures BusInv(ReceiveFrom(b, h)) && h < |ReceiveFrom(b, h).chans|
    ensures b.chans[h].buffer == [] ==> ReceiveFrom(b, h) == b
    ensures b.chans[h].buffer != [] ==> [b.chans[h].buffer[0]] + ReceiveFrom(b, h).chans[h].buffer == b.chans[h].buffer
  {
    BusStepKeepsInv(b, BusSpec.Receive(h));
  }

  lemma {:induction false} RoundsNext(b: BusState, h: nat, rounds: seq<Round>, n: nat)
    requires n < |rounds|
    ensures var (now, received) := Rounds(b, h, rounds[..n]);
            Rounds(b, h, rounds[..n + 1]) == (AfterRound(now, h, rounds[n]), received + Delivering(now, h, rounds[n]))
  {
    assert rounds[..n + 1][..n] == rounds[..n];
  }

  lemma {:induction false} NothingFolded(b: BusState, h: nat, rounds: seq<Round>, after: int)
    ensures Rounds(b, h, rounds[..0]) == (b, []) && LiveFold(after, []) == ([], after)
  {
  }

  lemma {:induction false} FoldNext(after: int, es: seq<Event>, e: Event)
    ensures var (live, last) := LiveFold(after, es); LiveFold(after, es + [e]) == D.LiveStep(live, last, e.id)
  {
    assert (es + [e])[..|es|] == es;
  }

  /** The select loop on its channel, on a script of its rounds; ended tells how many it took to leave. */
  method LiveLoop(bus: Bus, sc: SubscriberChannel, afterID: int, rounds: seq<Round>)
    returns (live: seq<int>, lastSentID: int, ended: nat)
    requires bus.Valid() && sc.handle < |bus.issued| && bus.issued[sc.handle] == sc
    modifies bus, bus.issued
    ensures bus.Valid() && EndsAfter(old(bus.state), sc.handle, rounds, ended)
    ensures var (now, received) := Rounds(old(bus.state), sc.handle, rounds[..ended]);
            bus.state == now && (live, lastSentID) == LiveFold(afterID, received)
    ensures ended < |rounds| ==> rounds[ended].CtxDone? || (rounds[ended].SeesDone? && sc.done)
    ensures forall k :: 0 <= k < ended ==> !rounds[k].CtxDone?
    ensures old(bus.issued) <= bus.issued && forall i :: |old(bus.issued)| <= i < |bus.issued| ==> fresh(bus.issued[i])
  {
    hide LiveFold, Rounds, EnvStep, ReceiveFrom, BusInv;
    ghost var b, h := bus.state, sc.handle;
    ghost var received: seq<Event> := [];
    NothingFolded(b, h, rounds, afterID);
    live, lastSentID, ended := [], afterID, 0;
    while ended < |rounds|
      invariant ended <= |rounds| && bus.Valid() && sc.handle < |bus.issued| && bus.issued[sc.handle] == sc
      invariant old(bus.issued) <= bus.issued
      invariant forall i :: |old(bus.issued)| <= i < |bus.issued| ==> fresh(bus.issued[i])
      invariant forall k :: 0 <= k < ended ==> !Ends(Rounds(b, h, rounds[..k]).0, h, rounds[k])
      invariant forall k :: 0 <= k < ended ==> !rounds[k].CtxDone?
      invariant Rounds(b, h, rounds[..ended]) == (bus.state, received)
      invariant (live, lastSentID) == LiveFold(afterID, received)
    {
      RoundsNext(b, h, rounds, ended);
      assert received + [] == received;
      assert bus.state.chans[h] == Channel(sc.id, sc.ch, if sc.done then 1 else 0);
      match rounds[ended] {
        case CtxDone => return;
        case SeesDone =>
          if sc.done {
            return;
          }
        case TakesEvent =>
          TakeFromChannel(bus.state, h);
          if sc.ch != [] {
            var event := bus.Take(sc);
            FoldNext(afterID, received, event);
            received := received + [event];
            if event.id > lastSentID {
              live, lastSentID := live + [event.id], event.id;
            }
          }
        case Others(a) => bus.Perform(a);
      }
      ended := ended + 1;
    }
  }

  /** replayEvents: writes row after row until the context is done, here before the row number cut; fails
      stands for an error of the query. */
  method ReplayEvents(repo: EventRepo, afterID: int, fails: bool, cut: nat) returns (replayed: seq<int>, complete: bool)
    ensures var rows := EventLog.ListAfter(repo.events, afterID, D.REPLAY_LIMIT);
            && (complete <==> !fails && |rows| <= cut)
            && replayed == if fails then [] else Ids(if complete then rows else rows[..cut])
  {
    replayed := [];
    complete := !fails;
    if fails {
      return;
    }
    var events := repo.ListAfter(afterID, D.REPLAY_LIMIT);
    var i := 0;
    while i < |events|
      invariant 0 <= i <= |events| && i <= cut
      invariant replayed == Ids(events[..i])
    {
      if i == cut {
        complete := false;
        return;
      }
      IdsSnoc(events, 0, i);
      assert events[0..i] == events[..i] && events[0..i + 1] == events[..i + 1];
      replayed := replayed + [events[i].id];
      i := i + 1;
    }
    assert events[..|events|] == events;
  }

  // How one call of HandleSSE ended, and what it wrote.
  datatype Outcome =
    | NotFound
    | Cut(replayed: seq<int>)
    | Streamed(replayed: seq<int>, live: seq<int>, lastSentID: int)

  // How the database and the context treat one call: whether the replay query fails, before which row the
  // context ends, and whether the save of the checkpoint fails.
  datatype Faults = Faults(query: bool, cut: nat, save: bool)

  function Streaming(rows: seq<Event>, faults: Faults, after: int, incoming: seq<Event>): Outcome {
    if faults.query then Cut([])
    else if faults.cut < |rows| then Cut(Ids(rows[..faults.cut]))
    else
      var (live, last) := LiveFold(after, incoming);
      Streamed(Ids(rows), live, last)
  }

  /** A replay in terms of the table: ids of rows above the starting id, in increasing order, at most 500, none
      left out below the last one; and when it is complete with fewer than 500, none left out at all. */
  ghost predicate RowsAbove(events: seq<Event>, after: int, replayed: seq<int>, complete: bool) {
    && |replayed| <= 500
    && (forall k :: 0 <= k < |replayed| ==> after < replayed[k] && exists e :: e in events && e.id == replayed[k])
    && (forall j, k :: 0 <= j < k < |replayed| ==> replayed[j] < replayed[k])
    && (forall e :: e in events && e.id > after ==>
          || e.id in replayed
          || ((!complete || |replayed| == 500) && forall k :: 0 <= k < |replayed| ==> replayed[k] < e.id))
  }

  /** What a live loop makes of the events its channel delivers: in increasing order exactly those that are above
      the starting id and above all that came before them. */
  ghost predicate NewOnes(after: int, received: seq<Event>, live: seq<int>) {
    && (forall j, k :: 0 <= j < k < |live| ==> live[j] < live[k])
    && (forall id :: id in live <==>
          exists k :: 0 <= k < |received| && received[k].id == id && received[k].id > after
                      && forall j :: 0 <= j < k ==> received[j].id < received[k].id)
  }

  /** A stretch of the table in terms of its ids: in order, above the starting id, none left out below the last
      one, and none at all when it reaches the end. */
  lemma StretchInPlain(events: seq<Event>, after: int, p: nat, n: nat)
    requires Ascending(events) && p + n <= |events|
    requires forall i :: 0 <= i < |events| ==> (events[i].id > after <==> i >= p)
    ensures var ids := Ids(events[p..p + n]);
            && |ids| == n && G.Increasing(after, ids)
            && (forall k :: 0 <= k < n ==> exists e :: e in events && e.id == ids[k])
            && (forall e :: e in events && e.id > after ==>
                  e.id in ids || (p + n < |events| && forall k :: 0 <= k < n ==> ids[k] < e.id))
  {
    var ids := Ids(events[p..p + n]);
    assert forall k :: 0 <= k < n ==> ids[k] == events[p + k].id;
    forall k | 0 <= k < n
      ensures exists e :: e in events && e.id == ids[k]
    {
      assert events[p + k] in events;
    }
    forall e | e in events && e.id > after
      ensures e.id in ids || (p + n < |events| && forall k :: 0 <= k < n ==> ids[k] < e.id)
    {
      var i :| 0 <= i < |events| && events[i] == e;
      if i < p + n {
        assert ids[i - p] == e.id;
      }
    }
  }

  /** The part of HandleSSE after registration. Only a loop that ends with the context saves a checkpoint. */
  method Stream(bus: Bus, sc: SubscriberChannel, repo: EventRepo, subs: SubscriberRepo, id: string, afterID: int,
                rounds: seq<Round>, faults: Faults)
    returns (out: Outcome, n: nat)
    requires bus.Valid() && sc.handle < |bus.issued| && bus.issued[sc.handle] == sc && id in subs.lastEventID
    modifies bus, bus.issued, subs
    ensures bus.Valid() && n <= |rounds|
    ensures var (now, received) := Rounds(old(bus.state), sc.handle, rounds[..n]);
            && bus.state == now
            && out == Streaming(EventLog.ListAfter(repo.events, afterID, D.REPLAY_LIMIT), faults, afterID, received)
    ensures if out.Streamed? then EndsAfter(old(bus.state), sc.handle, rounds, n) else n == 0
    ensures !out.NotFound? && (Ascending(repo.events) ==> RowsAbove(repo.events, afterID, out.replayed, out.Streamed?))
    ensures out.Streamed? ==>
              && NewOnes(afterID, Rounds(old(bus.state), sc.handle, rounds[..n]).1, out.live)
              && out.lastSentID == (if out.live == [] then afterID else out.live[|out.live| - 1])
              && (n < |rounds| ==> rounds[n].CtxDone? || rounds[n].SeesDone?)
    ensures subs.lastEventID ==
            if out.Streamed? && n < |rounds| && rounds[n].CtxDone? && !faults.save
            then old(subs.lastEventID)[id := out.lastSentID] else old(subs.lastEventID)
    ensures old(bus.issued) <= bus.issued && forall i :: |old(bus.issued)| <= i < |bus.issued| ==> fresh(bus.issued[i])
  {
    hide LiveFold, EndsAfter, Rounds, BusInv, EventLog.ListAfter, RowsAbove, NewOnes, Ascending;
    n := 0;
    NothingFolded(bus.state, sc.handle, rounds, afterID);
    var replayed, complete := ReplayEvents(repo, afterID, faults.query, faults.cut);
    if !complete {
      out := Cut(replayed);
      StreamInPlain(repo.events, faults, afterID, [], out);
      return;
    }
    var live, lastSentID;
    live, lastSentID, n := LiveLoop(bus, sc, afterID, rounds);
    EndsInTime(old(bus.state), sc.handle, rounds, n);
    if n < |rounds| && rounds[n].CtxDone? {
      var saved := subs.UpdateCheckpoint(id, lastSentID, faults.save);
    }
    out := Streamed(replayed, live, lastSentID);
    StreamInPlain(repo.events, faults, afterID, Rounds(old(bus.state), sc.handle, rounds[..n]).1, out);
  }

  lemma EndsInTime(b: BusState, h: nat, rounds: seq<Round>, n: nat)
    requires EndsAfter(b, h, rounds, n)
    ensures n <= |rounds|
    ensures n < |rounds| ==> rounds[n].CtxDone? || rounds[n].SeesDone?
  {
  }

  /** The whole of HandleSSE, from the lookup to the deferred Unregister. It starts at the larger of checkpoint
      and header, replays the rows above that, and then writes what is new of what the channel it registers
      delivers, while others use the bus. A call that ends with the context saves the last id it has sent live,
      or the one it started at. */
  method HandleSSE(bus: Bus, repo: EventRepo, subs: SubscriberRepo, id: string, header: Option<int>,
                   rounds: seq<Round>, faults: Faults)
    returns (out: Outcome, n: nat, ghost after: int)
    requires bus.Valid()
    modifies bus, bus.issued, subs
    ensures bus.Valid() && n <= |rounds|
    ensures out.NotFound? <==> id !in old(subs.lastEventID)
    ensures out.NotFound? ==> bus.state == old(bus.state) && subs.lastEventID == old(subs.lastEventID)
    ensures !out.NotFound? ==>
              var (b, h) := (RegisterSub(old(bus.state), id), |old(bus.state).chans|);
              var (now, received) := Rounds(b, h, rounds[..n]);
              && bus.state == DropAll(now, {id})
              && out == Streaming(EventLog.ListAfter(repo.events, after, D.REPLAY_LIMIT), faults, after, received)
              && (if out.Streamed? then EndsAfter(b, h, rounds, n) else n == 0)
    ensures !out.NotFound? ==>
              var checkpoint := old(subs.lastEventID)[id];
              && after >= checkpoint && (header.Some? ==> after >= header.value)
              && (after == checkpoint || header == Some(after))
    ensures !out.NotFound? && Ascending(repo.events) ==> RowsAbove(repo.events, after, out.replayed, out.Streamed?)
    ensures out.Streamed? ==>
              NewOnes(after, Rounds(RegisterSub(old(bus.state), id), |old(bus.state).chans|, rounds[..n]).1, out.live)
    ensures out.Streamed? ==>
              && out.lastSentID == (if out.live == [] then after else out.live[|out.live| - 1])
              && (n < |rounds| ==> rounds[n].CtxDone? || rounds[n].SeesDone?)
    ensures subs.lastEventID ==
            if out.Streamed? && n < |rounds| && rounds[n].CtxDone? && !faults.save
            then old(subs.lastEventID)[id := out.lastSentID] else old(subs.lastEventID)
  {
    hide *;
    if id !in subs.lastEventID {
      out, n, after := NotFound, 0, 0;
      return;
    }
    var sc := bus.Register(id);
    var afterID := subs.lastEventID[id];
    if header.Some? && header.value > afterID {
      afterID := header.value;
    }
    after := afterID;
    out, n := Stream(bus, sc, repo, subs, id, afterID, rounds, faults);
    bus.Unregister(id);
  }

  lemma StreamInPlain(events: seq<Event>, faults: Faults, after: int, received: seq<Event>, out: Outcome)
    requires out == Streaming(EventLog.ListAfter(events, after, D.REPLAY_LIMIT), faults, after, received)
    ensures Ascending(events) ==> RowsAbove(events, after, out.replayed, out.Streamed?)
    ensures out.Streamed? ==> NewOnes(after, received, out.live)
    ensures out.Streamed? ==> out.lastSentID == if out.live == [] then after else out.live[|out.live| - 1]
  {
    hide RowsAbove, NewOnes;
    if Ascending(events) { ReplayInPlain(events, faults, after, received, out); }
    LiveLoopKeepsAllExactly(after, received);
    LiveInPlain(after, received);
  }

  lemma PrefixOfStretch(events: seq<Event>, p: nat, rows: seq<Event>, n: nat)
    requires n <= |rows| && p + |rows| <= |events| && rows == events[p..p + |rows|]
    ensures rows[..n] == events[p..p + n]
  {
  }

  lemma ReplayInPlain(events: seq<Event>, faults: Faults, after: int, received: seq<Event>, out: Outcome)
    requires out == Streaming(EventLog.ListAfter(events, after, D.REPLAY_LIMIT), faults, after, received)
    requires Ascending(events)
    ensures RowsAbove(events, after, out.replayed, out.Streamed?)
  {
    var rows := EventLog.ListAfter(events, after, D.REPLAY_LIMIT);
    var p := |events| - |After(events, after)|;
    QueryIsStretch(events, after, D.REPLAY_LIMIT);
    hide LiveFold, EventLog.ListAfter, Ascending, After;
    var n := if faults.query then 0 else if faults.cut < |rows| then faults.cut else |rows|;
    assert Ids([]) == [] && events[p..p + 0] == [];
    PrefixOfStretch(events, p, rows, n);
    assert rows[..|rows|] == rows;
    assert out.replayed == Ids(events[p..p + n]);
    StretchInPlain(events, after, p, n);
  }

  lemma {:induction false} LiveInPlain(after: int, received: seq<Event>)
    ensures NewOnes(after, received, LiveFold(after, received).0)
  {
    hide LiveFold;
    LiveLoopKeepsAllExactly(after, received);
    forall id: int
      ensures id in LiveFold(after, received).0 <==>
              exists k :: 0 <= k < |received| && received[k].id == id && IsRecord(after, received, k)
    {
      FoldWritesRecords(after, received, id);
    }
  }
}
