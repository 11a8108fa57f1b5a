/** What became of every event that has been fanned out since a connection registered, whether its channel is
    still open or not. One step. */
module DeliveryFates {
  import opened BusSpec
  import opened EventLog
  import opened Delivery
  import opened DeliveryGuarantees
  import opened DeliveryLimits
  import opened DeliveryOrder
  import opened DeliveryBooks

  // accepted: the channel had room. refused: it was full. unheard: it was no longer in the map.
  datatype Fates = Fates(accepted: seq<Event>, refused: seq<Event>, unheard: seq<Event>)

  const NOTHING: Fates := Fates([], [], [])

  /** What the step adds, for connection c. */
  ghost function Told(ordered: bool, w: World, a: Action, c: nat, t: Fates): Fates {
    var es := FannedBy(ordered, w, a);
    if c >= |w.conns| || w.conns[c].phase.Opening? then t
    else
      var h := w.conns[c].handle;
      if !Listed(w.bus, h) then t.(unheard := t.unheard + es)
      else if |w.bus.chans[h].buffer| < BUFFER_SIZE then t.(accepted := t.accepted + es)
      else t.(refused := t.refused + es)
  }

  /** The fates of all events fanned out in the run since connection c registered. */
  ghost function FatesOf(ordered: bool, acts: seq<Action>, c: nat): Fates {
    if acts == [] then NOTHING
    else
      var n := |acts| - 1;
      Told(ordered, Run(ordered, START, acts[..n]), acts[n], c, FatesOf(ordered, acts[..n], c))
  }

  ghost predicate Apart(a: seq<Event>, b: seq<Event>) {
    forall x, y :: x in a && y in b ==> x.id != y.id
  }

  /** Every one of the events has one fate. */
  ghost predicate Dealt(es: seq<Event>, t: Fates) {
    && DistinctIds(t.accepted)
    && Apart(t.accepted, t.refused) && Apart(t.accepted, t.unheard) && Apart(t.refused, t.unheard)
    && forall e :: e in es <==> e in t.accepted || e in t.refused || e in t.unheard
  }

  lemma DealtSnoc(es: seq<Event>, e: Event, t: Fates)
    requires Dealt(es, t) && forall x :: x in es ==> x.id != e.id
    ensures Dealt(es + [e], t.(accepted := t.accepted + [e]))
    ensures Dealt(es + [e], t.(refused := t.refused + [e]))
    ensures Dealt(es + [e], t.(unheard := t.unheard + [e]))
  {
    var more := t.accepted + [e];
    forall i, j | 0 <= i < j < |more|
      ensures more[i].id != more[j].id
    {
      assert t.accepted[i] in es;
    }
  }

  /** What the channel of a connection has delivered, and what waits in it, is what it accepted, whatever
      became of the channel. */
  ghost predicate Served(w: World, fans: seq<Event>, m: nat, got: seq<Event>, t: Fates, c: Conn) {
    if c.phase.Opening? then got == [] && t == NOTHING
    else
      && m <= |fans| && c.handle < |w.bus.chans|
      && got + w.bus.chans[c.handle].buffer == t.accepted
      && Dealt(fans[m..], t)
  }

  lemma StepAccepts(ordered: bool, w: World, a: Action, got: seq<Event>, t: Fates, c: nat)
    requires Wired(w) && c < |w.conns| && !w.conns[c].phase.Opening? && w.conns[c].handle < |w.bus.chans|
    requires got + w.bus.chans[w.conns[c].handle].buffer == t.accepted
    ensures var (h, now) := (w.conns[c].handle, Step(ordered, w, a).bus.chans);
            h < |now| && got + Taken(w, a, c) + now[h].buffer == Told(ordered, w, a, c, t).accepted
  {
    var h := w.conns[c].handle;
    StepChannel(ordered, w, a, h);
    if a.FanOut? {
      FanOutAccepts(ordered, w, a, got, t, c);
    } else {
      hide Step, Wired, CanRecv, Listed;
      var now := Step(ordered, w, a).bus.chans;
      assert t.accepted + [] == t.accepted;
      if a == Recv(c) && CanRecv(w, c) {
        TakeFeeds(ordered, w, c);
        assert got + Taken(w, a, c) + now[h].buffer == got + (Taken(w, a, c) + now[h].buffer);
      } else {
        assert got + [] == got;
        if a.Recv? { OthersLeaveIt(ordered, w, a.c, c); }
      }
    }
  }

  lemma OthersLeaveIt(ordered: bool, w: World, d: nat, c: nat)
    requires Wired(w) && c < |w.conns| && !w.conns[c].phase.Opening? && (d != c || !CanRecv(w, d))
    ensures w.conns[c].handle < |w.bus.chans|
    ensures Step(ordered, w, Recv(d)).bus.chans[w.conns[c].handle].buffer == w.bus.chans[w.conns[c].handle].buffer
  {
    assert HandleOk(w, w.conns[c]);
    if d < |w.conns| && d != c { OthersTakeElsewhere(ordered, w, d, c); }
  }

  lemma FanOutAccepts(ordered: bool, w: World, a: Action, got: seq<Event>, t: Fates, c: nat)
    requires a.FanOut? && c < |w.conns| && !w.conns[c].phase.Opening? && w.conns[c].handle < |w.bus.chans|
    requires got + w.bus.chans[w.conns[c].handle].buffer == t.accepted
    ensures var (h, now) := (w.conns[c].handle, Step(ordered, w, a).bus.chans);
            h < |now| && got + Taken(w, a, c) + now[h].buffer == Told(ordered, w, a, c, t).accepted
  {
    var b, es := w.bus.chans[w.conns[c].handle].buffer, FannedBy(ordered, w, a);
    assert got + [] == got && t.accepted + [] == t.accepted;
    assert got + (b + es) == (got + b) + es;
  }

  lemma StepDealt(ordered: bool, w: World, a: Action, fans: seq<Event>, m: nat, t: Fates, c: nat)
    requires Books(w, fans) && m <= |fans| && Dealt(fans[m..], t)
    requires c < |w.conns| && !w.conns[c].phase.Opening?
    ensures Dealt((fans + FannedBy(ordered, w, a))[m..], Told(ordered, w, a, c, t))
  {
    var es := FannedBy(ordered, w, a);
    assert (fans + es)[m..] == fans[m..] + es;
    if es == [] {
      assert fans[m..] + es == fans[m..];
      assert t.accepted + es == t.accepted && t.refused + es == t.refused && t.unheard + es == t.unheard;
    } else {
      FannedOnce(w, fans, m, es[0]);
      hide Dealt, Books;
      DealtSnoc(fans[m..], es[0], t);
    }
  }

  lemma FannedOnce(w: World, fans: seq<Event>, m: nat, e: Event)
    requires Books(w, fans) && m <= |fans| && e in w.inflight
    ensures forall x :: x in fans[m..] ==> x.id != e.id
  {
    hide Ascending, DistinctIds;
    PartsAreApart(fans, w.inflight);
  }

  lemma StepServed(ordered: bool, w: World, a: Action, fans: seq<Event>, m: nat, got: seq<Event>, t: Fates, c: nat)
    requires Books(w, fans) && Wired(w) && c < |w.conns| && Served(w, fans, m, got, t, w.conns[c])
    requires w.conns[c].phase.Opening? ==> Taken(w, a, c) == []
    ensures c < |Step(ordered, w, a).conns|
    ensures Served(Step(ordered, w, a), fans + FannedBy(ordered, w, a), if Registers(w, a, c) then |fans| else m,
                   got + Taken(w, a, c), Told(ordered, w, a, c, t), Step(ordered, w, a).conns[c])
  {
    SameConn(ordered, w, a, c);
    hide Step, Wired, Books;
    if Registers(w, a, c) {
      NewChannelIsEmpty(ordered, w, c);
      assert got + Taken(w, a, c) + [] == [] && (fans + FannedBy(ordered, w, a))[|fans|..] == [];
    } else if w.conns[c].phase.Opening? {
      assert got + Taken(w, a, c) == [];
    } else {
      StepAccepts(ordered, w, a, got, t, c);
      StepDealt(ordered, w, a, fans, m, t, c);
    }
  }

  /** A connected channel has refused nothing, and heard of everything. */
  lemma ConnectedHears(w: World, fans: seq<Event>, m: nat, got: seq<Event>, t: Fates, c: Conn)
    requires Fed(w, fans, m, got, c) && Served(w, fans, m, got, t, c) && Connected(w, c)
    ensures t.refused == [] && t.unheard == []
  {
    HasOne(t.refused);
    HasOne(t.unheard);
  }

  lemma HasOne(es: seq<Event>)
    ensures es == [] || exists e :: e in es
  {
    if es != [] {
      assert es[0] in es;
    }
  }
}
