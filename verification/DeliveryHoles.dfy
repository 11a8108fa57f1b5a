/** What a connection leaves behind in any run: holes below the id it saves as checkpoint, events that are
    lost to it, and the channel that it closes. */
module DeliveryHoles {
  import opened BusSpec
  import opened EventLog
  import opened Delivery
  import opened DeliveryGuarantees
  import opened DeliveryLimits
  import opened DeliveryOrder
  import opened DeliveryBooks
  import opened DeliveryFates
  import opened DeliveryAnyOrder
  import opened Subscription

  // ---------- checkpoints ----------

  /** Every new logged id up to the one that the connection would save has been written by it. */
  ghost predicate NoHole(w: World, c: Conn) {
    forall i :: 0 <= i < |w.log| && c.afterID < w.log[i].id <= c.lastSent ==> w.log[i].id in c.Written()
  }

  /** What its channel has not delivered, of the new ids up to the last one sent, has been replayed. */
  ghost predicate RestReplayed(log: seq<Event>, c: Conn, got: seq<Event>) {
    forall i :: 0 <= i < |log| && c.afterID < log[i].id <= c.lastSent && log[i] !in got ==> log[i].id in c.replayed
  }

  /** What a live connection has sent leaves no hole below its last id exactly when no event that its channel
      delivered came after a greater one without a replay, and every smaller new event that the channel has
      not delivered has been replayed. An event that it has not delivered is in exactly one of five places: it
      was fanned out before the connection registered, waits in the channel, is in flight, was refused by the
      full channel, or was fanned out when the channel was no longer listed. */
  lemma {:induction false} LeavesNoHoleExactly(ordered: bool, acts: seq<Action>, c: nat)
    requires var w := Run(ordered, START, acts); c < |w.conns| && w.conns[c].phase.Live?
    ensures var w := Run(ordered, START, acts);
            var (conn, got, t) := (w.conns[c], Delivered(ordered, acts, c), FatesOf(ordered, acts, c));
            && conn.handle < |w.bus.chans| && MarkOf(ordered, acts, c) <= |Fans(ordered, acts)|
            && (NoHole(w, conn) <==> NoneOvertaken(conn, got) && RestReplayed(w.log, conn, got))
            && Placed(w.log, Fans(ordered, acts)[..MarkOf(ordered, acts, c)], got, w.bus.chans[conn.handle].buffer,
                      w.inflight, t)
  {
    hide Run, Fans, MarkOf, Delivered, FatesOf, LiveFold, NoHole, NoneOvertaken, RestReplayed;
    RunBooks(ordered, acts);
    RunTracks(ordered, acts, c);
    LiveIsFold(ordered, acts, c);
    HolesExactly(Run(ordered, START, acts), Fans(ordered, acts), MarkOf(ordered, acts, c), Delivered(ordered, acts, c),
                 FatesOf(ordered, acts, c), Run(ordered, START, acts).conns[c]);
  }

  lemma {:induction false} HolesExactly(w: World, fans: seq<Event>, m: nat, got: seq<Event>, t: Fates, c: Conn)
    requires Books(w, fans) && Tracked(w, fans, m, got, t, c) && c.phase.Live?
    requires (c.live, c.lastSent) == LiveFold(c.afterID, got)
    ensures m <= |fans| && c.handle < |w.bus.chans|
    ensures Placed(w.log, fans[..m], got, w.bus.chans[c.handle].buffer, w.inflight, t)
    ensures NoHole(w, c) <==> NoneOvertaken(c, got) && RestReplayed(w.log, c, got)
  {
    FoldLast(c.afterID, got);
    EachInOnePlace(w, fans, m, got, t, c);
    forall i | 0 <= i < |w.log| && w.log[i].id > c.afterID
      ensures w.log[i].id in c.Written() <==> w.log[i].id in c.replayed || Heard(c, got, w.log[i])
    {
      WrittenExactly(w, fans, m, got, t, c, i);
    }
    hide Books, Tracked, LiveFold, IsRecord, Undelivered, Apart;
    if NoneOvertaken(c, got) && RestReplayed(w.log, c, got) {
      forall i | 0 <= i < |w.log| && c.afterID < w.log[i].id <= c.lastSent
        ensures w.log[i].id in c.replayed || Heard(c, got, w.log[i])
      {
        if w.log[i] in got {
          var k :| 0 <= k < |got| && got[k] == w.log[i];
        }
      }
    }
    if NoHole(w, c) {
      forall k | 0 <= k < |got| && got[k].id > c.afterID
        ensures got[k].id in c.replayed || IsRecord(c.afterID, got, k)
      {
        assert got[k] in w.log;
        var i :| 0 <= i < |w.log| && w.log[i] == got[k];
        OneHeard(c, got, k);
      }
    }
  }

  /** The channel has delivered the event, ahead of all greater ones. */
  ghost predicate Heard(c: Conn, got: seq<Event>, e: Event) {
    exists k :: 0 <= k < |got| && got[k] == e && IsRecord(c.afterID, got, k)
  }

  lemma OneHeard(c: Conn, got: seq<Event>, k: nat)
    requires DistinctIds(got) && k < |got|
    ensures Heard(c, got, got[k]) ==> IsRecord(c.afterID, got, k)
  {
    hide IsRecord;
  }

  lemma {:induction false} WrittenExactly(w: World, fans: seq<Event>, m: nat, got: seq<Event>, t: Fates, c: Conn,
                                          i: nat)
    requires Books(w, fans) && Tracked(w, fans, m, got, t, c) && c.phase.Live?
    requires c.live == LiveFold(c.afterID, got).0 && i < |w.log| && w.log[i].id > c.afterID
    ensures w.log[i].id in c.Written() <==> w.log[i].id in c.replayed || Heard(c, got, w.log[i])
  {
    EachInOnePlace(w, fans, m, got, t, c);
    hide LiveFold, IsRecord, Undelivered;
    if w.log[i] in got {
      var k :| 0 <= k < |got| && got[k] == w.log[i];
      DeliveredWritten(w, fans[..m], got, c, i, k);
      OneHeard(c, got, k);
    } else {
      UndeliveredWritten(w, fans[..m], got, c, i);
    }
  }

  /** When a live connection started from a safe point, the id it would save as checkpoint is safe exactly when
      every new event up to it that was neither replayed to it nor delivered to it ahead of all greater ones
      has been sent to its subscriber by another connection. */
  lemma {:induction false} CheckpointIsSafeExactly(ordered: bool, acts: seq<Action>, c: nat)
    requires var w := Run(ordered, START, acts);
             && c < |w.conns| && w.conns[c].phase.Live? && w.conns[c].sub in w.base
             && SafePoint(w, w.conns[c].sub, w.conns[c].afterID)
    ensures var w := Run(ordered, START, acts);
            var (conn, got) := (w.conns[c], Delivered(ordered, acts, c));
            SafePoint(w, conn.sub, conn.lastSent) <==>
            forall i :: 0 <= i < |w.log| && conn.afterID < w.log[i].id <= conn.lastSent
                        && w.base[conn.sub] < w.log[i].id
                        && w.log[i].id !in conn.replayed && !Heard(conn, got, w.log[i])
                        ==> InSent(w, conn.sub, w.log[i].id)
  {
    hide Run, Fans, MarkOf, Delivered, FatesOf, LiveFold, SafePoint, Heard, InSent;
    RunBooks(ordered, acts);
    RunTracks(ordered, acts, c);
    LiveIsFold(ordered, acts, c);
    SafeExactly(Run(ordered, START, acts), Fans(ordered, acts), MarkOf(ordered, acts, c), Delivered(ordered, acts, c),
                FatesOf(ordered, acts, c), c);
  }

  lemma {:induction false} SafeExactly(w: World, fans: seq<Event>, m: nat, got: seq<Event>, t: Fates, c: nat)
    requires c < |w.conns| && w.conns[c].phase.Live? && w.conns[c].sub in w.base
    requires Books(w, fans) && Tracked(w, fans, m, got, t, w.conns[c])
    requires (w.conns[c].live, w.conns[c].lastSent) == LiveFold(w.conns[c].afterID, got)
    requires SafePoint(w, w.conns[c].sub, w.conns[c].afterID)
    ensures var conn := w.conns[c];
            SafePoint(w, conn.sub, conn.lastSent) <==>
            forall i :: 0 <= i < |w.log| && conn.afterID < w.log[i].id <= conn.lastSent
                        && w.base[conn.sub] < w.log[i].id
                        && w.log[i].id !in conn.replayed && !Heard(conn, got, w.log[i])
                        ==> InSent(w, conn.sub, w.log[i].id)
  {
    var conn := w.conns[c];
    FoldLast(conn.afterID, got);
    EachInOnePlace(w, fans, m, got, t, conn);
    forall i | 0 <= i < |w.log| && w.log[i].id > conn.afterID
      ensures w.log[i].id in conn.replayed || Heard(conn, got, w.log[i]) ==> InSent(w, conn.sub, w.log[i].id)
    {
      WrittenExactly(w, fans, m, got, t, conn, i);
    }
    LastIsLogged(w, got, conn);
    hide Books, Tracked, LiveFold, Undelivered, Apart, Heard, InSent;
  }

  lemma {:induction false} LastIsLogged(w: World, got: seq<Event>, c: Conn)
    requires Ascending(w.log) && forall e :: e in got ==> e in w.log
    requires c.lastSent == LiveFold(c.afterID, got).1
    ensures c.lastSent == c.afterID || !AboveLog(w.log, c.lastSent)
  {
    FoldLast(c.afterID, got);
    hide LiveFold;
    if c.lastSent != c.afterID {
      var j :| 0 <= j < |got| && got[j].id == c.lastSent;
      assert got[j] in w.log;
    }
  }

  // ---------- the channel that a connection closes ----------

  /** The deferred Unregister names its subscriber, not its channel: in any run it closes exactly the open
      channel that is registered for that subscriber at the time, whosever it is. */
  lemma {:induction false} UnregisterClosesExactly(ordered: bool, acts: seq<Action>, c: nat, h: nat)
    requires var w := Run(ordered, START, acts);
             c < |w.conns| && w.conns[c].phase.Leaving? && h < |w.bus.chans|
    ensures var w := Run(ordered, START, acts);
            var r := Step(ordered, w, UnregisterConn(c));
            && h < |r.bus.chans|
            && (r.bus.chans[h].closes != w.bus.chans[h].closes
                <==> w.bus.chans[h].closes == 0 && w.bus.chans[h].owner == w.conns[c].sub)
  {
    RunBooks(ordered, acts);
    var w := Run(ordered, START, acts);
    hide Run, Books, Buffered;
    OpenIsListed(w.bus, h);
  }

  // ---------- what is lost to a connection stays lost ----------

  /** The event is nowhere on its way to the connection, which has its replay behind it. */
  ghost predicate Gone(w: World, c: nat, e: Event) {
    && c < |w.conns| && (w.conns[c].phase.Live? || w.conns[c].phase.Leaving? || w.conns[c].phase.Closed?)
    && !AboveLog(w.log, e.id) && Ascending(w.log)
    && e.id !in w.conns[c].Written()
    && (forall f :: f in w.inflight ==> f.id != e.id)
    && (w.conns[c].handle < |w.bus.chans| ==> forall f :: f in w.bus.chans[w.conns[c].handle].buffer ==> f.id != e.id)
  }

  lemma StepStaysGone(ordered: bool, w: World, a: Action, c: nat, e: Event)
    requires Gone(w, c, e) && Wired(w)
    ensures Gone(Step(ordered, w, a), c, e)
  {
    var h := w.conns[c].handle;
    assert HandleOk(w, w.conns[c]);
    ChannelGains(ordered, w, a, h);
    GoneConn(ordered, w, a, c, e);
    hide BusInv, DropAll, FanOutEvent, RegisterSub, ReceiveFrom, FullIds, ListAfter, After, InSent, LiveStep, CanRecv;
  }

  lemma GoneConn(ordered: bool, w: World, a: Action, c: nat, e: Event)
    requires Gone(w, c, e)
    ensures var r := Step(ordered, w, a);
            && c < |r.conns| && r.conns[c].handle == w.conns[c].handle && e.id !in r.conns[c].Written()
            && (r.conns[c].phase.Live? || r.conns[c].phase.Leaving? || r.conns[c].phase.Closed?)
  {
    hide DropAll, FanOutEvent, RegisterSub, ReceiveFrom, FullIds, ListAfter, After, InSent, AboveLog, Ascending;
  }

  lemma {:induction false} RunStaysGone(ordered: bool, w: World, acts: seq<Action>, c: nat, e: Event)
    requires Gone(w, c, e) && Wired(w)
    ensures Gone(Run(ordered, w, acts), c, e)
    decreases |acts|
  {
    hide Gone, Wired, Step;
    if acts != [] {
      StepStaysGone(ordered, w, acts[0], c, e);
      StepWired(ordered, w, acts[0]);
      RunStaysGone(ordered, Step(ordered, w, acts[0]), acts[1..], c, e);
    }
  }

  /** A connection that has missed an event never writes it, whatever happens later. */
  lemma {:induction false} MissedByTheConnectionForGood(ordered: bool, before: seq<Action>, more: seq<Action>,
                                                        c: nat, i: nat)
    requires var w := Run(ordered, START, before);
             && c < |w.conns| && w.conns[c].phase.Live? && w.conns[c].handle < |w.bus.chans| && i < |w.log|
             && !InHand(w, w.conns[c], i)
    ensures var r := Run(ordered, START, before + more);
            c < |r.conns| && Run(ordered, START, before).log[i].id !in r.conns[c].Written()
  {
    RunBooks(ordered, before);
    var w := Run(ordered, START, before);
    hide Run, Wired;
    MissedIsGone(w, Fans(ordered, before), c, i);
    RunConcat(ordered, START, before, more);
    RunStaysGone(ordered, w, more, c, w.log[i]);
  }

  lemma MissedIsGone(w: World, fans: seq<Event>, c: nat, i: nat)
    requires Books(w, fans) && Wired(w) && c < |w.conns| && w.conns[c].phase.Live? && w.conns[c].handle < |w.bus.chans|
    requires Buffered(w) && i < |w.log| && !InHand(w, w.conns[c], i)
    ensures Gone(w, c, w.log[i])
  {
    hide BusInv;
    forall f | f in w.inflight || f in w.bus.chans[w.conns[c].handle].buffer
      ensures f.id != w.log[i].id
    {
      assert f in fans + w.inflight || f in w.log;
      var j :| 0 <= j < |w.log| && w.log[j] == f;
      SameId(w.log, i, j);
    }
  }
}
