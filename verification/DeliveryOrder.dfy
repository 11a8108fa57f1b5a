/** What the live loop of a connection writes in any run, whether or not publishers overlap. */
module DeliveryOrder {
  import opened BusSpec
  import opened EventLog
  import opened Delivery
  import opened DeliveryGuarantees
  import opened DeliveryLimits
  import opened Subscription

  /** The event that the step takes out of the channel of connection c, if any. */
  ghost function Taken(w: World, a: Action, c: nat): seq<Event> {
    if a == Recv(c) && CanRecv(w, c) then [w.bus.chans[w.conns[c].handle].buffer[0]] else []
  }

  /** All events that connection c has taken out of its channel, in order. */
  ghost function Delivered(ordered: bool, acts: seq<Action>, c: nat): seq<Event> {
    if acts == [] then []
    else
      var n := |acts| - 1;
      Delivered(ordered, acts[..n], c) + Taken(Run(ordered, START, acts[..n]), acts[n], c)
  }

  ghost predicate Follows(w: World, c: nat, es: seq<Event>) {
    if c < |w.conns| then
      var conn := w.conns[c];
      && LiveFold(conn.afterID, es).0 == conn.live
      && (conn.phase.Live? ==> LiveFold(conn.afterID, es).1 == conn.lastSent)
      && (conn.phase.Opening? || conn.phase.Registered? || conn.phase.Replaying? ==> es == [])
    else es == []
  }

  lemma StepFollows(ordered: bool, w: World, a: Action, c: nat, es: seq<Event>)
    requires Follows(w, c, es)
    ensures Follows(Step(ordered, w, a), c, es + Taken(w, a, c))
  {
    hide DropAll, FanOutEvent, RegisterSub, ReceiveFrom, FullIds, ListAfter, After, InSent, AboveLog, LiveFold;
    var taken := Taken(w, a, c);
    if taken == [] {
      assert es + taken == es;
      if c < |w.conns| { NothingLive(w.conns[c].afterID); }
      if c < |Step(ordered, w, a).conns| { NothingLive(Step(ordered, w, a).conns[c].afterID); }
    } else {
      FoldNext(w.conns[c].afterID, es, taken[0]);
    }
  }

  lemma {:induction false} NothingLive(after: int)
    ensures LiveFold(after, []) == ([], after)
  {
  }

  /** In every run the live loop has written what LiveFold makes of the events its channel delivered. */
  lemma {:induction false} LiveIsFold(ordered: bool, acts: seq<Action>, c: nat)
    ensures Follows(Run(ordered, START, acts), c, Delivered(ordered, acts, c))
  {
    hide Step, Follows, Taken;
    if acts == [] {
      StartFollows(ordered, c);
    } else {
      var n := |acts| - 1;
      LiveIsFold(ordered, acts[..n], c);
      StepFollows(ordered, Run(ordered, START, acts[..n]), acts[n], c, Delivered(ordered, acts[..n], c));
      RunLast(ordered, START, acts[..n], acts[n]);
      assert acts == acts[..n] + [acts[n]];
    }
  }

  lemma {:induction false} StartFollows(ordered: bool, c: nat)
    ensures Follows(Run(ordered, START, []), c, [])
  {
  }

  /** Events that are not new are passed over. */
  lemma {:induction false} FoldOfNew(after: int, es: seq<Event>)
    ensures LiveFold(after, es) == LiveFold(after, After(es, after))
    ensures LiveFold(after, es).1 >= after
  {
    if es != [] {
      hide After;
      var n := |es| - 1;
      FoldOfNew(after, es[..n]);
      AfterSnoc(es[..n], es[n], after);
      assert es == es[..n] + [es[n]];
      FoldNext(after, es[..n], es[n]);
      if es[n].id > after {
        FoldNext(after, After(es[..n], after), es[n]);
      } else {
        assert After(es[..n], after) + [] == After(es[..n], after);
      }
    }
  }

  /** In every run, with overlapping publishers too: the live loop of a connection, which knows nothing of
      its replay, writes all the new events that its channel delivers exactly when they come in id order. */
  lemma {:induction false} AllDeliveredIsWrittenExactly(ordered: bool, acts: seq<Action>, c: nat)
    requires c < |Run(ordered, START, acts).conns|
    ensures var conn := Run(ordered, START, acts).conns[c];
            var ids := Ids(After(Delivered(ordered, acts, c), conn.afterID));
            && Increasing(conn.afterID, conn.live)
            && (conn.live == ids <==> Increasing(conn.afterID, ids))
  {
    hide Run, After, LiveFold, Delivered;
    LiveIsFold(ordered, acts, c);
    var conn := Run(ordered, START, acts).conns[c];
    var es := Delivered(ordered, acts, c);
    FoldOfNew(conn.afterID, es);
    LiveLoopKeepsAllExactly(conn.afterID, After(es, conn.afterID));
  }
}
