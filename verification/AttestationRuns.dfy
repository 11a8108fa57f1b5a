/** Attestation as it runs without attestationMu: the form is read, and saved in a later step. With the
    lock no other attestation comes between the two. */
module AttestationRuns {
  import opened Prelude
  import opened Attestations

  // A signature as it is stored: the party, the signer and the time, which is in whole seconds.
  type Signature = (string, string, int)

  // A request that has read its form and still has to save it; seen says how often the form had been
  // saved by then.
  datatype Job = Job(call: Call, base: Form, seen: nat)

  // saves and asked are history: how often each form has been saved, and the signatures that requests have
  // brought for it.
  datatype World = World(forms: map<string, Form>, jobs: map<nat, Job>, saves: map<string, nat>,
                         asked: set<(string, Signature)>)

  datatype Action =
    | Read(client: nat, call: Call)
    | Save(client: nat)

  function Start(forms: map<string, Form>): World {
    World(forms, map[], map id | id in forms :: 0, {})
  }

  function Saves(w: World, id: string): nat {
    if id in w.saves then w.saves[id] else 0
  }

  function SignatureOf(c: Call): Signature {
    (c.req.party, c.req.signer, c.now)
  }

  function Signatures(f: Form): set<Signature> {
    (if f.outboundSignedAt.Some? then {(OUTBOUND, f.outboundSigner, f.outboundSignedAt.value)} else {})
    + (if f.arrivalSignedAt.Some? then {(ARRIVAL, f.arrivalSigner, f.arrivalSignedAt.value)} else {})
  }

  predicate CanRead(locked: bool, w: World, client: nat, c: Call) {
    && client !in w.jobs && (locked ==> w.jobs == map[])
    && c.req.formID in w.forms && MaySign(w.forms[c.req.formID], c.req.party)
  }

  /** One step. A save whose transaction fails only ends the request. */
  function Step(locked: bool, w: World, a: Action): World {
    match a
    case Read(client, c) =>
      if CanRead(locked, w, client, c)
      then w.(jobs := w.jobs[client := Job(c, w.forms[c.req.formID], Saves(w, c.req.formID))],
              asked := w.asked + {(c.req.formID, SignatureOf(c))})
      else w
    case Save(client) =>
      if client !in w.jobs then w
      else
        var j := w.jobs[client];
        var id := j.call.req.formID;
        if j.call.saved
        then World(w.forms[id := Signed(j.base, j.call)], w.jobs - {client}, w.saves[id := Saves(w, id) + 1], w.asked)
        else w.(jobs := w.jobs - {client})
  }

  function Run(locked: bool, w: World, acts: seq<Action>): World
    decreases |acts|
  {
    if acts == [] then w else Run(locked, Step(locked, w, acts[0]), acts[1..])
  }

  /** Every signature of the one form is in the other. */
  predicate Keeps(cur: Form, next: Form) {
    Signatures(cur) <= Signatures(next)
  }

  /** A form that a registered one may become: what may still be signed is not signed. */
  predicate WellSigned(f: Form) {
    && (MaySign(f, OUTBOUND) ==> f.outboundSignedAt == None)
    && (MaySign(f, ARRIVAL) ==> f.arrivalSignedAt == None)
  }

  /** A request in flight: while nobody else saves its form it holds the stored form. */
  predicate JobOk(w: World, j: Job) {
    var id := j.call.req.formID;
    && id in w.forms && j.seen <= Saves(w, id)
    && MaySign(j.base, j.call.req.party) && WellSigned(j.base)
    && (j.seen == Saves(w, id) ==> w.forms[id] == j.base)
  }

  ghost predicate Inv(w: World) {
    && (forall id :: id in w.forms ==> WellSigned(w.forms[id]))
    && (forall c :: c in w.jobs ==> JobOk(w, w.jobs[c]))
  }

  ghost predicate AllRegistered(forms: map<string, Form>) {
    forall id :: id in forms ==> Registered(forms[id])
  }

  lemma StartIsInv(forms: map<string, Form>)
    requires AllRegistered(forms)
    ensures Inv(Start(forms)) && DistinctInv(Start(forms))
  {
    assert forall id :: id in forms ==> Signatures(forms[id]) == {};
  }

  lemma SignedForm(base: Form, c: Call)
    requires WellSigned(base) && MaySign(base, c.req.party)
    ensures WellSigned(Signed(base, c))
    ensures Signatures(Signed(base, c)) == Signatures(base) + {SignatureOf(c)}
  {
    assert OUTBOUND[0] != ARRIVAL[0];
  }

  lemma StepKeepsInv(locked: bool, w: World, a: Action)
    requires Inv(w)
    ensures Inv(Step(locked, w, a))
  {
    hide MaySign, WellSigned, Signed, Signatures;
    var r := Step(locked, w, a);
    if a.Save? && a.client in w.jobs {
      assert JobOk(w, w.jobs[a.client]);
      SignedForm(w.jobs[a.client].base, w.jobs[a.client].call);
    }
    forall d | d in r.jobs
      ensures JobOk(r, r.jobs[d])
    {
      assert d in w.jobs ==> JobOk(w, w.jobs[d]);
    }
  }

  lemma {:induction false} RunKeepsInv(locked: bool, w: World, acts: seq<Action>)
    requires Inv(w)
    ensures Inv(Run(locked, w, acts))
    decreases |acts|
  {
    hide Inv;
    if acts != [] {
      StepKeepsInv(locked, w, acts[0]);
      RunKeepsInv(locked, Step(locked, w, acts[0]), acts[1..]);
    }
  }

  /** In any run, locked or not: a save keeps all signatures of its form exactly when each of them is its own
      or one that the request has read, as they all are when nobody else has saved the form since. */
  lemma {:induction false} SaveKeepsSignaturesExactly(locked: bool, forms: map<string, Form>, acts: seq<Action>,
                                                      client: nat)
    requires AllRegistered(forms)
    requires var w := Run(locked, Start(forms), acts); client in w.jobs && w.jobs[client].call.saved
    ensures var w := Run(locked, Start(forms), acts);
            var (j, r) := (w.jobs[client], Step(locked, w, Save(client)));
            var id := j.call.req.formID;
            && id in w.forms && id in r.forms
            && (Keeps(w.forms[id], r.forms[id]) <==>
                Signatures(w.forms[id]) <= Signatures(j.base) + {SignatureOf(j.call)})
            && (Saves(w, id) == j.seen ==> Keeps(w.forms[id], r.forms[id]))
  {
    StartIsInv(forms);
    hide Run, Start, Signatures, Signed;
    RunKeepsInv(locked, Start(forms), acts);
    var w := Run(locked, Start(forms), acts);
    assert JobOk(w, w.jobs[client]);
    SignedForm(w.jobs[client].base, w.jobs[client].call);
  }

  // ---------- when no request is repeated within its second ----------

  /** No two requests that read a form bring the same signature for it. */
  ghost predicate DistinctRequests(locked: bool, w: World, acts: seq<Action>)
    decreases |acts|
  {
    acts == [] || (!Repeats(locked, w, acts[0]) && DistinctRequests(locked, Step(locked, w, acts[0]), acts[1..]))
  }

  predicate Repeats(locked: bool, w: World, a: Action) {
    && a.Read? && CanRead(locked, w, a.client, a.call)
    && (a.call.req.formID, SignatureOf(a.call)) in w.asked
  }

  /** The signature of a request in flight is recorded nowhere else yet, and once somebody else has saved its
      form, its own save would lose that signature. */
  ghost predicate DistinctJob(w: World, j: Job) {
    var id := j.call.req.formID;
    && id in w.forms && (id, SignatureOf(j.call)) in w.asked
    && (forall s :: s in Signatures(j.base) ==> (id, s) in w.asked)
    && SignatureOf(j.call) !in Signatures(w.forms[id])
    && (j.seen != Saves(w, id) ==> !(Signatures(w.forms[id]) <= Signatures(j.base) + {SignatureOf(j.call)}))
  }

  ghost predicate Apart(j: Job, k: Job) {
    j.call.req.formID == k.call.req.formID ==>
      SignatureOf(j.call) != SignatureOf(k.call)
      && SignatureOf(j.call) !in Signatures(k.base) && SignatureOf(k.call) !in Signatures(j.base)
  }

  ghost predicate DistinctInv(w: World) {
    && (forall id, s :: id in w.forms && s in Signatures(w.forms[id]) ==> (id, s) in w.asked)
    && (forall c :: c in w.jobs ==> DistinctJob(w, w.jobs[c]))
    && (forall c, d :: c in w.jobs && d in w.jobs && c != d ==> Apart(w.jobs[c], w.jobs[d]))
  }

  lemma ReadKeepsDistinct(locked: bool, w: World, client: nat, c: Call)
    requires DistinctInv(w) && CanRead(locked, w, client, c) && (c.req.formID, SignatureOf(c)) !in w.asked
    ensures DistinctInv(Step(locked, w, Read(client, c)))
  {
    hide Signatures, SignatureOf, MaySign;
    var r := Step(locked, w, Read(client, c));
    forall d | d in r.jobs
      ensures DistinctJob(r, r.jobs[d])
    {
      assert d in w.jobs ==> DistinctJob(w, w.jobs[d]);
    }
    forall d | d in w.jobs
      ensures Apart(r.jobs[client], r.jobs[d]) && Apart(r.jobs[d], r.jobs[client])
    {
      assert DistinctJob(w, w.jobs[d]);
    }
  }

  lemma SaveKeepsDistinct(locked: bool, w: World, client: nat)
    requires Inv(w) && DistinctInv(w) && client in w.jobs
    ensures DistinctInv(Step(locked, w, Save(client)))
  {
    hide Signatures, SignatureOf, MaySign, WellSigned, Signed;
    var r := Step(locked, w, Save(client));
    var k := w.jobs[client];
    assert JobOk(w, k) && DistinctJob(w, k);
    SignedForm(k.base, k.call);
    forall d | d in r.jobs
      ensures DistinctJob(r, r.jobs[d])
    {
      assert DistinctJob(w, w.jobs[d]) && Apart(k, w.jobs[d]);
    }
  }

  lemma {:induction false} RunKeepsDistinct(locked: bool, w: World, acts: seq<Action>)
    requires Inv(w) && DistinctInv(w) && DistinctRequests(locked, w, acts)
    ensures DistinctInv(Run(locked, w, acts))
    decreases |acts|
  {
    hide Inv, DistinctInv;
    if acts != [] {
      match acts[0] {
        case Read(client, c) => if CanRead(locked, w, client, c) { ReadKeepsDistinct(locked, w, client, c); }
        case Save(client) => if client in w.jobs { SaveKeepsDistinct(locked, w, client); }
      }
      StepKeepsInv(locked, w, acts[0]);
      RunKeepsDistinct(locked, Step(locked, w, acts[0]), acts[1..]);
    }
  }

  /** When no request is repeated within its second: a save keeps all signatures of its form exactly when
      nobody else has saved the form since the request read it. */
  lemma {:induction false} UnrepeatedSaveKeepsSignaturesExactly(locked: bool, forms: map<string, Form>,
                                                                acts: seq<Action>, client: nat)
    requires AllRegistered(forms) && DistinctRequests(locked, Start(forms), acts)
    requires var w := Run(locked, Start(forms), acts); client in w.jobs && w.jobs[client].call.saved
    ensures var w := Run(locked, Start(forms), acts);
            var (j, r) := (w.jobs[client], Step(locked, w, Save(client)));
            var id := j.call.req.formID;
            id in w.forms && id in r.forms && (Keeps(w.forms[id], r.forms[id]) <==> Saves(w, id) == j.seen)
  {
    StartIsInv(forms);
    hide Run, Start, Step, Signatures, Inv;
    SaveKeepsSignaturesExactly(locked, forms, acts, client);
    RunKeepsDistinct(locked, Start(forms), acts);
    var w := Run(locked, Start(forms), acts);
    assert DistinctJob(w, w.jobs[client]);
  }

  // ---------- with the lock ----------

  /** At most one request is in flight, and it holds the stored form. */
  ghost predicate LockedInv(w: World) {
    && Inv(w)
    && (forall c, d :: c in w.jobs && d in w.jobs ==> c == d)
    && (forall c :: c in w.jobs ==> w.jobs[c].seen == Saves(w, w.jobs[c].call.req.formID))
  }

  lemma {:induction false} RunSnoc(locked: bool, w: World, acts: seq<Action>, a: Action)
    ensures Run(locked, w, acts + [a]) == Step(locked, Run(locked, w, acts), a)
    decreases |acts|
  {
    if acts == [] {
      assert (acts + [a])[1..] == [];
    } else {
      assert (acts + [a])[1..] == acts[1..] + [a];
      RunSnoc(locked, Step(locked, w, acts[0]), acts[1..], a);
    }
  }

  lemma LockedStep(w: World, a: Action) returns (calls: seq<Call>)
    requires LockedInv(w)
    ensures LockedInv(Step(true, w, a))
    ensures calls == [] ==> Step(true, w, a).forms == w.forms
    ensures calls != [] ==> |calls| == 1 && Step(true, w, a).forms == Attestations.Step(w.forms, calls[0])
  {
    hide WellSigned, Signed;
    StepKeepsInv(true, w, a);
    calls := [];
    if a.Save? && a.client in w.jobs {
      assert JobOk(w, w.jobs[a.client]);
      if w.jobs[a.client].call.saved {
        calls := [w.jobs[a.client].call];
      }
    }
  }

  /** A run under the lock is a run of whole calls, so what Attestations proves of calls holds for it. */
  lemma {:induction false} LockedRunIsCalls(forms: map<string, Form>, acts: seq<Action>)
      returns (calls: seq<Call>)
    requires AllRegistered(forms)
    ensures LockedInv(Run(true, Start(forms), acts))
    ensures Run(true, Start(forms), acts).forms == Attestations.Run(forms, calls)
  {
    if acts == [] {
      calls := [];
      StartIsInv(forms);
    } else {
      hide LockedInv, Step, Attestations.Step, Run;
      var n := |acts| - 1;
      var before := LockedRunIsCalls(forms, acts[..n]);
      RunSnoc(true, Start(forms), acts[..n], acts[n]);
      assert acts == acts[..n] + [acts[n]];
      var last := LockedStep(Run(true, Start(forms), acts[..n]), acts[n]);
      calls := before + last;
      if last == [] {
        assert calls == before;
      } else {
        assert calls == before + [last[0]];
        CallsSnoc(forms, before, last[0]);
      }
    }
  }

  lemma {:induction false} CallsSnoc(forms: map<string, Form>, calls: seq<Call>, c: Call)
    ensures Attestations.Run(forms, calls + [c]) == Attestations.Step(Attestations.Run(forms, calls), c)
  {
    assert (calls + [c])[..|calls|] == calls;
  }

  // ---------- without it ----------

  function TwoRead(form: Form, one: Call, two: Call): World {
    World(map[form.id := form], map[0 := Job(one, form, 0), 1 := Job(two, form, 0)], map[form.id := 0],
          {(form.id, SignatureOf(one)), (form.id, SignatureOf(two))})
  }

  /** Two requests read a registered form before either saves it. */
  lemma BothRead(form: Form, one: Call, two: Call) returns (acts: seq<Action>)
    requires Registered(form) && one.req.formID == form.id == two.req.formID
    requires MaySign(form, one.req.party) && MaySign(form, two.req.party)
    ensures Run(false, Start(map[form.id := form]), acts) == TwoRead(form, one, two)
  {
    var w0 := Start(map[form.id := form]);
    acts := [Read(0, one)] + [Read(1, two)];
    RunSnoc(false, w0, [], Read(0, one));
    RunSnoc(false, w0, [Read(0, one)], Read(1, two));
    assert [] + [Read(0, one)] == [Read(0, one)] && Run(false, w0, []) == w0;
    hide Run, MaySign;
    assert w0 == World(map[form.id := form], map[], map[form.id := 0], {});
    assert Step(false, w0, Read(0, one)).jobs == map[0 := Job(one, form, 0)];
  }

  /** And then both save it. */
  lemma BothSave(form: Form, one: Call, two: Call) returns (acts: seq<Action>)
    requires Registered(form) && one.req.formID == form.id == two.req.formID && one.saved && two.saved
    requires MaySign(form, one.req.party) && MaySign(form, two.req.party)
    ensures var w := Run(false, Start(map[form.id := form]), acts);
            w.jobs == map[] && w.saves == map[form.id := 2] && w.forms == map[form.id := Signed(form, two)]
  {
    var w0 := Start(map[form.id := form]);
    var read := BothRead(form, one, two);
    var saved := read + [Save(0)];
    acts := saved + [Save(1)];
    RunSnoc(false, w0, read, Save(0));
    RunSnoc(false, w0, saved, Save(1));
    hide Run, Signed, Start;
    var r := Step(false, TwoRead(form, one, two), Save(0));
    assert r.jobs == map[1 := Job(two, form, 0)] && r.saves == map[form.id := 1];
  }

  /** Two overlapping requests: both save, and only the later signature is left. */
  lemma OverlappingCallsLoseASignature(form: Form, out: Call, arr: Call) returns (acts: seq<Action>)
    requires Registered(form) && Signs(out, form.id, OUTBOUND) && Signs(arr, form.id, ARRIVAL)
    ensures var w := Run(false, Start(map[form.id := form]), acts);
            && w.jobs == map[] && w.saves == map[form.id := 2]
            && w.forms == map[form.id := Signed(form, arr)]
            && w.forms[form.id].state == ArrivalSigned && w.forms[form.id].outboundSignedAt == None
  {
    assert OUTBOUND[0] != ARRIVAL[0];
    acts := BothSave(form, out, arr);
  }

  /** Two identical requests within one second both save as well, and nothing is lost. */
  lemma RepeatedCallLosesNothing(form: Form, c: Call) returns (acts: seq<Action>)
    requires Registered(form) && c.req.formID == form.id && MaySign(form, c.req.party) && c.saved
    ensures var w := Run(false, Start(map[form.id := form]), acts);
            w.saves == map[form.id := 2] && w.forms == map[form.id := Signed(form, c)]
  {
    acts := BothSave(form, c, c);
  }
}
