/** Dual attestation of handshake forms: internal/service/handshake.go and internal/domain/entities.go. */
module Attestations {
  import opened Prelude
  import opened StateMachines

  datatype HandshakeState = Draft | OutboundSigned | ArrivalSigned | DualSigned | Voided

  const HANDSHAKE_MACHINE: StateMachine<HandshakeState> := StateMachine(Draft, {
      (Draft, OutboundSigned), (Draft, ArrivalSigned),
      (OutboundSigned, ArrivalSigned), (ArrivalSigned, OutboundSigned),
      (OutboundSigned, DualSigned), (ArrivalSigned, DualSigned),
      (OutboundSigned, Voided), (ArrivalSigned, Voided), (Draft, Voided)})

  const OUTBOUND := "outbound"
  const ARRIVAL := "arrival"

  // A time that is not set is None.
  datatype Form = Form(id: string, formNo: string, state: HandshakeState,
                       outboundSigner: string, outboundSignedAt: Option<int>,
                       arrivalSigner: string, arrivalSignedAt: Option<int>, version: int)

  datatype Request = Request(formID: string, party: string, signer: string)

  // saved says whether the transaction that saves the form commits.
  datatype Call = Call(req: Request, now: int, saved: bool)

  datatype Error = NotFound | AlreadyExists | Invalid | AlreadySigned | BadTransition | SaveFailed

  datatype Result = Ok(form: Form) | Err(error: Error)

  function NextState(current: HandshakeState, party: string): HandshakeState {
    if current == Draft && party == OUTBOUND then OutboundSigned
    else if current == Draft && party == ARRIVAL then ArrivalSigned
    else if current == OutboundSigned && party == ARRIVAL then DualSigned
    else if current == ArrivalSigned && party == OUTBOUND then DualSigned
    else current
  }

  // ---------- what a call does, said by who may still sign ----------

  predicate MaySign(form: Form, party: string) {
    || (party == OUTBOUND && (form.state == Draft || form.state == ArrivalSigned))
    || (party == ARRIVAL && (form.state == Draft || form.state == OutboundSigned))
  }

  function Signed(form: Form, c: Call): Form {
    var f := form.(version := form.version + 1, state := if form.state != Draft then DualSigned
                                                        else if c.req.party == OUTBOUND then OutboundSigned
                                                        else ArrivalSigned);
    if c.req.party == OUTBOUND then f.(outboundSigner := c.req.signer, outboundSignedAt := Some(c.now))
    else f.(arrivalSigner := c.req.signer, arrivalSignedAt := Some(c.now))
  }

  function Reply(forms: map<string, Form>, c: Call): Result {
    if c.req.formID !in forms then Err(NotFound)
    else
      var form := forms[c.req.formID];
      if form.state == DualSigned then Err(AlreadySigned)
      else if !MaySign(form, c.req.party) then Err(BadTransition)
      else if !c.saved then Err(SaveFailed)
      else Ok(Signed(form, c))
  }

  function Step(forms: map<string, Form>, c: Call): map<string, Form> {
    if c.req.formID in forms && MaySign(forms[c.req.formID], c.req.party) && c.saved
    then forms[c.req.formID := Signed(forms[c.req.formID], c)]
    else forms
  }

  class HandshakeService {
    var forms: map<string, Form>

    constructor ()
      ensures forms == map[]
    {
      forms := map[];
    }

    /** Register as far as the form goes; id is the new form's uuid, and saving the form or its sessions
        may fail. */
    method Register(id: string, formNo: string, date: string, protocolID: string, saved: bool, sessionsSaved: bool)
        returns (r: Result)
      requires id !in forms
      modifies this
      ensures r == Err(Invalid) <==> formNo == "" || date == "" || protocolID == ""
      ensures r == Err(AlreadyExists) <==>
              r != Err(Invalid) && exists f :: f in old(forms) && old(forms)[f].formNo == formNo
      ensures r.Ok? ==> saved && sessionsSaved && id in forms && r.form == forms[id]
      ensures if r.Ok? || (r == Err(SaveFailed) && saved)
              then forms == old(forms)[id := Form(id, formNo, Draft, "", None, "", None, 1)] && Registered(forms[id])
              else forms == old(forms)
    {
      if formNo == "" || date == "" || protocolID == "" {
        return Err(Invalid);
      }
      if exists f :: f in forms && forms[f].formNo == formNo {
        return Err(AlreadyExists);
      }
      var form := Form(id, formNo, Draft, "", None, "", None, 1);
      if !saved {
        return Err(SaveFailed);
      }
      forms := forms[id := form];
      if !sessionsSaved {
        return Err(SaveFailed);
      }
      return Ok(form);
    }

    /** Attestation under attestationMu. The transition table never objects to the computed state. */
    method AttestationWithLock(req: Request, now: int, saved: bool) returns (r: Result)
      modifies this
      ensures r == Reply(old(forms), Call(req, now, saved))
      ensures forms == Step(old(forms), Call(req, now, saved))
      ensures r == Err(NotFound) <==> req.formID !in old(forms)
      ensures r == Err(AlreadySigned) <==> req.formID in old(forms) && old(forms)[req.formID].state == DualSigned
      ensures r == Err(BadTransition) <==>
              && req.formID in old(forms)
              && var was := old(forms)[req.formID];
                 || was.state == Voided
                 || (was.state != DualSigned && req.party != "outbound" && req.party != "arrival")
                 || (was.state == OutboundSigned && req.party == "outbound")
                 || (was.state == ArrivalSigned && req.party == "arrival")
      ensures r.Err? ==> forms == old(forms) && (r.error in {NotFound, AlreadySigned, BadTransition} || !saved)
      ensures r.Ok? ==>
                && saved && req.formID in old(forms) && forms == old(forms)[req.formID := r.form]
                && var was := old(forms)[req.formID];
                   r.form == if req.party == "outbound"
                             then was.(state := if was.state == Draft then OutboundSigned else DualSigned,
                                       outboundSigner := req.signer, outboundSignedAt := Some(now),
                                       version := was.version + 1)
                             else was.(state := if was.state == Draft then ArrivalSigned else DualSigned,
                                       arrivalSigner := req.signer, arrivalSignedAt := Some(now),
                                       version := was.version + 1)
    {
      if req.formID !in forms {
        return Err(NotFound);
      }
      var form := forms[req.formID];
      if form.state == DualSigned {
        return Err(AlreadySigned);
      }
      if form.state == Voided {
        return Err(BadTransition);
      }
      var next := NextState(form.state, req.party);
      if next == form.state {
        return Err(BadTransition);
      }
      if !HANDSHAKE_MACHINE.Validates(form.state, next) {
        return Err(BadTransition);
      }
      form := form.(state := next, version := form.version + 1);
      if req.party == OUTBOUND {
        form := form.(outboundSigner := req.signer, outboundSignedAt := Some(now));
      } else {
        form := form.(arrivalSigner := req.signer, arrivalSignedAt := Some(now));
      }
      if !saved {
        return Err(SaveFailed);
      }
      forms := forms[req.formID := form];
      return Ok(form);
    }
  }

  // ---------- runs ----------

  function Run(forms: map<string, Form>, calls: seq<Call>): map<string, Form> {
    if calls == [] then forms else Step(Run(forms, calls[..|calls| - 1]), calls[|calls| - 1])
  }

  predicate Registered(form: Form) {
    form.state == Draft && form.version == 1 && form.outboundSignedAt == None && form.arrivalSignedAt == None
  }

  predicate Signs(c: Call, id: string, party: string) {
    c.req.formID == id && c.req.party == party && c.saved
  }

  /** The first call that saves a signature of the party on the form. */
  function FirstSigning(calls: seq<Call>, id: string, party: string): (r: Option<Call>)
    ensures r.Some? <==> exists k :: 0 <= k < |calls| && Signs(calls[k], id, party)
    ensures r.Some? ==> exists k :: 0 <= k < |calls| && calls[k] == r.value && Signs(calls[k], id, party)
                                    && forall j :: 0 <= j < k ==> !Signs(calls[j], id, party)
  {
    if calls == [] then None
    else
      var n := |calls| - 1;
      var before := FirstSigning(calls[..n], id, party);
      assert forall k :: 0 <= k < n ==> calls[..n][k] == calls[k];
      if before.Some? then before
      else if Signs(calls[n], id, party) then Some(calls[n])
      else None
  }

  /** The form as the two first signatures alone determine it. */
  function SignedBy(form: Form, outbound: Option<Call>, arrival: Option<Call>): Form {
    Form(form.id, form.formNo,
         if outbound.Some? then (if arrival.Some? then DualSigned else OutboundSigned)
         else if arrival.Some? then ArrivalSigned else Draft,
         if outbound.Some? then outbound.value.req.signer else form.outboundSigner,
         if outbound.Some? then Some(outbound.value.now) else None,
         if arrival.Some? then arrival.value.req.signer else form.arrivalSigner,
         if arrival.Some? then Some(arrival.value.now) else None,
         1 + (if outbound.Some? then 1 else 0) + (if arrival.Some? then 1 else 0))
  }

  /** Whatever is requested, by whom and in what order, a registered form ends up determined by the first
      saved signature of each of the two parties, and nothing else. */
  lemma {:induction false} FirstSignaturesDetermineForm(forms: map<string, Form>, calls: seq<Call>, id: string)
    requires id in forms && Registered(forms[id])
    ensures id in Run(forms, calls)
    ensures Run(forms, calls)[id] ==
            SignedBy(forms[id], FirstSigning(calls, id, OUTBOUND), FirstSigning(calls, id, ARRIVAL))
  {
    if calls != [] {
      var n := |calls| - 1;
      FirstSignaturesDetermineForm(forms, calls[..n], id);
    }
  }

  /** A call succeeds exactly when it is the first to save its party's signature; in particular each
      party succeeds at most once and no other party ever does. The reply is then the form that is stored,
      with the signature of the call on it. */
  lemma {:induction false} CallSucceedsExactly(forms: map<string, Form>, calls: seq<Call>, k: nat)
    requires k < |calls| && calls[k].req.formID in forms && Registered(forms[calls[k].req.formID])
    ensures var c := calls[k]; var id := c.req.formID;
            Reply(Run(forms, calls[..k]), c).Ok? <==>
              && c.saved && (c.req.party == OUTBOUND || c.req.party == ARRIVAL)
              && forall j :: 0 <= j < k ==> !Signs(calls[j], id, c.req.party)
    ensures var (c, r) := (calls[k], Reply(Run(forms, calls[..k]), calls[k]));
            r.Ok? ==>
              && Run(forms, calls[..k + 1]) == Run(forms, calls[..k])[c.req.formID := r.form]
              && (c.req.party == "outbound" ==>
                    r.form.outboundSigner == c.req.signer && r.form.outboundSignedAt == Some(c.now))
              && (c.req.party == "arrival" ==>
                    r.form.arrivalSigner == c.req.signer && r.form.arrivalSignedAt == Some(c.now))
  {
    var c := calls[k];
    assert calls[..k + 1][..k] == calls[..k];
    FirstSignaturesDetermineForm(forms, calls[..k], c.req.formID);
    assert forall j :: 0 <= j < k ==> calls[..k][j] == calls[j];
  }

  ghost function Signers(calls: seq<Call>, id: string): set<string> {
    set p | p in {OUTBOUND, ARRIVAL} && FirstSigning(calls, id, p).Some?
  }

  /** The state is the set of signers: two runs that collect the same signatures reach the same state and
      version, in whatever order, and authorized means that both signed and both times were recorded. */
  lemma {:induction false} StateIsSignerSet(forms: map<string, Form>, a: seq<Call>, b: seq<Call>, id: string)
    requires id in forms && Registered(forms[id])
    ensures id in Run(forms, a) && id in Run(forms, b)
    ensures Run(forms, a)[id].state == Run(forms, b)[id].state <==> Signers(a, id) == Signers(b, id)
    ensures Run(forms, a)[id].version == 1 + |Signers(a, id)|
    ensures Run(forms, a)[id].state == DualSigned <==> Signers(a, id) == {OUTBOUND, ARRIVAL}
    ensures Run(forms, a)[id].state == DualSigned ==>
              Run(forms, a)[id].outboundSignedAt.Some? && Run(forms, a)[id].arrivalSignedAt.Some?
  {
    hide Run, FirstSigning;
    FirstSignaturesDetermineForm(forms, a, id);
    FirstSignaturesDetermineForm(forms, b, id);
    SignersSplit(a, id);
    SignersSplit(b, id);
  }

  lemma {:induction false} SignersSplit(calls: seq<Call>, id: string)
    ensures OUTBOUND in Signers(calls, id) <==> FirstSigning(calls, id, OUTBOUND).Some?
    ensures ARRIVAL in Signers(calls, id) <==> FirstSigning(calls, id, ARRIVAL).Some?
    ensures Signers(calls, id) <= {OUTBOUND, ARRIVAL}
    ensures |Signers(calls, id)| ==
            (if OUTBOUND in Signers(calls, id) then 1 else 0) + (if ARRIVAL in Signers(calls, id) then 1 else 0)
  {
    hide FirstSigning;
    SizeOfPart(Signers(calls, id), OUTBOUND, ARRIVAL);
  }

  lemma SizeOfPart(s: set<string>, a: string, b: string)
    requires s <= {a, b} && a != b
    ensures |s| == (if a in s then 1 else 0) + (if b in s then 1 else 0)
  {
    assert s == (if a in s then {a} else {}) + (if b in s then {b} else {});
  }

  /** Calls leave the other forms alone. */
  lemma {:induction false} OtherFormsUntouched(forms: map<string, Form>, calls: seq<Call>, id: string)
    requires forall k :: 0 <= k < |calls| ==> calls[k].req.formID != id
    ensures (id in Run(forms, calls) <==> id in forms) && (id in forms ==> Run(forms, calls)[id] == forms[id])
  {
    if calls != [] {
      OtherFormsUntouched(forms, calls[..|calls| - 1], id);
    }
  }
}
