/** What a signature protects (hub/envelope.go, hub/server.go). Ed25519 is a parameter, with one law: a
    key accepts a signature for one message at most. */
module Authenticity {
  import opened Wrappers
  import opened Envelopes
  import opened HubState
  import opened Network

  /** No key accepts one signature for two messages. */
  ghost predicate OneMessage(ed: EdVerify) {
    forall key, m, n, sig :: ed(key, m, sig) && ed(key, n, sig) ==> m == n
  }

  /** What a hub makes of an envelope that arrives. */
  function Handle(h: Hub, e: Envelope, ed: EdVerify, from: Option<Key>): (Hub, Outcome) {
    Forward(h, e, Verify(e, ed).Ok?, from)
  }

  /** A hub hands an envelope on only if its sender has signed it as it is. */
  lemma OnlySignedGoesOn(h: Hub, e: Envelope, ed: EdVerify, from: Option<Key>)
    requires Handle(h, e, ed, from) != (h, Dropped)
    ensures ed(e.from, Signed(e), e.sig)
  {
    hide Signed, Route;
  }

  /** One signature of one sender covers one envelope: whatever two hubs hand on with the same sender
      and signature is the same in every field. */
  lemma OneSignatureOneEnvelope(g: Hub, h: Hub, a: Envelope, b: Envelope, ed: EdVerify, s: Option<Key>, t: Option<Key>)
    requires OneMessage(ed) && FieldsFit(a) && FieldsFit(b) && a.from == b.from && a.sig == b.sig
    requires Handle(g, a, ed, s) != (g, Dropped) && Handle(h, b, ed, t) != (h, Dropped)
    ensures a == b
  {
    hide Handle, Signed, FieldsFit;
    OnlySignedGoesOn(g, a, ed, s);
    OnlySignedGoesOn(h, b, ed, t);
    SignedInjective(a, b);
  }

  /** An envelope that has been changed in any field after it was signed leaves every hub as it was,
      and goes nowhere. */
  lemma AlteredGoesNowhere(h: Hub, signed: Envelope, altered: Envelope, ed: EdVerify, from: Option<Key>)
    requires OneMessage(ed) && FieldsFit(signed) && FieldsFit(altered)
    requires ed(signed.from, Signed(signed), signed.sig)
    requires altered.from == signed.from && altered.sig == signed.sig && altered != signed
    ensures Handle(h, altered, ed, from) == (h, Dropped)
  {
    hide Handle, Signed, FieldsFit;
    if Handle(h, altered, ed, from) != (h, Dropped) {
      OnlySignedGoesOn(h, altered, ed, from);
      SignedInjective(signed, altered);
    }
  }

  // ----- Over whole runs -----

  /** The verifier of a network whose hubs use this signature scheme. */
  function VerifierOf(ed: EdVerify): Verifier { e => Verify(e, ed).Ok? }

  /** What a spoke has brought into the network in these steps, signed by its sender. */
  ghost predicate Entered(steps: seq<Step>, ed: EdVerify, e: Envelope) {
    ed(e.from, Signed(e), e.sig) && exists at :: Inject(at, e) in steps
  }

  ghost predicate Accounted(steps: seq<Step>, ed: EdVerify, x: Handoff) {
    exists e: Envelope :: e.id == x.id && e.to == x.spoke && Entered(steps, ed, e)
  }

  /** All copies in flight of envelopes with this ID, and all that spokes were handed of it, have been
      brought in as they are. */
  ghost predicate AllEntered(net: Net, steps: seq<Step>, ed: EdVerify, id: Id) {
    && (forall c :: c in InFlight(net, id) ==> c.env.id == id && Entered(steps, ed, c.env))
    && forall x: Handoff :: x in net.handoffs && x.id == id ==> Accounted(steps, ed, x)
  }

  lemma StepForwards(net: Net, at: Key, e: Envelope, valid: bool, from: Option<Key>, rest: multiset<Copy>, id: Id)
    requires at in net.hubs
    ensures var net1 := Forwarded(net, at, e, valid, from, rest);
      && (forall c :: c in InFlight(net1, id) ==>
           c in (if e.id == id then rest else InFlight(net, id)) || (e.id == id && valid && c.env == e))
      && forall x: Handoff :: x in net1.handoffs ==> x in net.handoffs || (valid && x.id == e.id && x.spoke == e.to)
  {
  }

  lemma ForwardedEntered(net: Net, at: Key, e: Envelope, from: Option<Key>, rest: multiset<Copy>, steps: seq<Step>, ed: EdVerify, id: Id)
    requires at in net.hubs && AllEntered(net, steps, ed, id) && rest <= InFlight(net, e.id)
    requires e.id == id && Verify(e, ed).Ok? ==> Entered(steps, ed, e)
    ensures AllEntered(Forwarded(net, at, e, Verify(e, ed).Ok?, from, rest), steps, ed, id)
  {
    hide Forwarded, Verify, Entered, InFlight;
    var net1 := Forwarded(net, at, e, Verify(e, ed).Ok?, from, rest);
    StepForwards(net, at, e, Verify(e, ed).Ok?, from, rest, id);
    forall c | c in InFlight(net1, id) ensures c.env.id == id && Entered(steps, ed, c.env) {
      if e.id == id && c !in rest {
        assert c.env == e;
      }
    }
    forall x: Handoff | x in net1.handoffs && x.id == id ensures Accounted(steps, ed, x) {
      if x !in net.handoffs {
        assert e.id == x.id && e.to == x.spoke && Entered(steps, ed, e);
      }
    }
  }

  lemma EnteredMore(net: Net, steps: seq<Step>, step: Step, ed: EdVerify, id: Id)
    requires AllEntered(net, steps, ed, id)
    ensures AllEntered(net, steps + [step], ed, id)
  {
    hide Signed;
    forall e | Entered(steps, ed, e) ensures Entered(steps + [step], ed, e) {
      var at :| Inject(at, e) in steps;
      assert Inject(at, e) in steps + [step];
    }
    forall x: Handoff | x in net.handoffs && x.id == id ensures Accounted(steps + [step], ed, x) {
      assert Accounted(steps, ed, x);
    }
  }

  lemma StepEntered(net: Net, steps: seq<Step>, step: Step, ed: EdVerify, id: Id)
    requires AllEntered(net, steps, ed, id) && Enabled(net, step)
    ensures AllEntered(Apply(net, step, VerifierOf(ed)), steps + [step], ed, id)
  {
    hide Forwarded, Verify, AllEntered, Entered, Emitted, Announced, Heard;
    var all := steps + [step];
    EnteredMore(net, steps, step, ed, id);
    match step
    case Inject(at, e) =>
      if Verify(e, ed).Ok? {
        InjectedEntered(steps, at, e, ed);
      }
      ForwardedEntered(net, at, e, None, InFlight(net, e.id), all, ed, id);
    case Deliver(c, matched) =>
      if c.env.id == id {
        CopyEntered(net, all, ed, id, c);
      }
      ForwardedEntered(net, c.dst, c.env, From(c.src, matched), InFlight(net, c.env.id) - multiset{c}, all, ed, id);
    case _ => GossipKeepsEntered(net, step, all, ed, id);
  }

  lemma InjectedEntered(steps: seq<Step>, at: Key, e: Envelope, ed: EdVerify)
    requires Verify(e, ed).Ok?
    ensures Entered(steps + [Inject(at, e)], ed, e)
  {
    hide Signed;
    assert Inject(at, e) in steps + [Inject(at, e)];
  }

  lemma CopyEntered(net: Net, steps: seq<Step>, ed: EdVerify, id: Id, c: Copy)
    requires AllEntered(net, steps, ed, id) && c in InFlight(net, id)
    ensures Entered(steps, ed, c.env)
  {
    hide Entered;
  }

  lemma GossipKeepsEntered(net: Net, step: Step, steps: seq<Step>, ed: EdVerify, id: Id)
    requires AllEntered(net, steps, ed, id) && Enabled(net, step) && !step.Inject? && !step.Deliver?
    ensures AllEntered(Apply(net, step, VerifierOf(ed)), steps, ed, id)
  {
    hide Entered, Emit, Announce, Accept;
    var net1 := Apply(net, step, VerifierOf(ed));
    assert net1.copies == net.copies && net1.handoffs == net.handoffs;
    assert InFlight(net1, id) == InFlight(net, id);
  }

  lemma {:induction false} RunEntered(states: seq<Net>, steps: seq<Step>, ed: EdVerify, id: Id, i: nat)
    requires Run(states, steps, VerifierOf(ed)) && i < |states|
    requires InFlight(states[0], id) == multiset{} && forall x: Handoff :: x in states[0].handoffs ==> x.id != id
    ensures AllEntered(states[i], steps[..i], ed, id)
  {
    hide Apply, Enabled, Entered;
    if i > 0 {
      RunEntered(states, steps, ed, id, i - 1);
      RunStep(states, steps, VerifierOf(ed), i - 1);
      StepEntered(states[i - 1], steps[..i - 1], steps[i - 1], ed, id);
      assert steps[..i - 1] + [steps[i - 1]] == steps[..i];
    }
  }

  /** In every run, whatever a spoke has been handed was brought in before, for this spoke, and signed
      by its sender as it is. */
  lemma HandedOverIsSigned(states: seq<Net>, steps: seq<Step>, ed: EdVerify, i: nat, x: Handoff)
    requires Run(states, steps, VerifierOf(ed)) && i < |states|
    requires InFlight(states[0], x.id) == multiset{} && forall y: Handoff :: y in states[0].handoffs ==> y.id != x.id
    requires x in states[i].handoffs
    ensures exists e: Envelope, at :: Inject(at, e) in steps[..i] && e.id == x.id && e.to == x.spoke && ed(e.from, Signed(e), e.sig)
  {
    hide Apply, Enabled, Entered, InFlight;
    RunEntered(states, steps, ed, x.id, i);
    assert Accounted(steps[..i], ed, x);
    var e: Envelope :| e.id == x.id && e.to == x.spoke && Entered(steps[..i], ed, e);
    EnteredSteps(steps[..i], ed, e);
  }

  lemma EnteredSteps(steps: seq<Step>, ed: EdVerify, e: Envelope)
    requires Entered(steps, ed, e)
    ensures ed(e.from, Signed(e), e.sig) && exists at :: Inject(at, e) in steps
  {
  }
}
