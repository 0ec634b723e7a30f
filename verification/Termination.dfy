/** Every envelope ID, and every gossip round, dies out: each hub passes it on at most once,
    so the copies that a run can still put in flight are bounded by the links of the hubs
    that have not handled it yet, whatever the routing hints say. */
module Termination {
  import opened Envelopes
  import opened HubState
  import opened Network
  import opened Wrappers
  import opened Sums

  /** For each hub, how many copies of the envelope it may still send to other hubs. */
  ghost function Quota(net: Net, id: Id): map<Key, nat> {
    map k | k in net.hubs :: Due(net.hubs[k], id)
  }

  /** Copies in flight, and copies that may still be sent. */
  ghost function Measure(net: Net, id: Id): nat {
    |InFlight(net, id)| + Sum(Quota(net, id))
  }

  /** The copies with this ID that one step takes out of flight. */
  ghost function Deliveries(step: Step, id: Id): nat {
    if step.Deliver? && step.copy.env.id == id then 1 else 0
  }

  ghost function TotalDeliveries(steps: seq<Step>, id: Id): nat {
    if steps == [] then 0 else TotalDeliveries(steps[..|steps| - 1], id) + Deliveries(steps[|steps| - 1], id)
  }

  /** The copies with this ID that one step puts in flight: what is in flight after it that
      was not there before, the delivered copy aside. */
  ghost function Sends(net: Net, step: Step, id: Id, verify: Verifier): int
    requires Enabled(net, step)
  {
    |InFlight(Apply(net, step, verify), id)| - |InFlight(net, id)| + Deliveries(step, id)
  }

  ghost function TotalSends(states: seq<Net>, steps: seq<Step>, id: Id, verify: Verifier): int
    requires Run(states, steps, verify)
  {
    if steps == [] then 0
    else
      var n := |steps| - 1;
      TotalSends(states[..n + 1], steps[..n], id, verify) + Sends(states[n], steps[n], id, verify)
  }

  lemma {:induction false} SizeOfSet<T>(s: set<T>)
    ensures |multiset(s)| == |s|
  {
    if s != {} {
      var x :| x in s;
      SizeOfSet(s - {x});
      assert multiset(s) == multiset(s - {x}) + multiset{x};
    }
  }

  lemma {:induction false} CopiesToSize(src: Key, to: set<Key>, env: Envelope)
    ensures |CopiesTo(src, to, env)| == |to|
  {
    if to == {} {
      assert CopiesTo(src, to, env) == multiset{};
    } else {
      var k :| k in to;
      CopiesToSize(src, to - {k}, env);
      assert (set j | j in to :: Copy(src, j, env)) == (set j | j in to - {k} :: Copy(src, j, env)) + {Copy(src, k, env)};
      assert CopiesTo(src, to, env) == CopiesTo(src, to - {k}, env) + multiset{Copy(src, k, env)};
    }
  }

  lemma SubsetSize<T>(a: set<T>, b: set<T>)
    requires a <= b
    ensures |a| <= |b|
  {
    if a != b {
      assert b == a + (b - a);
    }
  }

  /** The hub keeps its links when it sends, and sends along distinct links. */
  lemma RouteIsBounded(h: Hub, to: Key, from: Option<Key>)
    ensures var o := Route(h, to, from); o.ToHubs? ==> |o.hubs| <= |h.peers|
  {
    var o := Route(h, to, from);
    if o.ToHubs? {
      SubsetSize(o.hubs, h.peers);
    }
  }

  ghost function Due(h: Hub, id: Id): nat {
    if id in h.seen then 0 else |h.peers|
  }

  lemma QuotaUpdate(net: Net, at: Key, h: Hub, net1: Net, id: Id)
    requires at in net.hubs && net1.hubs == net.hubs[at := h]
    ensures Quota(net1, id) == Quota(net, id)[at := Due(h, id)]
    ensures Quota(net, id)[at] == Due(net.hubs[at], id)
  {
  }

  /** The quota of hub `at` after `forward`. */
  lemma ForwardedQuota(net: Net, at: Key, env: Envelope, valid: bool, from: Option<Key>, rest: multiset<Copy>, id: Id)
    requires at in net.hubs
    ensures var q := Quota(net, id); var q1 := Quota(Forwarded(net, at, env, valid, from, rest), id);
      && at in q
      && (env.id == id && valid && id !in net.hubs[at].seen ==> q[at] == |net.hubs[at].peers| && Sum(q1) + q[at] == Sum(q))
      && (env.id != id || !valid || id in net.hubs[at].seen ==> q1 == q)
  {
    var h := Forward(net.hubs[at], env, valid, from).0;
    var net1 := Forwarded(net, at, env, valid, from, rest);
    QuotaUpdate(net, at, h, net1, id);
    SumUpdate(Quota(net, id), at, Due(h, id));
  }

  /** The copies in flight after `forward`, for the ID that it handled. */
  lemma ForwardedFlight(net: Net, at: Key, env: Envelope, valid: bool, from: Option<Key>, rest: multiset<Copy>)
    requires at in net.hubs
    ensures var flight := InFlight(Forwarded(net, at, env, valid, from, rest), env.id);
      && |rest| <= |flight|
      && (valid && env.id !in net.hubs[at].seen ==> |flight| <= |rest| + |net.hubs[at].peers|)
      && (!valid || env.id in net.hubs[at].seen ==> flight == rest)
  {
    var o := Forward(net.hubs[at], env, valid, from).1;
    if o.ToHubs? {
      RouteIsBounded(net.hubs[at], env.to, from);
      CopiesToSize(at, o.hubs, env);
    }
  }

  /** Running `forward` sends at most as many copies as it takes off the hub's quota. */
  lemma ForwardedPays(net: Net, at: Key, env: Envelope, valid: bool, from: Option<Key>, rest: multiset<Copy>)
    requires at in net.hubs
    ensures var net1 := Forwarded(net, at, env, valid, from, rest);
      && |rest| <= |InFlight(net1, env.id)|
      && |InFlight(net1, env.id)| + Sum(Quota(net1, env.id)) <= |rest| + Sum(Quota(net, env.id))
  {
    ForwardedQuota(net, at, env, valid, from, rest, env.id);
    ForwardedFlight(net, at, env, valid, from, rest);
  }

  /** Other IDs are not touched. */
  lemma ForwardedElsewhere(net: Net, at: Key, env: Envelope, valid: bool, from: Option<Key>, rest: multiset<Copy>, id: Id)
    requires at in net.hubs && env.id != id
    ensures var net1 := Forwarded(net, at, env, valid, from, rest);
      InFlight(net1, id) == InFlight(net, id) && Quota(net1, id) == Quota(net, id)
  {
    ForwardedQuota(net, at, env, valid, from, rest, id);
  }

  /** A hub that changes, but not in its links or seen IDs, keeps all quotas. */
  lemma QuotaKept(net: Net, at: Key, h: Hub, net1: Net, id: Id)
    requires at in net.hubs && net1.hubs == net.hubs[at := h]
    requires h.seen == net.hubs[at].seen && h.peers == net.hubs[at].peers
    ensures Quota(net1, id) == Quota(net, id)
  {
    QuotaUpdate(net, at, h, net1, id);
  }

  lemma EmittedElsewhere(net: Net, at: Key, id: Id)
    requires at in net.hubs
    ensures Emitted(net, at).copies == net.copies
    ensures Quota(Emitted(net, at), id) == Quota(net, id)
  {
    QuotaKept(net, at, Emit(net.hubs[at]).0, Emitted(net, at), id);
  }

  lemma HeardElsewhere(net: Net, r: Rumour, matched: bool, id: Id)
    requires r.dst in net.hubs
    ensures Heard(net, r, matched).copies == net.copies
    ensures Quota(Heard(net, r, matched), id) == Quota(net, id)
  {
    QuotaKept(net, r.dst, Accept(net.hubs[r.dst], r.gossip, From(r.src, matched)).0, Heard(net, r, matched), id);
  }

  lemma AnnouncedElsewhere(net: Net, at: Key, keys: set<Key>, viaHub: Option<Key>, id: Id)
    requires at in net.hubs
    ensures Announced(net, at, keys, viaHub).copies == net.copies
    ensures Quota(Announced(net, at, keys, viaHub), id) == Quota(net, id)
  {
    QuotaKept(net, at, Announce(net.hubs[at], keys, viaHub), Announced(net, at, keys, viaHub), id);
  }

  /** Steps that carry no envelope touch neither. */
  lemma OtherStepsElsewhere(net: Net, step: Step, verify: Verifier, id: Id)
    requires Enabled(net, step) && !step.Inject? && !step.Deliver?
    ensures InFlight(Apply(net, step, verify), id) == InFlight(net, id)
    ensures Quota(Apply(net, step, verify), id) == Quota(net, id)
  {
    match step
    case EmitAt(at) => EmittedElsewhere(net, at, id);
    case AnnounceAt(at, keys, viaHub) =>
      AnnouncedElsewhere(net, at, keys, viaHub, id);
      EmittedElsewhere(Announced(net, at, keys, viaHub), at, id);
    case Hear(r, matched) => HeardElsewhere(net, r, matched, id);
  }

  /** One step: it sends no more than the quota it uses up, so the measure never grows, and
      every delivery of a copy with this ID makes it smaller. */
  lemma StepPays(net: Net, step: Step, verify: Verifier, id: Id)
    requires Enabled(net, step)
    ensures var net1 := Apply(net, step, verify);
      && 0 <= Sends(net, step, id, verify)
      && Sends(net, step, id, verify) + Sum(Quota(net1, id)) <= Sum(Quota(net, id))
      && Measure(net1, id) + Deliveries(step, id) <= Measure(net, id)
  {
    match step
    case Inject(at, env) =>
      if env.id == id {
        ForwardedPays(net, at, env, verify(env), None, InFlight(net, id));
      } else {
        ForwardedElsewhere(net, at, env, verify(env), None, InFlight(net, env.id), id);
      }
    case Deliver(c, matched) =>
      var rest := InFlight(net, c.env.id) - multiset{c};
      if c.env.id == id {
        ForwardedPays(net, c.dst, c.env, verify(c.env), From(c.src, matched), rest);
      } else {
        ForwardedElsewhere(net, c.dst, c.env, verify(c.env), From(c.src, matched), rest, id);
      }
    case _ => OtherStepsElsewhere(net, step, verify, id);
  }

  lemma RunPrefix(states: seq<Net>, steps: seq<Step>, verify: Verifier, n: nat)
    requires Run(states, steps, verify) && n <= |steps|
    ensures Run(states[..n + 1], steps[..n], verify)
  {
  }

  /** From any state, whatever the hints say and whatever else happens meanwhile: the copies
      of one envelope ID that a run delivers number at most the measure of its first state,
      and the copies it sends at most the links of the hubs that have not seen the ID. */
  lemma {:induction false} ForwardingTerminates(states: seq<Net>, steps: seq<Step>, verify: Verifier, id: Id)
    requires Run(states, steps, verify)
    ensures TotalDeliveries(steps, id) + Measure(states[|steps|], id) <= Measure(states[0], id)
    ensures 0 <= TotalSends(states, steps, id, verify)
    ensures TotalSends(states, steps, id, verify) + Sum(Quota(states[|steps|], id)) <= Sum(Quota(states[0], id))
    decreases |steps|
  {
    if steps != [] {
      var n := |steps| - 1;
      RunPrefix(states, steps, verify, n);
      ForwardingTerminates(states[..n + 1], steps[..n], verify, id);
      StepPays(states[n], steps[n], verify, id);
    }
  }
}
