/** When an envelope reaches its spoke. Hints may point away from the spoke or in circles, so
    delivery is not unconditional; the theorem below gives the exact condition on the graph
    and the hints, for every order of messages and every choice of session. */
module Delivery {
  import opened Envelopes
  import opened HubState
  import opened Network
  import opened Wrappers
  import T = Termination

  /** Where hub `h` sends an envelope for `to`, its sender aside: nowhere further when the
      spoke is its own, to the hub its hint names if that hub is connected, else to all. */
  function Next(net: Net, to: Key, h: Key): set<Key>
    requires h in net.hubs
  {
    var s := net.hubs[h];
    if to in s.spokes then {} else if Hop(s, to).Some? then {Hop(s, to).value} else s.peers
  }

  ghost predicate NextTo(net: Net, to: Key, a: Key, b: Key) {
    a in net.hubs && b in net.hubs && b in Next(net, to, a)
  }

  ghost predicate Trail(net: Net, to: Key, p: seq<Key>) {
    && |p| > 0
    && p[0] in net.hubs
    && forall i, j :: 0 <= i && j == i + 1 && j < |p| ==> NextTo(net, to, p[i], p[j])
  }

  /** Following hints where there are any, and all links where there are none, leads from hub
      `a` to hub `b`. */
  ghost predicate Reaches(net: Net, to: Key, a: Key, b: Key) {
    exists p :: Trail(net, to, p) && p[0] == a && p[|p| - 1] == b
  }

  ghost predicate SoleHome(net: Net, to: Key, home: Key) {
    && home in net.hubs
    && to in net.hubs[home].spokes
    && forall h :: h in net.hubs && to in net.hubs[h].spokes ==> h == home
  }

  /** Nobody has heard of the ID yet. */
  ghost predicate Fresh(net: Net, id: Id) {
    && (forall h :: h in net.hubs ==> id !in net.hubs[h].seen)
    && InFlight(net, id) == multiset{}
    && (forall x :: x in net.handoffs ==> x.id != id)
  }

  ghost predicate SameHints(a: Net, b: Net, to: Key) {
    && SameTopology(a, b)
    && forall h :: h in a.hubs ==> Hop(a.hubs[h], to) == Hop(b.hubs[h], to)
  }

  /** The step does not bring a different envelope with the ID of `env` into the network. */
  predicate Faithful(step: Step, env: Envelope) {
    step.Inject? && step.env.id == env.id ==> step.env == env
  }

  /** A run that starts in `net0`, hands `env` in at hub `at`, and ends with no copy of it in
      flight. Anything else may happen meanwhile, except that another envelope takes the same
      ID or that a hint for the addressee changes the hop it names. */
  ghost predicate CompleteRun(net0: Net, at: Key, env: Envelope, verify: Verifier, states: seq<Net>, steps: seq<Step>) {
    && Steady(net0, env, verify, states, steps)
    && states[0] == net0
    && Inject(at, env) in steps
    && InFlight(states[|steps|], env.id) == multiset{}
  }

  /** For every two hubs, whether what the first sends arrives at the second on the session that is
      registered for the first. It does not if both have dialled each other and each has registered
      a different connection. */
  type Arrangement = (Key, Key) -> bool

  /** Every message arrives on the session that is registered for its sender. */
  predicate Registered(a: Key, b: Key) { true }

  /** No message does. */
  predicate Unregistered(a: Key, b: Key) { false }

  /** What a hub sends to another goes out on the connection that it has registered for it, and so
      arrives on a registered session exactly if both have registered the same connection. The
      arrangements that connections give rise to are therefore symmetric. */
  ghost predicate Symmetric(sessions: Arrangement) {
    forall a, b :: sessions(a, b) == sessions(b, a)
  }

  /** Envelopes arrive on the sessions of this arrangement throughout the run. */
  ghost predicate Follows(steps: seq<Step>, sessions: Arrangement) {
    forall s :: s in steps && s.Deliver? ==> s.matched == sessions(s.copy.src, s.copy.dst)
  }

  /** The envelope is handed in at this hub only. */
  ghost predicate HandedInAt(steps: seq<Step>, env: Envelope, at: Key) {
    forall s :: s in steps && s.Inject? && s.env.id == env.id ==> s.at == at
  }

  /** The envelope went to its spoke once, at `home`, and to nobody else. */
  ghost predicate DeliveredOnce(net: Net, env: Envelope, home: Key) {
    forall x: Handoff :: x.id == env.id ==>
      net.handoffs[x] == if x == Handoff(home, env.to, env.id) then 1 else 0
  }

  // ----- What every step keeps -----

  ghost predicate Seen(net: Net, id: Id, h: Key) {
    h in net.hubs && id in net.hubs[h].seen
  }

  ghost predicate Targeted(flight: multiset<Copy>, h: Key) {
    exists c :: c in flight && c.dst == h
  }

  ghost predicate CopyOk(net: Net, env: Envelope, c: Copy) {
    c.env == env && c.dst in net.hubs && Seen(net, env.id, c.src)
  }

  ghost predicate CopiesOk(net: Net, env: Envelope, flight: multiset<Copy>) {
    forall c :: c in flight ==> CopyOk(net, env, c)
  }

  /** A hub that has handled the envelope has each of its next hubs behind or ahead of it;
      `spare` is a hub that is just about to handle a copy. */
  ghost predicate Covered(net: Net, net0: Net, env: Envelope, flight: multiset<Copy>, spare: set<Key>) {
    forall h, n :: Seen(net, env.id, h) && NextTo(net0, env.to, h, n) ==>
      n in spare || Seen(net, env.id, n) || Targeted(flight, n)
  }

  /** Each hub that has the addressee as a spoke hands the envelope over when it first sees it. */
  ghost predicate HandedOver(net: Net, env: Envelope) {
    forall x: Handoff :: x.id == env.id ==>
      net.handoffs[x] == if Seen(net, env.id, x.hub) && x.spoke == env.to && env.to in net.hubs[x.hub].spokes then 1 else 0
  }

  ghost predicate Inv(net: Net, net0: Net, env: Envelope) {
    && Graph(net)
    && SameHints(net0, net, env.to)
    && CopiesOk(net, env, InFlight(net, env.id))
    && Covered(net, net0, env, InFlight(net, env.id), {})
    && HandedOver(net, env)
  }

  /** Two states that agree on everything that concerns this envelope ID. */
  ghost predicate Agree(a: Net, b: Net, id: Id) {
    && SameTopology(a, b)
    && InFlight(a, id) == InFlight(b, id)
    && (forall h :: h in a.hubs ==> (id in a.hubs[h].seen <==> id in b.hubs[h].seen))
    && (forall x: Handoff :: x.id == id ==> a.handoffs[x] == b.handoffs[x])
  }

  lemma AgreeKeepsInv(a: Net, b: Net, net0: Net, env: Envelope)
    requires Inv(a, net0, env) && Agree(a, b, env.id) && SameHints(net0, b, env.to)
    ensures Inv(b, net0, env)
  {
    assert Graph(b);
    assert forall h :: Seen(a, env.id, h) <==> Seen(b, env.id, h);
    assert forall c :: CopyOk(a, env, c) ==> CopyOk(b, env, c);
    assert HandedOver(b, env);
  }

  /** After a hub handles the envelope for the first time, exactly that hub is new. */
  lemma SeenAfter(net: Net, at: Key, env: Envelope, from: Option<Key>, rest: multiset<Copy>)
    requires at in net.hubs
    ensures var net1 := Forwarded(net, at, env, true, from, rest);
      forall h :: Seen(net1, env.id, h) <==> Seen(net, env.id, h) || h == at
  {
  }

  lemma HintsKept(net0: Net, net: Net, at: Key, h: Hub, net1: Net, to: Key)
    requires at in net.hubs && SameHints(net0, net, to) && net1.hubs == net.hubs[at := h]
    requires h == net.hubs[at].(seen := h.seen)
    ensures SameHints(net0, net1, to)
  {
    UpdateKeepsTopology(net, at, h, net1);
  }

  lemma HintsAfter(net0: Net, net: Net, at: Key, env: Envelope, valid: bool, from: Option<Key>, rest: multiset<Copy>, to: Key)
    requires at in net.hubs && SameHints(net0, net, to)
    ensures SameHints(net0, Forwarded(net, at, env, valid, from, rest), to)
  {
    HintsKept(net0, net, at, Forward(net.hubs[at], env, valid, from).0, Forwarded(net, at, env, valid, from, rest), to);
  }

  /** What hub `at` sends covers all its next hubs but the sender, who has it already. */
  lemma RouteCovers(net0: Net, net: Net, at: Key, to: Key, from: Option<Key>, n: Key)
    requires SameHints(net0, net, to) && at in net.hubs && NextTo(net0, to, at, n)
    ensures Route(net.hubs[at], to, from).ToHubs?
    ensures from == Some(n) || n in Route(net.hubs[at], to, from).hubs
  {
  }

  /** What is in flight after a hub has handled the envelope for the first time. */
  lemma FirstTimeFlight(net: Net, at: Key, env: Envelope, from: Option<Key>, rest: multiset<Copy>, c: Copy)
    requires at in net.hubs && env.id !in net.hubs[at].seen
    ensures var o := Route(net.hubs[at], env.to, from);
      c in InFlight(Forwarded(net, at, env, true, from, rest), env.id)
      <==> c in rest || (o.ToHubs? && c.dst in o.hubs && c.src == at && c.env == env)
  {
    hide Route;
  }

  lemma FirstTimeCovered(net: Net, net0: Net, env: Envelope, at: Key, from: Option<Key>, rest: multiset<Copy>)
    requires Graph(net) && SameHints(net0, net, env.to) && at in net.hubs && env.id !in net.hubs[at].seen
    requires from.Some? ==> Seen(net, env.id, from.value)
    requires Covered(net, net0, env, rest, {at})
    ensures var net1 := Forwarded(net, at, env, true, from, rest); Covered(net1, net0, env, InFlight(net1, env.id), {})
  {
    hide Forwarded, Route, NextTo;
    var net1 := Forwarded(net, at, env, true, from, rest);
    var flight := InFlight(net1, env.id);
    SeenAfter(net, at, env, from, rest);
    forall h, n | Seen(net1, env.id, h) && NextTo(net0, env.to, h, n)
      ensures Seen(net1, env.id, n) || Targeted(flight, n)
    {
      if h == at {
        RouteCovers(net0, net, at, env.to, from, n);
        FirstTimeFlight(net, at, env, from, rest, Copy(at, n, env));
      } else if n != at && !Seen(net, env.id, n) {
        assert Targeted(rest, n);
        var c :| c in rest && c.dst == n;
        FirstTimeFlight(net, at, env, from, rest, c);
      }
    }
  }

  lemma RouteStaysInside(net: Net, at: Key, to: Key, from: Option<Key>)
    requires Graph(net) && at in net.hubs && Route(net.hubs[at], to, from).ToHubs?
    ensures Route(net.hubs[at], to, from).hubs <= net.hubs.Keys
  {
  }

  lemma FirstTimeCopiesOk(net: Net, env: Envelope, at: Key, from: Option<Key>, rest: multiset<Copy>)
    requires Graph(net) && at in net.hubs && env.id !in net.hubs[at].seen
    requires CopiesOk(net, env, rest)
    ensures var net1 := Forwarded(net, at, env, true, from, rest); CopiesOk(net1, env, InFlight(net1, env.id))
  {
    hide Forwarded, Route, Graph;
    var net1 := Forwarded(net, at, env, true, from, rest);
    SeenAfter(net, at, env, from, rest);
    ForwardedTopology(net, at, env, true, from, rest);
    forall c | c in InFlight(net1, env.id) ensures CopyOk(net1, env, c) {
      FirstTimeFlight(net, at, env, from, rest, c);
      if c in rest {
        assert CopyOk(net, env, c);
      } else {
        RouteStaysInside(net, at, env.to, from);
      }
    }
  }

  lemma FirstTimeHandedOver(net: Net, env: Envelope, at: Key, from: Option<Key>, rest: multiset<Copy>)
    requires at in net.hubs && env.id !in net.hubs[at].seen
    requires HandedOver(net, env)
    ensures HandedOver(Forwarded(net, at, env, true, from, rest), env)
  {
    var net1 := Forwarded(net, at, env, true, from, rest);
    SeenAfter(net, at, env, from, rest);
    ForwardedTopology(net, at, env, true, from, rest);
    forall x: Handoff | x.id == env.id
      ensures net1.handoffs[x] == if Seen(net1, env.id, x.hub) && x.spoke == env.to && env.to in net1.hubs[x.hub].spokes then 1 else 0
    {
      assert net.handoffs[x] == if Seen(net, env.id, x.hub) && x.spoke == env.to && env.to in net.hubs[x.hub].spokes then 1 else 0;
    }
  }

  lemma CopiesOkFrame(net: Net, net1: Net, env: Envelope, flight: multiset<Copy>)
    requires net1.hubs == net.hubs && CopiesOk(net, env, flight)
    ensures CopiesOk(net1, env, flight)
  {
    assert forall c :: CopyOk(net, env, c) ==> CopyOk(net1, env, c);
  }

  lemma CoveredFrame(net: Net, net1: Net, net0: Net, env: Envelope, flight: multiset<Copy>, at: Key)
    requires net1.hubs == net.hubs && Covered(net, net0, env, flight, {at}) && Seen(net, env.id, at)
    ensures Covered(net1, net0, env, flight, {})
  {
    assert forall h :: Seen(net, env.id, h) <==> Seen(net1, env.id, h);
  }

  /** A hub that has seen the envelope changes nothing but that the copy is gone. */
  lemma RepeatState(net: Net, at: Key, env: Envelope, from: Option<Key>, rest: multiset<Copy>)
    requires at in net.hubs && env.id in net.hubs[at].seen
    ensures var net1 := Forwarded(net, at, env, true, from, rest);
      net1.hubs == net.hubs && InFlight(net1, env.id) == rest && net1.handoffs == net.handoffs
  {
    hide Route;
    assert net.hubs[at := net.hubs[at]] == net.hubs;
  }

  lemma SameHubs(net: Net, net1: Net, net0: Net, env: Envelope)
    requires net1.hubs == net.hubs && net1.handoffs == net.handoffs
    requires Graph(net) && SameHints(net0, net, env.to) && HandedOver(net, env)
    ensures Graph(net1) && SameHints(net0, net1, env.to) && HandedOver(net1, env)
  {
    assert forall h :: Seen(net, env.id, h) <==> Seen(net1, env.id, h);
  }

  lemma RepeatInv(net: Net, net0: Net, env: Envelope, at: Key, from: Option<Key>, rest: multiset<Copy>)
    requires Graph(net) && SameHints(net0, net, env.to) && at in net.hubs && env.id in net.hubs[at].seen
    requires CopiesOk(net, env, rest) && Covered(net, net0, env, rest, {at}) && HandedOver(net, env)
    ensures Inv(Forwarded(net, at, env, true, from, rest), net0, env)
  {
    hide Forwarded, CopiesOk, Covered, Graph, SameHints, HandedOver;
    var net1 := Forwarded(net, at, env, true, from, rest);
    assert Seen(net, env.id, at);
    RepeatState(net, at, env, from, rest);
    SameHubs(net, net1, net0, env);
    CopiesOkFrame(net, net1, env, rest);
    CoveredFrame(net, net1, net0, env, rest, at);
  }

  /** Handling one copy, or one injection, of the envelope. */
  lemma ForwardedInv(net: Net, net0: Net, env: Envelope, at: Key, from: Option<Key>, rest: multiset<Copy>)
    requires Graph(net) && SameHints(net0, net, env.to) && at in net.hubs
    requires from.Some? ==> Seen(net, env.id, from.value)
    requires CopiesOk(net, env, rest) && Covered(net, net0, env, rest, {at}) && HandedOver(net, env)
    ensures Inv(Forwarded(net, at, env, true, from, rest), net0, env)
  {
    if env.id in net.hubs[at].seen {
      RepeatInv(net, net0, env, at, from, rest);
    } else {
      HintsAfter(net0, net, at, env, true, from, rest, env.to);
      ForwardedTopology(net, at, env, true, from, rest);
      TopologyKeepsGraph(net, Forwarded(net, at, env, true, from, rest));
      FirstTimeCovered(net, net0, env, at, from, rest);
      FirstTimeCopiesOk(net, env, at, from, rest);
      FirstTimeHandedOver(net, env, at, from, rest);
    }
  }

  // ----- Steps -----

  /** Envelopes with another ID leave everything about this one alone. */
  lemma ForwardedAgrees(net: Net, at: Key, env: Envelope, valid: bool, from: Option<Key>, rest: multiset<Copy>, id: Id)
    requires at in net.hubs && env.id != id
    ensures Agree(net, Forwarded(net, at, env, valid, from, rest), id)
  {
    ForwardedTopology(net, at, env, valid, from, rest);
  }

  lemma EmittedAgrees(net: Net, at: Key, id: Id)
    requires at in net.hubs
    ensures Agree(net, Emitted(net, at), id)
  {
    EmittedTopology(net, at);
  }

  lemma AnnouncedAgrees(net: Net, at: Key, keys: set<Key>, viaHub: Option<Key>, id: Id)
    requires at in net.hubs
    ensures Agree(net, Emitted(Announced(net, at, keys, viaHub), at), id)
  {
    hide Advertised, Emitted;
    var mid := Announced(net, at, keys, viaHub);
    UpdateKeepsTopology(net, at, mid.hubs[at], mid);
    EmittedAgrees(mid, at, id);
  }

  lemma HeardAgrees(net: Net, r: Rumour, matched: bool, id: Id)
    requires r.dst in net.hubs
    ensures Agree(net, Heard(net, r, matched), id)
  {
    HeardTopology(net, r, matched);
  }

  /** Steps that do not carry this ID. */
  lemma StepAgrees(net: Net, step: Step, verify: Verifier, id: Id)
    requires Enabled(net, step)
    requires step.Inject? ==> step.env.id != id
    requires step.Deliver? ==> step.copy.env.id != id
    ensures Agree(net, Apply(net, step, verify), id)
  {
    match step
    case Inject(at, e) => ForwardedAgrees(net, at, e, verify(e), None, InFlight(net, e.id), id);
    case Deliver(c, matched) =>
      ForwardedAgrees(net, c.dst, c.env, verify(c.env), From(c.src, matched), InFlight(net, c.env.id) - multiset{c}, id);
    case EmitAt(at) => EmittedAgrees(net, at, id);
    case AnnounceAt(at, keys, viaHub) => AnnouncedAgrees(net, at, keys, viaHub, id);
    case Hear(r, matched) => HeardAgrees(net, r, matched, id);
  }

  lemma InjectKeepsInv(net: Net, net0: Net, at: Key, env: Envelope)
    requires Inv(net, net0, env) && at in net.hubs
    ensures Inv(Forwarded(net, at, env, true, None, InFlight(net, env.id)), net0, env)
  {
    ForwardedInv(net, net0, env, at, None, InFlight(net, env.id));
  }

  lemma DeliverKeepsInv(net: Net, net0: Net, c: Copy, matched: bool, env: Envelope)
    requires Inv(net, net0, env) && c in InFlight(net, env.id) && c.dst in net.hubs
    ensures c.env == env
    ensures Inv(Forwarded(net, c.dst, env, true, From(c.src, matched), InFlight(net, env.id) - multiset{c}), net0, env)
  {
    TakeCopy(net, net0, env, c);
    ForwardedInv(net, net0, env, c.dst, From(c.src, matched), InFlight(net, env.id) - multiset{c});
  }

  /** Every step of a run keeps the invariant. */
  lemma StepKeepsInv(net: Net, net0: Net, step: Step, env: Envelope, verify: Verifier)
    requires Inv(net, net0, env) && Enabled(net, step) && verify(env)
    requires Faithful(step, env) && SameHints(net0, Apply(net, step, verify), env.to)
    ensures Inv(Apply(net, step, verify), net0, env)
  {
    if step.Inject? && step.env.id == env.id {
      InjectKeepsInv(net, net0, step.at, env);
    } else if step.Deliver? && step.copy.env.id == env.id {
      DeliverKeepsInv(net, net0, step.copy, step.matched, env);
    } else {
      StepAgrees(net, step, verify, env.id);
      AgreeKeepsInv(net, Apply(net, step, verify), net0, env);
    }
  }

  /** Taking one copy out of flight uncovers at most the hub that is about to handle it. */
  lemma TakeCopy(net: Net, net0: Net, env: Envelope, c: Copy)
    requires Inv(net, net0, env) && c in InFlight(net, env.id)
    ensures CopyOk(net, env, c)
    ensures var rest := InFlight(net, env.id) - multiset{c};
      CopiesOk(net, env, rest) && Covered(net, net0, env, rest, {c.dst})
  {
    hide NextTo, Seen, HandedOver, SameHints, Graph;
    var rest := InFlight(net, env.id) - multiset{c};
    forall h, n | Seen(net, env.id, h) && NextTo(net0, env.to, h, n)
      ensures n in {c.dst} || Seen(net, env.id, n) || Targeted(rest, n)
    {
      if !Seen(net, env.id, n) && n != c.dst {
        var d :| d in InFlight(net, env.id) && d.dst == n;
        assert d in rest;
      }
    }
  }

  lemma FreshInv(net: Net, env: Envelope)
    requires Graph(net) && Fresh(net, env.id)
    ensures Inv(net, net, env)
  {
  }

  /** The conditions of a run that hands in no envelope but `env` under its ID and keeps the
      hops that the hints for its addressee name. */
  ghost predicate Steady(net0: Net, env: Envelope, verify: Verifier, states: seq<Net>, steps: seq<Step>) {
    && Run(states, steps, verify)
    && (forall s :: s in steps ==> Faithful(s, env))
    && (forall net :: net in states ==> SameHints(net0, net, env.to))
  }

  lemma SteadyStep(net0: Net, states: seq<Net>, steps: seq<Step>, env: Envelope, verify: Verifier, i: nat)
    requires Steady(net0, env, verify, states, steps) && i < |steps|
    ensures Enabled(states[i], steps[i]) && states[i + 1] == Apply(states[i], steps[i], verify)
    ensures Faithful(steps[i], env) && SameHints(net0, states[i + 1], env.to)
  {
    assert steps[i] in steps && states[i + 1] in states;
  }

  lemma {:induction false} RunKeepsInv(net0: Net, states: seq<Net>, steps: seq<Step>, env: Envelope, verify: Verifier, i: nat)
    requires Steady(net0, env, verify, states, steps) && i < |states| && verify(env)
    requires states[0] == net0 && Inv(net0, net0, env)
    ensures Inv(states[i], net0, env)
  {
    if i > 0 {
      RunKeepsInv(net0, states, steps, env, verify, i - 1);
      SteadyStep(net0, states, steps, env, verify, i - 1);
      StepKeepsInv(states[i - 1], net0, steps[i - 1], env, verify);
    }
  }

  lemma UpdateKeepsSeen(net: Net, at: Key, s: Hub, net1: Net, id: Id, h: Key)
    requires at in net.hubs && net1.hubs == net.hubs[at := s] && net.hubs[at].seen <= s.seen
    requires Seen(net, id, h)
    ensures Seen(net1, id, h)
  {
  }

  lemma ForwardedKeepsSeen(net: Net, at: Key, env: Envelope, valid: bool, from: Option<Key>, rest: multiset<Copy>, id: Id, h: Key)
    requires at in net.hubs && Seen(net, id, h)
    ensures Seen(Forwarded(net, at, env, valid, from, rest), id, h)
  {
    UpdateKeepsSeen(net, at, Forward(net.hubs[at], env, valid, from).0, Forwarded(net, at, env, valid, from, rest), id, h);
  }

  lemma AgreeKeepsSeen(a: Net, b: Net, id: Id, h: Key)
    requires Agree(a, b, id) && Seen(a, id, h)
    ensures Seen(b, id, h)
  {
  }

  lemma SeenStays(net: Net, step: Step, verify: Verifier, id: Id, h: Key)
    requires Enabled(net, step) && Seen(net, id, h)
    ensures Seen(Apply(net, step, verify), id, h)
  {
    match step
    case Inject(at, e) => ForwardedKeepsSeen(net, at, e, verify(e), None, InFlight(net, e.id), id, h);
    case Deliver(c, matched) =>
      ForwardedKeepsSeen(net, c.dst, c.env, verify(c.env), From(c.src, matched), InFlight(net, c.env.id) - multiset{c}, id, h);
    case _ =>
      StepAgrees(net, step, verify, id);
      AgreeKeepsSeen(net, Apply(net, step, verify), id, h);
  }

  lemma {:induction false} SeenStaysInRun(states: seq<Net>, steps: seq<Step>, verify: Verifier, id: Id, h: Key, i: nat, j: nat)
    requires Run(states, steps, verify) && i <= j < |states| && Seen(states[i], id, h)
    ensures Seen(states[j], id, h)
  {
    hide Apply, Enabled, Seen;
    if i < j {
      SeenStaysInRun(states, steps, verify, id, h, i, j - 1);
      RunStep(states, steps, verify, j - 1);
      SeenStays(states[j - 1], steps[j - 1], verify, id, h);
    }
  }

  lemma SeenAfterInject(net: Net, at: Key, env: Envelope, verify: Verifier)
    requires at in net.hubs && verify(env)
    ensures Seen(Apply(net, Inject(at, env), verify), env.id, at)
  {
    SeenAfter(net, at, env, None, InFlight(net, env.id));
  }

  lemma InjectedIsSeen(states: seq<Net>, steps: seq<Step>, verify: Verifier, at: Key, env: Envelope)
    requires Run(states, steps, verify) && Inject(at, env) in steps && verify(env)
    ensures Seen(states[|steps|], env.id, at)
  {
    hide Apply, Enabled, Seen;
    var i :| 0 <= i < |steps| && steps[i] == Inject(at, env);
    RunStep(states, steps, verify, i);
    SeenAfterInject(states[i], at, env, verify);
    SeenStaysInRun(states, steps, verify, env.id, at, i + 1, |steps|);
  }

  /** With nothing in flight, handling has spread along every trail. */
  lemma {:induction false} SeenSpreads(net: Net, net0: Net, env: Envelope, p: seq<Key>, i: nat)
    requires Inv(net, net0, env) && InFlight(net, env.id) == multiset{}
    requires Trail(net0, env.to, p) && i < |p| && Seen(net, env.id, p[0])
    ensures Seen(net, env.id, p[i])
  {
    if i > 0 {
      SeenSpreads(net, net0, env, p, i - 1);
      assert NextTo(net0, env.to, p[i - 1], p[i]);
    }
  }

  lemma SettledDelivers(net: Net, net0: Net, env: Envelope, at: Key, home: Key)
    requires Inv(net, net0, env) && InFlight(net, env.id) == multiset{}
    requires SoleHome(net0, env.to, home) && Reaches(net0, env.to, at, home) && Seen(net, env.id, at)
    ensures DeliveredOnce(net, env, home)
  {
    var p :| Trail(net0, env.to, p) && p[0] == at && p[|p| - 1] == home;
    SeenSpreads(net, net0, env, p, |p| - 1);
  }

  /** If hints and links lead to the home of the addressee, every complete run delivers, once,
      in whatever order messages arrive and whichever sessions they arrive on. */
  lemma DeliversIfReachable(net0: Net, at: Key, env: Envelope, home: Key, verify: Verifier, states: seq<Net>, steps: seq<Step>)
    requires Graph(net0) && Fresh(net0, env.id) && verify(env) && SoleHome(net0, env.to, home)
    requires Reaches(net0, env.to, at, home)
    requires CompleteRun(net0, at, env, verify, states, steps)
    ensures DeliveredOnce(states[|steps|], env, home)
  {
    FreshInv(net0, env);
    RunKeepsInv(net0, states, steps, env, verify, |steps|);
    InjectedIsSeen(states, steps, verify, at, env);
    SettledDelivers(states[|steps|], net0, env, at, home);
  }

  // ----- The other direction: a run that swallows the envelope -----

  /** Only hubs on trails from `at` have the envelope or a copy coming. */
  ghost predicate Confined(net: Net, net0: Net, env: Envelope, at: Key) {
    && (forall h :: Seen(net, env.id, h) ==> Reaches(net0, env.to, at, h))
    && (forall c :: c in InFlight(net, env.id) ==> Reaches(net0, env.to, at, c.dst))
  }

  lemma TrailExtends(net: Net, to: Key, a: Key, b: Key, c: Key)
    requires Reaches(net, to, a, b) && NextTo(net, to, b, c)
    ensures Reaches(net, to, a, c)
  {
    var p :| Trail(net, to, p) && p[0] == a && p[|p| - 1] == b;
    var q := p + [c];
    forall i, j | 0 <= i && j == i + 1 && j < |q| ensures NextTo(net, to, q[i], q[j]) {
      if j < |p| {
        assert NextTo(net, to, p[i], p[j]);
      }
    }
    assert Trail(net, to, q);
  }

  /** On sessions that match no registered one, a hub sends exactly to its next hubs. */
  lemma UnmatchedRoute(net0: Net, net: Net, at: Key, to: Key)
    requires SameHints(net0, net, to) && at in net.hubs && Graph(net)
    ensures var o := Route(net.hubs[at], to, None);
      o.ToHubs? ==> forall n :: n in o.hubs ==> NextTo(net0, to, at, n)
  {
  }

  lemma UnmatchedConfined(net: Net, net0: Net, env: Envelope, at: Key, h: Key, rest: multiset<Copy>)
    requires Graph(net) && SameHints(net0, net, env.to) && h in net.hubs
    requires Reaches(net0, env.to, at, h)
    requires forall g :: Seen(net, env.id, g) ==> Reaches(net0, env.to, at, g)
    requires forall c :: c in rest ==> Reaches(net0, env.to, at, c.dst)
    ensures Confined(Forwarded(net, h, env, true, None, rest), net0, env, at)
  {
    var net1 := Forwarded(net, h, env, true, None, rest);
    SeenAfter(net, h, env, None, rest);
    forall c | c in InFlight(net1, env.id) ensures Reaches(net0, env.to, at, c.dst) {
      if c !in rest {
        assert c in CopiesTo(h, Route(net.hubs[h], env.to, None).hubs, env);
        UnmatchedRoute(net0, net, h, env.to);
        TrailExtends(net0, env.to, at, h, c.dst);
      }
    }
  }

  /** Nothing but deliveries, on sessions that are not registered. */
  ghost predicate Unmatched(steps: seq<Step>) { forall s :: s in steps ==> s.Deliver? && !s.matched }

  lemma DrainStep(net: Net, net0: Net, env: Envelope, at: Key, c: Copy, verify: Verifier)
    requires Inv(net, net0, env) && Confined(net, net0, env, at) && verify(env) && c in InFlight(net, env.id)
    ensures c.env == env && SameHints(net0, net, env.to)
    ensures var step := Deliver(c, false);
      && Enabled(net, step)
      && Inv(Apply(net, step, verify), net0, env)
      && Confined(Apply(net, step, verify), net0, env, at)
      && T.Measure(Apply(net, step, verify), env.id) < T.Measure(net, env.id)
  {
    hide Forwarded, Covered, HandedOver, T.Measure;
    TakeCopy(net, net0, env, c);
    DeliverKeepsInv(net, net0, c, false, env);
    UnmatchedConfined(net, net0, env, at, c.dst, InFlight(net, env.id) - multiset{c});
    T.StepPays(net, Deliver(c, false), verify, env.id);
    assert Enabled(net, Deliver(c, false));
    assert Apply(net, Deliver(c, false), verify) == Forwarded(net, c.dst, env, true, None, InFlight(net, env.id) - multiset{c});
    assert T.Deliveries(Deliver(c, false), env.id) == 1;
  }

  /** From any state, delivering the copies one by one on unmatched sessions ends with none in
      flight and reaches no hub off the trails. */
  lemma {:induction false} Drain(net: Net, net0: Net, env: Envelope, at: Key, verify: Verifier)
    returns (states: seq<Net>, steps: seq<Step>)
    requires Inv(net, net0, env) && Confined(net, net0, env, at) && verify(env)
    ensures Steady(net0, env, verify, states, steps) && states[0] == net
    ensures InFlight(states[|steps|], env.id) == multiset{}
    ensures Inv(states[|steps|], net0, env) && Confined(states[|steps|], net0, env, at)
    ensures Unmatched(steps)
    decreases T.Measure(net, env.id)
  {
    hide Forwarded, Inv, Confined, Steady, Enabled, Apply, T.Measure;
    if InFlight(net, env.id) == multiset{} {
      states, steps := [net], [];
      SteadyStart(net, net0, env, verify);
    } else {
      var c :| c in InFlight(net, env.id);
      DrainStep(net, net0, env, at, c, verify);
      var step := Deliver(c, false);
      var ss, ts := Drain(Apply(net, step, verify), net0, env, at, verify);
      states, steps := [net] + ss, [step] + ts;
      SteadyCons(net0, env, verify, net, step, ss, ts);
    }
  }

  lemma SteadyStart(net: Net, net0: Net, env: Envelope, verify: Verifier)
    requires Inv(net, net0, env)
    ensures Steady(net0, env, verify, [net], [])
  {
    hide SameHints;
  }

  lemma SteadyCons(net0: Net, env: Envelope, verify: Verifier, net: Net, step: Step, ss: seq<Net>, ts: seq<Step>)
    requires Steady(net0, env, verify, ss, ts) && Enabled(net, step) && ss[0] == Apply(net, step, verify)
    requires Faithful(step, env) && SameHints(net0, net, env.to)
    ensures Steady(net0, env, verify, [net] + ss, [step] + ts)
  {
    hide Apply, Enabled, SameHints, Faithful;
    var states, steps := [net] + ss, [step] + ts;
    forall i | 0 <= i < |steps| ensures Enabled(states[i], steps[i]) && states[i + 1] == Apply(states[i], steps[i], verify) {
      if i > 0 {
        SteadyStep(net0, ss, ts, env, verify, i - 1);
      }
    }
  }

  /** If they do not lead there, some complete run swallows the envelope. */
  lemma SwallowsIfUnreachable(net0: Net, at: Key, env: Envelope, home: Key, verify: Verifier)
    returns (states: seq<Net>, steps: seq<Step>)
    requires Graph(net0) && Fresh(net0, env.id) && verify(env) && SoleHome(net0, env.to, home) && at in net0.hubs
    requires !Reaches(net0, env.to, at, home)
    ensures CompleteRun(net0, at, env, verify, states, steps)
    ensures Follows(steps, Unregistered) && HandedInAt(steps, env, at)
    ensures states[|steps|].handoffs[Handoff(home, env.to, env.id)] == 0
  {
    var ss, ts := SwallowingStart(net0, at, env, home, verify);
    StartRun(net0, at, env, verify, ss, ts);
    states, steps := [net0] + ss, [Inject(at, env)] + ts;
  }

  lemma SwallowingRest(net: Net, net0: Net, at: Key, env: Envelope, home: Key, verify: Verifier)
    returns (ss: seq<Net>, ts: seq<Step>)
    requires Inv(net, net0, env) && Confined(net, net0, env, at) && verify(env)
    requires !Reaches(net0, env.to, at, home)
    ensures Steady(net0, env, verify, ss, ts) && ss[0] == net
    ensures InFlight(ss[|ts|], env.id) == multiset{} && Unmatched(ts)
    ensures ss[|ts|].handoffs[Handoff(home, env.to, env.id)] == 0
  {
    ss, ts := Drain(net, net0, env, at, verify);
    NotSeenNotHanded(ss[|ts|], net0, at, env, home);
  }

  lemma SwallowingStart(net0: Net, at: Key, env: Envelope, home: Key, verify: Verifier)
    returns (ss: seq<Net>, ts: seq<Step>)
    requires Graph(net0) && Fresh(net0, env.id) && verify(env) && at in net0.hubs
    requires !Reaches(net0, env.to, at, home)
    ensures SameHints(net0, net0, env.to)
    ensures Steady(net0, env, verify, ss, ts) && ss[0] == Forwarded(net0, at, env, true, None, InFlight(net0, env.id))
    ensures InFlight(ss[|ts|], env.id) == multiset{} && Unmatched(ts)
    ensures ss[|ts|].handoffs[Handoff(home, env.to, env.id)] == 0
  {
    hide Forwarded, Inv, Confined, Steady;
    InjectedState(net0, at, env);
    ss, ts := SwallowingRest(Forwarded(net0, at, env, true, None, InFlight(net0, env.id)), net0, at, env, home, verify);
  }

  lemma StartRun(net0: Net, at: Key, env: Envelope, verify: Verifier, ss: seq<Net>, ts: seq<Step>)
    requires at in net0.hubs && verify(env) && SameHints(net0, net0, env.to)
    requires Steady(net0, env, verify, ss, ts) && ss[0] == Forwarded(net0, at, env, true, None, InFlight(net0, env.id))
    requires InFlight(ss[|ts|], env.id) == multiset{}
    ensures CompleteRun(net0, at, env, verify, [net0] + ss, [Inject(at, env)] + ts)
    ensures ([net0] + ss)[|[Inject(at, env)] + ts|] == ss[|ts|]
  {
    assert Apply(net0, Inject(at, env), verify) == ss[0];
    SteadyCons(net0, env, verify, net0, Inject(at, env), ss, ts);
    assert ([Inject(at, env)] + ts)[0] == Inject(at, env);
  }

  lemma InjectedState(net0: Net, at: Key, env: Envelope)
    requires Graph(net0) && Fresh(net0, env.id) && at in net0.hubs
    ensures var net := Forwarded(net0, at, env, true, None, InFlight(net0, env.id));
      Inv(net, net0, env) && Confined(net, net0, env, at)
  {
    FreshInv(net0, env);
    InjectKeepsInv(net0, net0, at, env);
    assert Trail(net0, env.to, [at]);
    UnmatchedConfined(net0, net0, env, at, at, InFlight(net0, env.id));
  }

  lemma NotSeenNotHanded(net: Net, net0: Net, at: Key, env: Envelope, home: Key)
    requires Inv(net, net0, env) && Confined(net, net0, env, at) && !Reaches(net0, env.to, at, home)
    ensures net.handoffs[Handoff(home, env.to, env.id)] == 0
  {
    assert !Seen(net, env.id, home);
  }

  /** The condition that serves for every arrangement that connections can give rise to: in whatever
      symmetric arrangement, every complete run delivers exactly once, if and only if the hints and
      links lead from the hub where the envelope is handed in to the hub of its addressee. */
  lemma DeliveryIsReachability(net0: Net, at: Key, env: Envelope, home: Key, verify: Verifier)
    requires Graph(net0) && Fresh(net0, env.id) && verify(env) && SoleHome(net0, env.to, home) && at in net0.hubs
    ensures Reaches(net0, env.to, at, home) <==>
      forall sessions, states, steps ::
        Symmetric(sessions) && CompleteRun(net0, at, env, verify, states, steps) && Follows(steps, sessions)
        ==> DeliveredOnce(states[|steps|], env, home)
  {
    if Reaches(net0, env.to, at, home) {
      forall sessions: Arrangement, states, steps
        | Symmetric(sessions) && CompleteRun(net0, at, env, verify, states, steps) && Follows(steps, sessions)
        ensures DeliveredOnce(states[|steps|], env, home)
      {
        DeliversIfReachable(net0, at, env, home, verify, states, steps);
      }
    } else {
      var states, steps := SwallowsIfUnreachable(net0, at, env, home, verify);
      NotHandedNotDelivered(states[|steps|], env, home);
      assert Symmetric(Unregistered);
    }
  }

  lemma NotHandedNotDelivered(net: Net, env: Envelope, home: Key)
    requires net.handoffs[Handoff(home, env.to, env.id)] == 0
    ensures !DeliveredOnce(net, env, home)
  {
  }

  // ----- A condition that the hub tables meet when hints are sound -----

  /** Following the hops that hints name, at most n of them, leads from `h` to `home`. */
  predicate ChainsHome(net: Net, to: Key, h: Key, home: Key, n: nat)
    decreases n
  {
    h == home ||
    (h in net.hubs && n > 0 && Hop(net.hubs[h], to).Some? && ChainsHome(net, to, Hop(net.hubs[h], to).value, home, n - 1))
  }

  /** Every chain of hops ends at the home of the addressee. */
  ghost predicate SoundHints(net: Net, to: Key, home: Key) {
    forall h :: h in net.hubs && Hop(net.hubs[h], to).Some? ==> exists n :: ChainsHome(net, to, h, home, n)
  }

  lemma {:induction false} ChainReaches(net: Net, to: Key, at: Key, h: Key, home: Key, n: nat)
    requires Graph(net) && SoleHome(net, to, home)
    requires Reaches(net, to, at, h) && ChainsHome(net, to, h, home, n)
    ensures Reaches(net, to, at, home)
    decreases n
  {
    if h != home {
      var next := Hop(net.hubs[h], to).value;
      assert NextTo(net, to, h, next);
      TrailExtends(net, to, at, h, next);
      ChainReaches(net, to, at, next, home, n - 1);
    }
  }

  /** Going along a path of links either gets to its i-th hub or gets home. */
  lemma {:induction false} PathReaches(net: Net, to: Key, home: Key, p: seq<Key>, i: nat)
    requires Graph(net) && SoleHome(net, to, home) && SoundHints(net, to, home)
    requires Path(net, p) && i < |p|
    ensures Reaches(net, to, p[0], p[i]) || Reaches(net, to, p[0], home)
  {
    if i == 0 {
      assert Trail(net, to, [p[0]]);
    } else {
      PathReaches(net, to, home, p, i - 1);
      var h := p[i - 1];
      assert Adjacent(net, h, p[i]);
      if !Reaches(net, to, p[0], home) {
        if Hop(net.hubs[h], to).Some? {
          var n :| ChainsHome(net, to, h, home, n);
          ChainReaches(net, to, p[0], h, home, n);
        } else {
          assert h != home;
          assert NextTo(net, to, h, p[i]);
          TrailExtends(net, to, p[0], h, p[i]);
        }
      }
    }
  }

  /** On a connected graph whose hints are sound, every hub reaches the addressee. */
  lemma SoundHintsDeliver(net0: Net, at: Key, env: Envelope, home: Key, verify: Verifier, states: seq<Net>, steps: seq<Step>)
    requires Graph(net0) && Connected(net0) && Fresh(net0, env.id) && verify(env) && at in net0.hubs
    requires SoleHome(net0, env.to, home) && SoundHints(net0, env.to, home)
    requires CompleteRun(net0, at, env, verify, states, steps)
    ensures DeliveredOnce(states[|steps|], env, home)
  {
    assert Linked(net0, at, home);
    var p :| Path(net0, p) && p[0] == at && p[|p| - 1] == home;
    PathReaches(net0, env.to, home, p, |p| - 1);
    DeliversIfReachable(net0, at, env, home, verify, states, steps);
  }
}
