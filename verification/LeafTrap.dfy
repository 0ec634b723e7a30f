/** A leaf of the graph can take delivery away from its only neighbour. A hub advertises the spokes
    that it has heard of beside its own (hub/server.go:364-373), and sends a round whenever a spoke has
    announced itself, as it does on connecting (hub/spoke.go:178). Such a round from a leaf points the
    neighbour's hints for other spokes at the leaf, and the leaf can only send envelopes back. */
module LeafTrap {
  import opened Envelopes
  import opened HubState
  import opened Network
  import opened Delivery
  import opened Arrangements
  import opened Gossips
  import opened GossipHints
  import opened Wrappers
  import GT = GossipTermination

  /** Hub b is the only link of hub a, and neither is home. */
  ghost predicate Leaf(net: Net, a: Key, b: Key, home: Key) {
    a in net.hubs && net.hubs[a].peers == {b} && a != b && a != home && b != home
  }

  /** The hint of hub b points at the leaf. */
  ghost predicate Trap(net: Net, to: Key, a: Key, b: Key, home: Key) {
    Leaf(net, a, b, home) && b in net.hubs && Hop(net.hubs[b], to) == Some(a)
  }

  // ----- What enters at the neighbour is lost -----

  lemma TrapRoutes(net0: Net, net: Net, to: Key, a: Key, b: Key, home: Key, from: Option<Key>)
    requires Trap(net0, to, a, b, home) && SoleHome(net0, to, home) && SameHints(net0, net, to)
    ensures a in net.hubs && b in net.hubs
    ensures Route(net.hubs[b], to, None) == ToHubs({a})
    ensures Route(net.hubs[a], to, from).ToHubs? && Route(net.hubs[a], to, from).hubs <= {b}
  {
  }

  /** The envelope is at the neighbour and the leaf only, and was at the neighbour first. */
  ghost predicate Held(net: Net, env: Envelope, a: Key, b: Key) {
    && (forall h :: Seen(net, env.id, h) ==> h == a || h == b)
    && (forall c :: c in InFlight(net, env.id) ==> c.dst == a || c.dst == b)
    && (Seen(net, env.id, b) || (InFlight(net, env.id) == multiset{} && !Seen(net, env.id, a)))
  }

  lemma ForwardedHeld(net: Net, net0: Net, env: Envelope, a: Key, b: Key, home: Key, at: Key, from: Option<Key>,
                      rest: multiset<Copy>)
    requires Trap(net0, env.to, a, b, home) && SoleHome(net0, env.to, home) && SameHints(net0, net, env.to)
    requires at in net.hubs && (if at == b then from.None? || Seen(net, env.id, b) else at == a && Seen(net, env.id, b))
    requires forall h :: Seen(net, env.id, h) ==> h == a || h == b
    requires forall c :: c in rest ==> c.dst == a || c.dst == b
    ensures Held(Forwarded(net, at, env, true, from, rest), env, a, b)
  {
    hide Forwarded, Route, SameHints, SoleHome, Trap;
    if env.id in net.hubs[at].seen {
      RepeatState(net, at, env, from, rest);
      assert forall h :: Seen(Forwarded(net, at, env, true, from, rest), env.id, h) <==> Seen(net, env.id, h);
    } else {
      SeenAfter(net, at, env, from, rest);
      TrapRoutes(net0, net, env.to, a, b, home, from);
      forall c | c in InFlight(Forwarded(net, at, env, true, from, rest), env.id) ensures c.dst == a || c.dst == b {
        FirstTimeFlight(net, at, env, from, rest, c);
      }
    }
  }

  lemma StepHeld(net: Net, net0: Net, step: Step, env: Envelope, verify: Verifier, a: Key, b: Key, home: Key)
    requires Trap(net0, env.to, a, b, home) && SoleHome(net0, env.to, home)
    requires Inv(net, net0, env) && Held(net, env, a, b) && Enabled(net, step) && verify(env) && Faithful(step, env)
    requires step.Inject? && step.env.id == env.id ==> step.at == b
    ensures Held(Apply(net, step, verify), env, a, b)
  {
    hide Forwarded, Trap, SoleHome, SameHints, Covered, HandedOver, Graph;
    if step.Inject? && step.env.id == env.id {
      ForwardedHeld(net, net0, env, a, b, home, b, None, InFlight(net, env.id));
    } else if step.Deliver? && step.copy.env.id == env.id {
      var c := step.copy;
      assert CopyOk(net, env, c);
      ForwardedHeld(net, net0, env, a, b, home, c.dst, From(c.src, step.matched), InFlight(net, env.id) - multiset{c});
    } else {
      StepAgrees(net, step, verify, env.id);
      AgreeHeld(net, Apply(net, step, verify), env, a, b);
    }
  }

  lemma AgreeHeld(net: Net, net1: Net, env: Envelope, a: Key, b: Key)
    requires Held(net, env, a, b) && Agree(net, net1, env.id)
    ensures Held(net1, env, a, b)
  {
    assert forall h :: Seen(net, env.id, h) <==> Seen(net1, env.id, h);
  }

  lemma {:induction false} RunHeld(net0: Net, states: seq<Net>, steps: seq<Step>, env: Envelope, verify: Verifier,
                                   a: Key, b: Key, home: Key, i: nat)
    requires Trap(net0, env.to, a, b, home) && SoleHome(net0, env.to, home)
    requires Graph(net0) && Fresh(net0, env.id) && verify(env)
    requires Steady(net0, env, verify, states, steps) && states[0] == net0 && HandedInAt(steps, env, b) && i < |states|
    ensures Inv(states[i], net0, env) && Held(states[i], env, a, b)
  {
    hide Trap, SoleHome, Inv, Apply, Enabled, SameHints, Graph, Faithful;
    FreshInv(net0, env);
    if i > 0 {
      RunHeld(net0, states, steps, env, verify, a, b, home, i - 1);
      SteadyStep(net0, states, steps, env, verify, i - 1);
      assert steps[i - 1] in steps;
      StepHeld(states[i - 1], net0, steps[i - 1], env, verify, a, b, home);
      StepKeepsInv(states[i - 1], net0, steps[i - 1], env, verify);
    }
  }

  /** An envelope that is handed in at the neighbour is never handed to anybody, in any run and on
      whatever sessions its copies arrive. */
  lemma NeverDelivered(net0: Net, env: Envelope, verify: Verifier, a: Key, b: Key, home: Key,
                       states: seq<Net>, steps: seq<Step>, x: Handoff)
    requires Trap(net0, env.to, a, b, home) && SoleHome(net0, env.to, home)
    requires Graph(net0) && Fresh(net0, env.id) && verify(env)
    requires CompleteRun(net0, b, env, verify, states, steps) && HandedInAt(steps, env, b)
    requires x.id == env.id
    ensures states[|steps|].handoffs[x] == 0
  {
    hide Steady, HandedInAt, Covered;
    assert |states| == |steps| + 1 by { SteadyLength(net0, env, verify, states, steps); }
    RunHeld(net0, states, steps, env, verify, a, b, home, |steps|);
  }

  lemma AllLost(net: Net, env: Envelope, verify: Verifier, a: Key, b: Key, home: Key)
    requires Trap(net, env.to, a, b, home) && SoleHome(net, env.to, home)
    requires Graph(net) && Fresh(net, env.id) && verify(env)
    ensures forall states, steps ::
      CompleteRun(net, b, env, verify, states, steps) && HandedInAt(steps, env, b)
      ==> !DeliveredOnce(states[|steps|], env, home)
  {
    hide Steady, HandedInAt, Trap, SoleHome, Graph, Fresh;
    forall states, steps | CompleteRun(net, b, env, verify, states, steps) && HandedInAt(steps, env, b)
      ensures |states| == |steps| + 1 && !DeliveredOnce(states[|steps|], env, home)
    {
      SteadyLength(net, env, verify, states, steps);
      NeverDelivered(net, env, verify, a, b, home, states, steps, Handoff(home, env.to, env.id));
    }
  }

  // ----- Where it enters matters: the leaf itself -----

  lemma TrapOnward(net: Net, to: Key, a: Key, b: Key, home: Key, from: Option<Key>)
    requires Graph(net) && Trap(net, to, a, b, home) && SoleHome(net, to, home)
    ensures Onward(net, to, Visit(b, None)) == {a}
    ensures Onward(net, to, Visit(a, None)) == {b} && Onward(net, to, Visit(a, from)) <= {b}
    ensures Onward(net, to, Visit(b, Some(a))) == net.hubs[b].peers - {a}
  {
  }

  /** From the neighbour to the leaf, and no further. */
  lemma NeighbourPocket(net: Net, to: Key, a: Key, b: Key, home: Key, sessions: Arrangement)
    requires Graph(net) && Trap(net, to, a, b, home) && SoleHome(net, to, home)
    ensures Pocket(net, to, sessions, b, home, [Visit(b, None), Visit(a, From(b, sessions(b, a)))])
  {
    hide Onward;
    var vs := [Visit(b, None), Visit(a, From(b, sessions(b, a)))];
    TrapOnward(net, to, a, b, home, vs[1].from);
    TwoPocket(net, to, sessions, home, vs);
  }

  /** Two visits that lead to no third hub are a pocket. */
  lemma TwoPocket(net: Net, to: Key, sessions: Arrangement, home: Key, vs: seq<Visit>)
    requires |vs| == 2 && vs[0].from.None? && vs[0].hub in net.hubs
    requires vs[0].hub != vs[1].hub && vs[0].hub != home && vs[1].hub != home
    requires Onward(net, to, vs[0]) == {vs[1].hub} && Onward(net, to, vs[1]) <= {vs[0].hub}
    requires vs[1].from == From(vs[0].hub, sessions(vs[0].hub, vs[1].hub))
    ensures Pocket(net, to, sessions, vs[0].hub, home, vs)
  {
    hide Onward;
    assert vs[..1] == [vs[0]];
    assert SentOn(net, to, sessions, vs[..1], vs[1]) by { assert vs[..1][0] == vs[0]; }
    assert Visits(vs, vs[0].hub) && Visits(vs, vs[1].hub);
  }

  /** The run that loses it exists, in every arrangement of sessions. */
  lemma SomeRunIsLost(net0: Net, env: Envelope, verify: Verifier, a: Key, b: Key, home: Key, sessions: Arrangement)
    returns (states: seq<Net>, steps: seq<Step>)
    requires Trap(net0, env.to, a, b, home) && SoleHome(net0, env.to, home)
    requires Graph(net0) && Fresh(net0, env.id) && verify(env)
    ensures |states| == |steps| + 1 && CompleteRun(net0, b, env, verify, states, steps)
    ensures Follows(steps, sessions) && HandedInAt(steps, env, b) && !DeliveredOnce(states[|steps|], env, home)
  {
    hide Pocket, CompleteRun, Follows, HandedInAt;
    NeighbourPocket(net0, env.to, a, b, home, sessions);
    states, steps := PocketSwallows(net0, b, env, home, verify, sessions, [Visit(b, None), Visit(a, From(b, sessions(b, a)))]);
  }

  /** A tour from the leaf goes on to the neighbour. */
  lemma TourFromLeaf(net: Net, to: Key, a: Key, b: Key, home: Key, sessions: Arrangement, vs: seq<Visit>)
    requires Graph(net) && Trap(net, to, a, b, home) && SoleHome(net, to, home)
    requires Pocket(net, to, sessions, a, home, vs)
    ensures |vs| > 1 && vs[1] == Visit(b, From(a, sessions(a, b)))
  {
    hide Onward, Trap, SoleHome, Graph;
    assert a != b by { TrapHubs(net, to, a, b, home); }
    TrapOnward(net, to, a, b, home, None);
    assert b in Onward(net, to, vs[0]);
    assert Visits(vs, b);
    assert SentOn(net, to, sessions, vs[..1], vs[1]);
    assert vs[..1] == [vs[0]];
  }

  lemma TrapHubs(net: Net, to: Key, a: Key, b: Key, home: Key)
    requires Trap(net, to, a, b, home)
    ensures a in net.hubs && b in net.hubs && a != b && a != home && b != home
  {
  }

  /** An envelope that is handed in at the leaf gets back to the neighbour from the hub that its hint
      names. Where home is another link of the neighbour, every complete run delivers it exactly once
      if and only if what the leaf sends arrives on the session that is registered for it. */
  lemma FromLeafIff(net0: Net, env: Envelope, verify: Verifier, a: Key, b: Key, home: Key, sessions: Arrangement)
    requires Trap(net0, env.to, a, b, home) && SoleHome(net0, env.to, home) && home in net0.hubs[b].peers
    requires Graph(net0) && Fresh(net0, env.id) && verify(env)
    ensures !Reaches(net0, env.to, a, home) && !Reaches(net0, env.to, b, home)
    ensures sessions(a, b) <==>
      forall states, steps ::
        CompleteRun(net0, a, env, verify, states, steps) && Follows(steps, sessions) && HandedInAt(steps, env, a)
        ==> DeliveredOnce(states[|steps|], env, home)
  {
    hide Pocket, CompleteRun, Follows, HandedInAt, DeliveredOnce, Fresh, Reaches;
    DeliveryInArrangement(net0, a, env, home, verify, sessions);
    LeafPocketIff(net0, env.to, a, b, home, sessions);
    LeafPocketIff(net0, env.to, a, b, home, Unregistered);
    UnregisteredPockets(net0, a, env, home, verify);
    NeighbourPocket(net0, env.to, a, b, home, Unregistered);
    UnregisteredPockets(net0, b, env, home, verify);
  }

  lemma LeafPocketIff(net: Net, to: Key, a: Key, b: Key, home: Key, sessions: Arrangement)
    requires Graph(net) && Trap(net, to, a, b, home) && SoleHome(net, to, home) && home in net.hubs[b].peers
    ensures sessions(a, b) <==> forall vs :: !Pocket(net, to, sessions, a, home, vs)
  {
    hide Graph, SoleHome, Onward, Pocket;
    TrapOnward(net, to, a, b, home, None);
    if sessions(a, b) {
      forall vs ensures !Pocket(net, to, sessions, a, home, vs) {
        if Pocket(net, to, sessions, a, home, vs) {
          TourFromLeaf(net, to, a, b, home, sessions, vs);
          PocketClosed(net, to, sessions, a, home, vs, 1);
        }
      }
    } else {
      TwoPocket(net, to, sessions, home, [Visit(a, None), Visit(b, None)]);
    }
  }

  lemma PocketClosed(net: Net, to: Key, sessions: Arrangement, at: Key, home: Key, vs: seq<Visit>, i: nat)
    requires Pocket(net, to, sessions, at, home, vs) && i < |vs|
    ensures home !in Onward(net, to, vs[i])
  {
  }

  // ----- Presence at the leaf sets the trap -----

  lemma AgreeFresh(net: Net, net1: Net, id: Id)
    requires Agree(net, net1, id) && Fresh(net, id)
    ensures Fresh(net1, id)
  {
    assert forall x: Handoff :: x.id == id ==> net1.handoffs[x] == net.handoffs[x];
  }

  lemma SameLeaf(net: Net, net1: Net, a: Key, b: Key, home: Key, to: Key)
    requires SameTopology(net, net1) && Leaf(net, a, b, home) && SoleHome(net, to, home)
    ensures Leaf(net1, a, b, home) && SoleHome(net1, to, home) && net1.hubs[a].spokes == net.hubs[a].spokes
  {
  }

  lemma LeafHubs(net: Net, a: Key, b: Key, home: Key)
    requires Leaf(net, a, b, home)
    ensures a in net.hubs && a != home && a != b && b != home
  {
  }

  /** The message in which the neighbour hears of the announcement of spoke v. */
  function PresenceRound(net: Net, a: Key, b: Key, v: Key): Rumour
    requires a in net.hubs
  {
    Rumour(a, b, Emit(Announce(net.hubs[a], {v}, None)).1)
  }

  /** The round is in flight to the neighbour, advertises the addressee and is news. */
  lemma PresenceSent(net: Net, a: Key, b: Key, home: Key, v: Key, to: Key, verify: Verifier)
    requires GossipInv(net) && Leaf(net, a, b, home) && SoleHome(net, to, home)
    requires Advertises(net, a, to) && v in net.hubs[a].spokes
    ensures var net1 := Apply(net, AnnounceAt(a, {v}, None), verify); var r := PresenceRound(net, a, b, v);
      && r.gossip.origin == a
      && GossipInv(net1) && SameTopology(net, net1) && b in net1.hubs
      && r in Spreading(net1, RoundOf(r.gossip)) && to in r.gossip.entries && !Stale(net1.hubs[b], r.gossip)
  {
    hide Emitted, GossipInv, HintOf, Advertises, PointAll, RumoursTo, Spreading, Stale;
    var mid := Announced(net, a, {v}, None);
    var g := Emit(mid.hubs[a]).1;
    assert mid.hubs[a].self == a by { InvGraph(net); }
    StepKeepsGossipInv(net, AnnounceAt(a, {v}, None), verify);
    StepKeepsTopology(net, AnnounceAt(a, {v}, None), verify);
    AnnouncedInv(net, a, {v}, None);
    InvGraph(mid);
    UpdateKeepsTopology(net, a, mid.hubs[a], mid);
    AnnouncedHint(net, a, {v}, None, a, to);
    SameAdvertises(net, mid, a, to);
    EmittedAdvertises(mid, a, to);
    RoundIsNews(mid, a, b);
  }

  lemma RoundIsNews(net: Net, a: Key, b: Key)
    requires GossipInv(net) && a in net.hubs && b in net.hubs[a].peers && a != b
    ensures var net1 := Emitted(net, a); var r := Rumour(a, b, Emit(net.hubs[a]).1);
      && b in net1.hubs && r in Spreading(net1, RoundOf(r.gossip)) && !Stale(net1.hubs[b], r.gossip)
  {
    hide Emitted, Emit, Passed, EntriesKnown, SpokesAdvertised;
    var g := Emit(net.hubs[a]).1;
    EmittedSpreading(net, a);
    EmittedTopology(net, a);
    RumoursToAll(a, net.hubs[a].peers, g, b);
    EmittedNumbers(net, a);
    assert Newest(Emitted(net, a), b, a) < g.round;
  }

  lemma PointsBack(net: Net, to: Key, a: Key, b: Key, home: Key)
    requires Graph(net) && Leaf(net, a, b, home) && HintOf(net, b, to) == Some(a)
    ensures Trap(net, to, a, b, home)
  {
  }

  lemma HeardTraps(net: Net, r: Rumour, matched: bool, a: Key, b: Key, home: Key, env: Envelope)
    requires GossipInv(net) && Leaf(net, a, b, home) && SoleHome(net, env.to, home) && Fresh(net, env.id)
    requires r in Spreading(net, RoundOf(r.gossip)) && b in net.hubs && r.dst == b && r.gossip.origin == a
    requires env.to in r.gossip.entries && !Stale(net.hubs[b], r.gossip)
    ensures var net1 := Heard(net, r, matched);
      Trap(net1, env.to, a, b, home) && SoleHome(net1, env.to, home) && Graph(net1) && Fresh(net1, env.id)
  {
    hide GossipInv, Heard, SoleHome, Fresh, Leaf, Trap, Stale, HintOf, Graph, SameTopology, Spreading, Agree;
    var net1 := Heard(net, r, matched);
    HeardTopology(net, r, matched);
    SameLeaf(net, net1, a, b, home, env.to);
    HeardInv(net, r, matched);
    InvGraph(net1);
    HeardHint(net, r, matched, b, env.to);
    PointsBack(net1, env.to, a, b, home);
    HeardAgrees(net, r, matched, env.id);
    AgreeFresh(net, net1, env.id);
  }

  /** Whatever gossip has done and whatever of it is still in flight: one announcement of a spoke at
      a leaf that has heard of the addressee elsewhere, and one message of the round that it sets off,
      make the hint of the neighbour point at the leaf. From then on nothing that is handed in at the
      neighbour is ever handed over, and there are complete runs, in every arrangement of sessions. */
  lemma PresenceMisleads(net: Net, a: Key, b: Key, home: Key, v: Key, env: Envelope, verify: Verifier, matched: bool,
                         sessions: Arrangement)
    returns (states: seq<Net>, steps: seq<Step>)
    requires GossipInv(net) && Leaf(net, a, b, home) && SoleHome(net, env.to, home) && Advertises(net, a, env.to)
    requires v in net.hubs[a].spokes && Fresh(net, env.id) && verify(env)
    ensures var net1 := Apply(net, AnnounceAt(a, {v}, None), verify); var step := Hear(PresenceRound(net, a, b, v), matched);
      && Enabled(net1, step)
      && Trap(Apply(net1, step, verify), env.to, a, b, home)
      && CompleteRun(Apply(net1, step, verify), b, env, verify, states, steps)
      && Follows(steps, sessions) && HandedInAt(steps, env, b)
      && forall ss, ts ::
        CompleteRun(Apply(net1, step, verify), b, env, verify, ss, ts) && HandedInAt(ts, env, b)
        ==> !DeliveredOnce(ss[|ts|], env, home)
  {
    hide GossipInv, Emitted, Announced, Heard, CompleteRun, Follows, HandedInAt, SoleHome, Fresh, Leaf, Trap, DeliveredOnce, Emit,
      Announce, Stale, Advertises, Graph, SameTopology, Spreading;
    assert a in net.hubs by { LeafHubs(net, a, b, home); }
    var r := PresenceRound(net, a, b, v);
    PresenceSent(net, a, b, home, v, env.to, verify);
    var net1 := Apply(net, AnnounceAt(a, {v}, None), verify);
    SameLeaf(net, net1, a, b, home, env.to);
    StepAgrees(net, AnnounceAt(a, {v}, None), verify, env.id);
    AgreeFresh(net, net1, env.id);
    HeardTraps(net1, r, matched, a, b, home, env);
    AllLost(Heard(net1, r, matched), env, verify, a, b, home);
    states, steps := SomeRunIsLost(Heard(net1, r, matched), env, verify, a, b, home, sessions);
  }

  /** Every run from one state without gossip in flight to another in which only the leaf sends
      rounds, at least one, and is not told that the addressee lives there. */
  lemma LeafSpeaks(states: seq<Net>, steps: seq<Step>, verify: Verifier, a: Key, b: Key, home: Key, to: Key)
    requires Run(states, steps, verify)
    requires GossipInv(states[0]) && Connected(states[0]) && Settled(states[0]) && Settled(states[|steps|])
    requires Leaf(states[0], a, b, home) && SoleHome(states[0], to, home) && Advertises(states[0], a, to)
    requires OnlySpeaker(states[0], steps, a, to) && exists s :: s in steps && SendsRound(s)
    ensures Trap(states[|steps|], to, a, b, home) && SoleHome(states[|steps|], to, home) && Graph(states[|steps|])
  {
    hide Run, GossipInv, Connected, Settled, Advertises, OnlySpeaker;
    RunLength(states, steps, verify);
    InvGraph(states[0]);
    RunKeepsTopology(states, steps, verify, |steps|);
    OneSpeaker(states, steps, verify, a, to, b);
  }

  /** One round in flight is heard everywhere, each message on a registered session. */
  lemma {:induction false} HearOut(net: Net, k: Round, verify: Verifier) returns (states: seq<Net>, steps: seq<Step>)
    requires GossipInv(net) && forall q :: q != k ==> Spreading(net, q) == multiset{}
    ensures Run(states, steps, verify) && states[0] == net && Settled(states[|steps|])
    ensures forall s :: s in steps ==> s.Hear? && s.matched
    decreases GT.RoundMeasure(net, k)
  {
    hide GossipInv, Heard, GT.RoundMeasure, Apply;
    if Spreading(net, k) == multiset{} {
      states, steps := [net], [];
    } else {
      var r :| r in Spreading(net, k);
      var step := Hear(r, true);
      InFlightRound(net, k, r);
      HeardInv(net, r, true);
      GT.HeardLag(net, r, true, k);
      forall q | q != k ensures Spreading(Heard(net, r, true), q) == multiset{} {
        HeardBags(net, r, true, q);
      }
      assert Apply(net, step, verify) == Heard(net, r, true) by { HearApplies(net, r, verify); }
      var ss, ts := HearOut(Heard(net, r, true), k, verify);
      states, steps := [net] + ss, [step] + ts;
      RunCons(net, step, verify, ss, ts);
    }
  }

  lemma HearApplies(net: Net, r: Rumour, verify: Verifier)
    requires Enabled(net, Hear(r, true))
    ensures Apply(net, Hear(r, true), verify) == Heard(net, r, true)
  {
  }

  lemma InFlightRound(net: Net, k: Round, r: Rumour)
    requires GossipInv(net) && r in Spreading(net, k)
    ensures RoundOf(r.gossip) == k && r.dst in net.hubs
  {
    assert RumourOk(net, k, r);
  }

  lemma RunCons(net: Net, step: Step, verify: Verifier, ss: seq<Net>, ts: seq<Step>)
    requires Run(ss, ts, verify) && Enabled(net, step) && ss[0] == Apply(net, step, verify)
    ensures Run([net] + ss, [step] + ts, verify) && ([net] + ss)[|[step] + ts|] == ss[|ts|]
  {
    hide Apply, Enabled;
    var states, steps := [net] + ss, [step] + ts;
    forall i | 0 <= i < |steps| ensures Enabled(states[i], steps[i]) && states[i + 1] == Apply(states[i], steps[i], verify) {
      if i > 0 {
        RunStep(ss, ts, verify, i - 1);
      }
    }
  }

  /** A spoke announces itself at hub a, and the round that this sets off is heard everywhere. */
  ghost predicate PresenceRun(net: Net, a: Key, v: Key, verify: Verifier, states: seq<Net>, steps: seq<Step>) {
    && Run(states, steps, verify)
    && states[0] == net
    && |steps| > 0 && steps[0] == AnnounceAt(a, {v}, None)
    && (forall s :: s in steps[1..] ==> s.Hear?)
    && Settled(states[|steps|])
  }

  lemma PresenceHeard(net: Net, a: Key, v: Key, verify: Verifier) returns (states: seq<Net>, steps: seq<Step>)
    requires GossipInv(net) && Settled(net) && a in net.hubs
    ensures PresenceRun(net, a, v, verify, states, steps) && forall s :: s in steps[1..] ==> s.Hear? && s.matched
  {
    hide GossipInv, Emitted, Announced, Settled;
    var step := AnnounceAt(a, {v}, None);
    var net1 := Apply(net, step, verify);
    StepKeepsGossipInv(net, step, verify);
    var k := Round(a, LastRound(net, a) + 1);
    forall q | q != k ensures Spreading(net1, q) == multiset{} {
      OneRound(net, a, v, q);
    }
    var ss, ts := HearOut(net1, k, verify);
    RunCons(net, step, verify, ss, ts);
    states, steps := [net] + ss, [step] + ts;
    assert steps[1..] == ts;
  }

  lemma OneRound(net: Net, a: Key, v: Key, q: Round)
    requires GossipInv(net) && Settled(net) && a in net.hubs && q != Round(a, LastRound(net, a) + 1)
    ensures Spreading(Emitted(Announced(net, a, {v}, None), a), q) == multiset{}
  {
    hide Emitted, GossipInv;
    var mid := Announced(net, a, {v}, None);
    AnnouncedInv(net, a, {v}, None);
    InvGraph(mid);
    AnnouncedValues(net, a, {v}, None);
    assert Spreading(mid, q) == Spreading(net, q);
    EmittedOthers(mid, a, q);
  }

  /** However gossip has gone since it began: when it has come to rest, and home has sent a round,
      the leaf advertises the spokes of home as well, unless it has been told that they live there. */
  lemma RestedAdvertises(states: seq<Net>, steps: seq<Step>, verify: Verifier, a: Key, home: Key, to: Key)
    requires Run(states, steps, verify) && Graph(states[0]) && Connected(states[0]) && Quiet(states[0])
    requires Settled(states[|steps|]) && SoleHome(states[0], to, home) && a in states[0].hubs && a != home
    requires LastRound(states[|steps|], home) > 0
    requires HintOf(states[0], a, to) != Some(a)
    requires forall s :: s in steps && s.AnnounceAt? && s.at == a ==> to !in s.keys
    ensures GossipInv(states[|steps|]) && Advertises(states[|steps|], a, to)
  {
    hide Run, Connected, LastRound, GossipInv, Quiet, Graph;
    RunLength(states, steps, verify);
    QuietInv(states[0]);
    RunKeepsGossipInv(states, steps, verify, |steps|);
    GossipConverges(states, steps, verify, |steps|);
    RunKeepsTopology(states, steps, verify, |steps|);
    ConvergedKnows(states[|steps|], a, home, to);
    NeverOwn(states, steps, verify, a, to, |steps|);
  }

  lemma StepNeverOwn(net: Net, step: Step, verify: Verifier, a: Key, to: Key)
    requires GossipInv(net) && Enabled(net, step) && a in net.hubs && to !in net.hubs[a].spokes && HintOf(net, a, to) != Some(a)
    requires step.AnnounceAt? && step.at == a ==> to !in step.keys
    ensures HintOf(Apply(net, step, verify), a, to) != Some(a)
  {
    hide HintOf, Forwarded, Emitted, Announced, Heard, GossipInv;
    match step
    case Inject(at, env) => ForwardedHint(net, at, env, verify(env), None, InFlight(net, env.id), a, to);
    case Deliver(c, matched) =>
      ForwardedHint(net, c.dst, c.env, verify(c.env), From(c.src, matched), InFlight(net, c.env.id) - multiset{c}, a, to);
    case EmitAt(at) => EmittedHint(net, at, a, to);
    case AnnounceAt(at, keys, viaHub) =>
      AnnouncedHint(net, at, keys, viaHub, a, to);
      EmittedHint(Announced(net, at, keys, viaHub), at, a, to);
    case Hear(r, matched) =>
      HeardHint(net, r, matched, a, to);
      if r.gossip.origin == a {
        OwnRoundStale(net, r, a);
      }
  }

  lemma {:induction false} NeverOwn(states: seq<Net>, steps: seq<Step>, verify: Verifier, a: Key, to: Key, i: nat)
    requires Run(states, steps, verify) && i < |states| && GossipInv(states[0])
    requires a in states[0].hubs && to !in states[0].hubs[a].spokes && HintOf(states[0], a, to) != Some(a)
    requires forall s :: s in steps && s.AnnounceAt? && s.at == a ==> to !in s.keys
    ensures HintOf(states[i], a, to) != Some(a)
  {
    hide GossipInv, Apply, Enabled, HintOf;
    if i > 0 {
      NeverOwn(states, steps, verify, a, to, i - 1);
      RunStep(states, steps, verify, i - 1);
      RunKeepsGossipInv(states, steps, verify, i - 1);
      RunKeepsTopology(states, steps, verify, i - 1);
      assert steps[i - 1] in steps;
      StepNeverOwn(states[i - 1], steps[i - 1], verify, a, to);
    }
  }

  // ----- The whole story -----

  lemma {:induction false} GossipKeepsFresh(states: seq<Net>, steps: seq<Step>, verify: Verifier, id: Id, i: nat)
    requires Run(states, steps, verify) && i < |states| && Fresh(states[0], id)
    requires forall s :: s in steps ==> !s.Inject? && !s.Deliver?
    ensures Fresh(states[i], id)
  {
    hide Apply, Enabled, Fresh;
    if i > 0 {
      GossipKeepsFresh(states, steps, verify, id, i - 1);
      RunStep(states, steps, verify, i - 1);
      assert steps[i - 1] in steps;
      StepAgrees(states[i - 1], steps[i - 1], verify, id);
      AgreeFresh(states[i - 1], states[i], id);
    }
  }

  lemma PresenceTraps(net: Net, a: Key, b: Key, home: Key, v: Key, env: Envelope, verify: Verifier,
                      heard: seq<Net>, hears: seq<Step>)
    requires GossipInv(net) && Connected(net) && Settled(net) && Leaf(net, a, b, home) && SoleHome(net, env.to, home)
    requires Advertises(net, a, env.to) && v in net.hubs[a].spokes && Fresh(net, env.id)
    requires PresenceRun(net, a, v, verify, heard, hears)
    ensures |heard| == |hears| + 1
    ensures Trap(heard[|hears|], env.to, a, b, home) && SoleHome(heard[|hears|], env.to, home)
    ensures Graph(heard[|hears|]) && Fresh(heard[|hears|], env.id)
  {
    hide GossipInv, Connected, Settled, Advertises, Fresh, Trap, Run;
    RunLength(heard, hears, verify);
    assert hears[0] in hears && forall s :: s in hears ==> s == hears[0] || s in hears[1..];
    assert SendsRound(hears[0]);
    LeafSpeaks(heard, hears, verify, a, b, home, env.to);
    GossipKeepsFresh(heard, hears, verify, env.id, |hears|);
  }

  /** Presence at a leaf takes delivery away. Whatever gossip has done since it began, once it is at
      rest and home has sent a round: after a spoke of the leaf has announced itself, and the round
      that this sets off has been heard everywhere, nothing that is handed in at the neighbour is ever
      handed over, in whatever order messages arrive and on whatever sessions. */
  lemma PresenceTakesDelivery(states: seq<Net>, steps: seq<Step>, verify: Verifier, a: Key, b: Key, home: Key, v: Key,
                              env: Envelope, heard: seq<Net>, hears: seq<Step>,
                              later: seq<Net>, laterSteps: seq<Step>, x: Handoff)
    requires Run(states, steps, verify) && Graph(states[0]) && Connected(states[0]) && Quiet(states[0])
    requires Settled(states[|steps|]) && SoleHome(states[0], env.to, home) && Leaf(states[0], a, b, home)
    requires LastRound(states[|steps|], home) > 0
    requires HintOf(states[0], a, env.to) != Some(a)
    requires forall s :: s in steps && s.AnnounceAt? && s.at == a ==> env.to !in s.keys
    requires v in states[0].hubs[a].spokes && Fresh(states[|steps|], env.id) && verify(env)
    requires PresenceRun(states[|steps|], a, v, verify, heard, hears)
    requires CompleteRun(heard[|hears|], b, env, verify, later, laterSteps) && HandedInAt(laterSteps, env, b)
    requires x.id == env.id
    ensures Trap(heard[|hears|], env.to, a, b, home) && later[|laterSteps|].handoffs[x] == 0
  {
    hide Run, Graph, Connected, Quiet, GossipInv, Settled, LastRound, HintOf, Trap, CompleteRun, HandedInAt, Advertises, Fresh,
      SoleHome, Leaf, PresenceRun;
    RunLength(states, steps, verify);
    RunKeepsTopology(states, steps, verify, |steps|);
    var net := states[|steps|];
    SameLinks(states[0], net);
    assert a in states[0].hubs && a != home by { LeafHubs(states[0], a, b, home); }
    RestedAdvertises(states, steps, verify, a, home, env.to);
    SameLeaf(states[0], net, a, b, home, env.to);
    PresenceTraps(net, a, b, home, v, env, verify, heard, hears);
    NeverDelivered(heard[|hears|], env, verify, a, b, home, later, laterSteps, x);
  }

  /** The same announcement at home gives it back: from any state with gossip at rest, whatever hints
      say, after a spoke of home has announced itself and the round has been heard everywhere, every
      complete run delivers exactly once, wherever the envelope is handed in. */
  lemma PresenceGivesItBack(net: Net, home: Key, v: Key, at: Key, env: Envelope, verify: Verifier, heard: seq<Net>, hears: seq<Step>,
                            later: seq<Net>, laterSteps: seq<Step>)
    requires GossipInv(net) && Connected(net) && Settled(net) && SoleHome(net, env.to, home) && Fresh(net, env.id)
    requires verify(env) && at in net.hubs && PresenceRun(net, home, v, verify, heard, hears)
    requires CompleteRun(heard[|hears|], at, env, verify, later, laterSteps)
    ensures DeliveredOnce(later[|laterSteps|], env, home)
  {
    hide GossipInv, Connected, Settled, Fresh, Run, CompleteRun, DeliveredOnce, SoleHome;
    RunLength(heard, hears, verify);
    assert hears[0] in hears && forall s :: s in hears ==> s == hears[0] || s in hears[1..];
    assert SendsRound(hears[0]);
    GossipKeepsFresh(heard, hears, verify, env.id, |hears|);
    RunKeepsTopology(heard, hears, verify, |hears|);
    HomeRepairs(heard, hears, verify, home, at, env, later, laterSteps);
  }
}
