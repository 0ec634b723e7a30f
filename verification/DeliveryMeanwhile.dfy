/** Delivery while gossip about the addressee is under way. Hints may appear at any moment of the run;
    as long as they name no other hub than home, the envelope gets there. */
module DeliveryMeanwhile {
  import opened Envelopes
  import opened HubState
  import opened Network
  import opened Delivery
  import opened Gossips
  import opened GossipHints
  import opened Wrappers

  /** Whatever hop a hub other than home has for the addressee, it is home. */
  ghost predicate HopsHome(net: Net, to: Key, home: Key) {
    forall h :: h in net.hubs && h != home ==> Hop(net.hubs[h], to) in {None, Some(home)}
  }

  ghost predicate Reached(net: Net, id: Id, flight: multiset<Copy>, h: Key) {
    Seen(net, id, h) || Targeted(flight, h)
  }

  /** Home has the envelope or has it coming, or every link of this hub does. */
  ghost predicate PassedOn(net: Net, id: Id, flight: multiset<Copy>, home: Key, h: Key) {
    Reached(net, id, flight, home) || forall n :: Adjacent(net, h, n) ==> Reached(net, id, flight, n)
  }

  /** Every hub but home that has handled the envelope has passed it on. */
  ghost predicate AllPassedOn(net: Net, id: Id, flight: multiset<Copy>, home: Key) {
    forall h :: Seen(net, id, h) && h != home ==> PassedOn(net, id, flight, home, h)
  }

  ghost predicate OnItsWay(net: Net, env: Envelope, home: Key) {
    && Graph(net)
    && SoleHome(net, env.to, home)
    && CopiesOk(net, env, InFlight(net, env.id))
    && AllPassedOn(net, env.id, InFlight(net, env.id), home)
    && HandedOver(net, env)
  }

  /** What one state has reached, the next has: links stay, and so does everything seen or under way. */
  lemma PassedOnStays(net: Net, net1: Net, id: Id, flight: multiset<Copy>, flight1: multiset<Copy>, home: Key, h: Key)
    requires SameTopology(net, net1) && PassedOn(net, id, flight, home, h)
    requires forall n :: Reached(net, id, flight, n) ==> Reached(net1, id, flight1, n)
    ensures PassedOn(net1, id, flight1, home, h)
  {
    forall n | Adjacent(net1, h, n) && !Reached(net1, id, flight1, home) ensures Reached(net1, id, flight1, n) {
      assert Adjacent(net, h, n);
    }
  }

  lemma AgreePassedOn(net: Net, net1: Net, id: Id, home: Key)
    requires Agree(net, net1, id) && AllPassedOn(net, id, InFlight(net, id), home)
    ensures AllPassedOn(net1, id, InFlight(net1, id), home)
  {
    hide PassedOn, InFlight;
    assert forall h :: Seen(net, id, h) <==> Seen(net1, id, h);
    forall h | Seen(net1, id, h) && h != home ensures PassedOn(net1, id, InFlight(net1, id), home, h) {
      PassedOnStays(net, net1, id, InFlight(net, id), InFlight(net1, id), home, h);
    }
  }

  lemma AgreeCopies(net: Net, net1: Net, env: Envelope)
    requires Agree(net, net1, env.id) && CopiesOk(net, env, InFlight(net, env.id)) && HandedOver(net, env)
    ensures CopiesOk(net1, env, InFlight(net1, env.id)) && HandedOver(net1, env)
  {
    hide InFlight;
    assert forall h :: Seen(net, env.id, h) <==> Seen(net1, env.id, h);
    assert forall c :: CopyOk(net, env, c) ==> CopyOk(net1, env, c);
  }

  lemma AgreeOnItsWay(net: Net, net1: Net, env: Envelope, home: Key)
    requires OnItsWay(net, env, home) && Agree(net, net1, env.id)
    ensures OnItsWay(net1, env, home)
  {
    hide AllPassedOn, CopiesOk, HandedOver, InFlight;
    AgreePassedOn(net, net1, env.id, home);
    AgreeCopies(net, net1, env);
  }

  /** What a hub sends when it first handles the envelope. */
  lemma FirstPassesOn(net: Net, env: Envelope, home: Key, at: Key, from: Option<Key>, rest: multiset<Copy>)
    requires Graph(net) && SoleHome(net, env.to, home) && HopsHome(net, env.to, home)
    requires at in net.hubs && at != home && env.id !in net.hubs[at].seen
    requires from.Some? ==> Seen(net, env.id, from.value)
    ensures var net1 := Forwarded(net, at, env, true, from, rest);
      PassedOn(net1, env.id, InFlight(net1, env.id), home, at)
  {
    hide Forwarded, Seen;
    var net1 := Forwarded(net, at, env, true, from, rest);
    var flight := InFlight(net1, env.id);
    SeenAfter(net, at, env, from, rest);
    ForwardedTopology(net, at, env, true, from, rest);
    if Hop(net.hubs[at], env.to) == Some(home) {
      FirstTimeFlight(net, at, env, from, rest, Copy(at, home, env));
      assert Reached(net1, env.id, flight, home);
    } else {
      forall n | Adjacent(net1, at, n) ensures Reached(net1, env.id, flight, n) {
        FirstTimeFlight(net, at, env, from, rest, Copy(at, n, env));
      }
    }
  }

  /** The copies but those that are on their way to hub `at`, which is about to handle one. */
  lemma ForwardedReaches(net: Net, env: Envelope, at: Key, from: Option<Key>, flight: multiset<Copy>, rest: multiset<Copy>, n: Key)
    requires at in net.hubs && forall c :: c in flight && c.dst != at ==> c in rest
    requires Reached(net, env.id, flight, n)
    ensures var net1 := Forwarded(net, at, env, true, from, rest); Reached(net1, env.id, InFlight(net1, env.id), n)
  {
    hide Forwarded;
    if env.id in net.hubs[at].seen {
      RepeatState(net, at, env, from, rest);
      assert Seen(net, env.id, at);
    } else {
      SeenAfter(net, at, env, from, rest);
      if !Seen(net, env.id, n) && n != at {
        var c :| c in flight && c.dst == n;
        FirstTimeFlight(net, at, env, from, rest, c);
      }
    }
  }

  lemma ForwardedCopies(net: Net, env: Envelope, at: Key, from: Option<Key>, rest: multiset<Copy>)
    requires Graph(net) && at in net.hubs && CopiesOk(net, env, rest) && HandedOver(net, env)
    ensures var net1 := Forwarded(net, at, env, true, from, rest);
      CopiesOk(net1, env, InFlight(net1, env.id)) && HandedOver(net1, env)
  {
    hide Forwarded, CopiesOk, Graph;
    if env.id in net.hubs[at].seen {
      var net1 := Forwarded(net, at, env, true, from, rest);
      RepeatState(net, at, env, from, rest);
      CopiesOkFrame(net, net1, env, rest);
      assert forall h :: Seen(net, env.id, h) <==> Seen(net1, env.id, h);
    } else {
      FirstTimeCopiesOk(net, env, at, from, rest);
      FirstTimeHandedOver(net, env, at, from, rest);
    }
  }

  lemma ForwardedOnItsWay(net: Net, env: Envelope, home: Key, at: Key, from: Option<Key>, rest: multiset<Copy>)
    requires OnItsWay(net, env, home) && HopsHome(net, env.to, home) && at in net.hubs
    requires from.Some? ==> Seen(net, env.id, from.value)
    requires CopiesOk(net, env, rest) && forall c :: c in InFlight(net, env.id) && c.dst != at ==> c in rest
    ensures OnItsWay(Forwarded(net, at, env, true, from, rest), env, home)
  {
    hide Forwarded, CopiesOk, HandedOver, HopsHome, PassedOn, Reached;
    var net1 := Forwarded(net, at, env, true, from, rest);
    ForwardedTopology(net, at, env, true, from, rest);
    ForwardedCopies(net, env, at, from, rest);
    forall n | Reached(net, env.id, InFlight(net, env.id), n) ensures Reached(net1, env.id, InFlight(net1, env.id), n) {
      ForwardedReaches(net, env, at, from, InFlight(net, env.id), rest, n);
    }
    forall h | Seen(net1, env.id, h) && h != home ensures PassedOn(net1, env.id, InFlight(net1, env.id), home, h) {
      SeenAfterAny(net, env, at, from, rest, h);
      if Seen(net, env.id, h) {
        PassedOnStays(net, net1, env.id, InFlight(net, env.id), InFlight(net1, env.id), home, h);
      } else {
        FirstPassesOn(net, env, home, at, from, rest);
      }
    }
  }

  lemma SeenAfterAny(net: Net, env: Envelope, at: Key, from: Option<Key>, rest: multiset<Copy>, h: Key)
    requires at in net.hubs && Seen(Forwarded(net, at, env, true, from, rest), env.id, h)
    ensures Seen(net, env.id, h) || (h == at && env.id !in net.hubs[at].seen)
  {
  }

  lemma StepOnItsWay(net: Net, step: Step, env: Envelope, verify: Verifier, home: Key)
    requires OnItsWay(net, env, home) && HopsHome(net, env.to, home) && Enabled(net, step) && verify(env) && Faithful(step, env)
    ensures OnItsWay(Apply(net, step, verify), env, home)
  {
    hide Forwarded, HopsHome, AllPassedOn, HandedOver, Graph, SoleHome;
    if step.Inject? && step.env.id == env.id {
      ForwardedOnItsWay(net, env, home, step.at, None, InFlight(net, env.id));
    } else if step.Deliver? && step.copy.env.id == env.id {
      var c := step.copy;
      assert CopyOk(net, env, c);
      ForwardedOnItsWay(net, env, home, c.dst, From(c.src, step.matched), InFlight(net, env.id) - multiset{c});
    } else {
      StepAgrees(net, step, verify, env.id);
      AgreeOnItsWay(net, Apply(net, step, verify), env, home);
    }
  }

  lemma {:induction false} RunOnItsWay(states: seq<Net>, steps: seq<Step>, env: Envelope, verify: Verifier, home: Key, i: nat)
    requires Run(states, steps, verify) && i < |states| && verify(env)
    requires Graph(states[0]) && Fresh(states[0], env.id) && SoleHome(states[0], env.to, home)
    requires forall s :: s in steps ==> Faithful(s, env)
    requires forall net :: net in states ==> HopsHome(net, env.to, home)
    ensures OnItsWay(states[i], env, home)
  {
    hide OnItsWay, HopsHome, Apply, Enabled, Faithful, Graph, SoleHome, Fresh;
    if i == 0 {
      FreshOnItsWay(states[0], env, home);
    } else {
      RunOnItsWay(states, steps, env, verify, home, i - 1);
      RunStep(states, steps, verify, i - 1);
      assert steps[i - 1] in steps && states[i - 1] in states;
      StepOnItsWay(states[i - 1], steps[i - 1], env, verify, home);
    }
  }

  lemma FreshOnItsWay(net: Net, env: Envelope, home: Key)
    requires Graph(net) && Fresh(net, env.id) && SoleHome(net, env.to, home)
    ensures OnItsWay(net, env, home)
  {
    FreshInv(net, env);
  }

  /** With nothing in flight, the envelope is everywhere along a path of links, or it is home. */
  lemma {:induction false} GetsHome(net: Net, env: Envelope, home: Key, p: seq<Key>, i: nat)
    requires OnItsWay(net, env, home) && InFlight(net, env.id) == multiset{}
    requires Path(net, p) && i < |p| && Seen(net, env.id, p[0])
    ensures Seen(net, env.id, p[i]) || Seen(net, env.id, home)
  {
    if i > 0 {
      GetsHome(net, env, home, p, i - 1);
      assert Adjacent(net, p[i - 1], p[i]);
      if !Seen(net, env.id, home) {
        assert PassedOn(net, env.id, InFlight(net, env.id), home, p[i - 1]);
        assert Reached(net, env.id, InFlight(net, env.id), p[i]);
      }
    }
  }

  /** On a connected graph, whatever happens to hints in the meantime: if in every state of the run
      those of the other hubs name home or no connected hub, an envelope that is handed in at any hub
      is delivered exactly once by the time no copy of it is in flight. */
  lemma DeliveredMeanwhile(states: seq<Net>, steps: seq<Step>, at: Key, env: Envelope, verify: Verifier, home: Key)
    requires Run(states, steps, verify) && verify(env)
    requires Graph(states[0]) && Connected(states[0]) && Fresh(states[0], env.id) && SoleHome(states[0], env.to, home)
    requires forall s :: s in steps ==> Faithful(s, env)
    requires forall net :: net in states ==> HopsHome(net, env.to, home)
    requires Inject(at, env) in steps && InFlight(states[|steps|], env.id) == multiset{}
    ensures DeliveredOnce(states[|steps|], env, home)
  {
    hide Run, HopsHome, Faithful, AllPassedOn, CopiesOk, Fresh, Graph, HandedOver, Inv, Connected, DeliveredOnce;
    RunLength(states, steps, verify);
    var net := states[|steps|];
    RunOnItsWay(states, steps, env, verify, home, |steps|);
    RunKeepsTopology(states, steps, verify, |steps|);
    SameLinks(states[0], net);
    InjectedIsSeen(states, steps, verify, at, env);
    assert Linked(net, at, home);
    var p :| Path(net, p) && p[0] == at && p[|p| - 1] == home;
    GetsHome(net, env, home, p, |p| - 1);
    HomeHandedOver(net, env, home);
  }

  lemma HomeHandedOver(net: Net, env: Envelope, home: Key)
    requires HandedOver(net, env) && SoleHome(net, env.to, home) && Seen(net, env.id, home)
    ensures DeliveredOnce(net, env, home)
  {
  }

  // ----- While home makes itself known -----

  ghost predicate HintsHome(net: Net, to: Key, home: Key) {
    forall h :: h in net.hubs && h != home ==> HintOf(net, h, to) in {None, Some(home)}
  }

  lemma StepHintsHome(net: Net, step: Step, verify: Verifier, to: Key, home: Key, first: nat)
    requires Speaking(net, home, to, first) && HintsHome(net, to, home) && Enabled(net, step) && OnlyBy(step, home)
    ensures HintsHome(Apply(net, step, verify), to, home)
  {
    hide Speaking, Forwarded, Emitted, Announced, Heard, HintOf, GossipInv;
    StepKeepsTopology(net, step, verify);
    forall h | h in net.hubs && h != home ensures HintOf(Apply(net, step, verify), h, to) in {None, Some(home)} {
      match step
      case Inject(at, env) => ForwardedHint(net, at, env, verify(env), None, InFlight(net, env.id), h, to);
      case Deliver(c, matched) =>
        ForwardedHint(net, c.dst, c.env, verify(c.env), From(c.src, matched), InFlight(net, c.env.id) - multiset{c}, h, to);
      case EmitAt(at) => EmittedHint(net, at, h, to);
      case AnnounceAt(at, keys, viaHub) =>
        AnnouncedHint(net, at, keys, viaHub, h, to);
        EmittedHint(Announced(net, at, keys, viaHub), at, h, to);
      case Hear(r, matched) =>
        HeardHint(net, r, matched, h, to);
        HomesRumour(net, r, home, to, first);
    }
  }

  lemma HomesRumour(net: Net, r: Rumour, home: Key, to: Key, first: nat)
    requires Speaking(net, home, to, first) && r in Spreading(net, RoundOf(r.gossip))
    ensures r.gossip.origin == home
  {
    assert Carries(RoundOf(r.gossip), r, home, to, first);
  }

  lemma {:induction false} RunHintsHome(states: seq<Net>, steps: seq<Step>, verify: Verifier, to: Key, home: Key, i: nat)
    requires Run(states, steps, verify) && i < |states|
    requires GossipInv(states[0]) && Settled(states[0]) && SoleHome(states[0], to, home) && HintsHome(states[0], to, home)
    requires forall s :: s in steps ==> OnlyBy(s, home)
    ensures HintsHome(states[i], to, home)
  {
    hide Apply, Enabled, GossipInv, Settled, HintsHome, Speaking, LastRound;
    if i > 0 {
      RunHintsHome(states, steps, verify, to, home, i - 1);
      RunSpeaking(states, steps, verify, home, to, i - 1);
      RunStep(states, steps, verify, i - 1);
      assert steps[i - 1] in steps;
      StepHintsHome(states[i - 1], steps[i - 1], verify, to, home, LastRound(states[0], home));
    }
  }

  /** From rest, on a connected graph on which no hub has a wrong hint: while home makes its spokes
      known, and nobody else sends rounds, an envelope is delivered exactly once, however the messages
      of gossip and the copies of the envelope overtake each other. */
  lemma DeliveredWhileHomeSpeaks(states: seq<Net>, steps: seq<Step>, at: Key, env: Envelope, verify: Verifier, home: Key)
    requires Run(states, steps, verify) && verify(env)
    requires GossipInv(states[0]) && Connected(states[0]) && Settled(states[0]) && Fresh(states[0], env.id)
    requires SoleHome(states[0], env.to, home) && HintsHome(states[0], env.to, home)
    requires forall s :: s in steps ==> Faithful(s, env) && OnlyBy(s, home)
    requires Inject(at, env) in steps && InFlight(states[|steps|], env.id) == multiset{}
    ensures DeliveredOnce(states[|steps|], env, home)
  {
    hide Apply, Enabled, GossipInv, Settled, Connected, Fresh, SoleHome, HintsHome, Faithful;
    InvGraph(states[0]);
    forall net | net in states ensures HopsHome(net, env.to, home) {
      var i :| 0 <= i < |states| && states[i] == net;
      RunHintsHome(states, steps, verify, env.to, home, i);
      HintsGiveHops(net, env.to, home);
    }
    DeliveredMeanwhile(states, steps, at, env, verify, home);
  }

  lemma HintsGiveHops(net: Net, to: Key, home: Key)
    requires HintsHome(net, to, home)
    ensures HopsHome(net, to, home)
  {
    forall h | h in net.hubs && h != home ensures Hop(net.hubs[h], to) in {None, Some(home)} {
      assert HintOf(net, h, to) in {None, Some(home)};
    }
  }
}
