/** What gossip makes of hints. If only one hub has rounds to send, the hints for everything that it
    advertises end up pointing at it, whatever they were before. That repairs the hints for its own
    spokes, and it breaks those for the spokes of others. */
module GossipHints {
  import opened Envelopes
  import opened HubState
  import opened Network
  import opened Delivery
  import opened Gossips
  import opened Wrappers

  // ----- What each step does to one hint -----

  function HintOf(net: Net, h: Key, to: Key): Option<Key> {
    if h in net.hubs && to in net.hubs[h].where then Some(net.hubs[h].where[to]) else None
  }

  lemma PointedAt(where: map<Key, Key>, keys: set<Key>, hub: Key, to: Key)
    ensures to in PointAll(where, keys, hub) <==> to in where || to in keys
    ensures to in keys ==> PointAll(where, keys, hub)[to] == hub
    ensures to in where && to !in keys ==> PointAll(where, keys, hub)[to] == where[to]
  {
  }

  lemma HubAfter(net: Net, at: Key, h: Key, x: Hub, net1: Net, to: Key)
    requires at in net.hubs && net1.hubs == net.hubs[at := x]
    ensures HintOf(net1, h, to) == if h == at then (if to in x.where then Some(x.where[to]) else None) else HintOf(net, h, to)
  {
  }

  lemma ForwardedHint(net: Net, at: Key, env: Envelope, valid: bool, from: Option<Key>, rest: multiset<Copy>, h: Key, to: Key)
    requires at in net.hubs
    ensures HintOf(Forwarded(net, at, env, valid, from, rest), h, to) == HintOf(net, h, to)
  {
    hide Route;
    HubAfter(net, at, h, Forward(net.hubs[at], env, valid, from).0, Forwarded(net, at, env, valid, from, rest), to);
  }

  lemma EmittedHint(net: Net, at: Key, h: Key, to: Key)
    requires at in net.hubs
    ensures HintOf(Emitted(net, at), h, to)
      == if at == h && to in net.hubs[at].spokes then Some(net.hubs[at].self) else HintOf(net, h, to)
  {
    hide PointAll, Advertised, RumoursTo;
    var s := net.hubs[at];
    HubAfter(net, at, h, Emit(s).0, Emitted(net, at), to);
    PointedAt(s.where, s.spokes, s.self, to);
  }

  lemma HeardHint(net: Net, r: Rumour, matched: bool, h: Key, to: Key)
    requires r.dst in net.hubs
    ensures HintOf(Heard(net, r, matched), h, to)
      == if r.dst == h && !Stale(net.hubs[h], r.gossip) && to in r.gossip.entries then Some(r.gossip.origin) else HintOf(net, h, to)
  {
    hide PointAll, RumoursTo, Except;
    var s := net.hubs[r.dst];
    HubAfter(net, r.dst, h, Accept(s, r.gossip, From(r.src, matched)).0, Heard(net, r, matched), to);
    PointedAt(s.where, r.gossip.entries, r.gossip.origin, to);
  }

  lemma AnnouncedHint(net: Net, at: Key, keys: set<Key>, viaHub: Option<Key>, h: Key, to: Key)
    requires at in net.hubs
    ensures var mid := Announced(net, at, keys, viaHub);
      && at in mid.hubs && mid.hubs[at].spokes == net.hubs[at].spokes && mid.hubs[at].self == net.hubs[at].self
      && HintOf(mid, h, to)
         == if at == h && to in keys then (if viaHub.Some? then viaHub else Some(net.hubs[at].self)) else HintOf(net, h, to)
  {
    hide PointAll;
    var s := net.hubs[at];
    HubAfter(net, at, h, Announce(s, keys, viaHub), Announced(net, at, keys, viaHub), to);
    PointedAt(s.where, keys, if viaHub.Some? then viaHub.value else s.self, to);
  }

  // ----- One hub speaks -----

  /** No gossip is in flight. */
  ghost predicate Settled(net: Net) { forall k :: Spreading(net, k) == multiset{} }

  /** The step sends no round but one of this hub. */
  predicate OnlyBy(step: Step, o: Key) {
    (step.EmitAt? ==> step.at == o) && (step.AnnounceAt? ==> step.at == o)
  }

  predicate SendsRound(step: Step) { step.EmitAt? || step.AnnounceAt? }

  /** The step does not announce the key as one that lives at the hub or behind another hub. */
  predicate Spares(step: Step, key: Key) { step.AnnounceAt? ==> key !in step.keys }

  /** The rounds of hub o advertise the key: a spoke of its own, or one that it has heard of. */
  predicate Advertises(net: Net, o: Key, key: Key) {
    o in net.hubs && (key in net.hubs[o].spokes || (key in net.hubs[o].where && net.hubs[o].where[key] != o))
  }

  predicate Carries(q: Round, r: Rumour, o: Key, key: Key, first: nat) {
    q.origin == o && first < q.number && key in r.gossip.entries
  }

  ghost predicate RumoursOf(net: Net, o: Key, key: Key, first: nat) {
    forall q, r :: r in Spreading(net, q) ==> Carries(q, r, o, key, first)
  }

  ghost predicate HearersPoint(net: Net, o: Key, key: Key, first: nat) {
    forall h :: h in net.hubs && h != o && Newest(net, h, o) > first ==> HintOf(net, h, key) == Some(o)
  }

  /** All gossip in flight is of hub o, after its round `first`, and advertises the key; and whoever
      has accepted some of it points the key at o. */
  ghost predicate Speaking(net: Net, o: Key, key: Key, first: nat) {
    && GossipInv(net)
    && Advertises(net, o, key)
    && first <= LastRound(net, o)
    && RumoursOf(net, o, key, first)
    && HearersPoint(net, o, key, first)
  }

  lemma SettledSpeaking(net: Net, o: Key, key: Key)
    requires GossipInv(net) && Settled(net) && Advertises(net, o, key)
    ensures Speaking(net, o, key, LastRound(net, o))
  {
    hide GossipInv, Spreading, Newest, LastRound, Advertises, HintOf;
    forall h | h in net.hubs ensures Newest(net, h, o) <= LastRound(net, o) {
      InvNumbers(net, h, o);
    }
  }

  lemma InvNumbers(net: Net, h: Key, o: Key)
    requires GossipInv(net) && h in net.hubs
    ensures Newest(net, h, o) <= LastRound(net, o) && Newest(net, h, h) == LastRound(net, h)
  {
  }

  lemma QuietGossipSteps(net: Net, net1: Net, o: Key, key: Key, first: nat)
    requires Speaking(net, o, key, first) && GossipInv(net1) && GossipAgree(net, net1)
    requires forall h :: HintOf(net1, h, key) == HintOf(net, h, key)
    ensures Speaking(net1, o, key, first) && LastRound(net1, o) == LastRound(net, o)
  {
    hide GossipInv, Spreading, Newest, LastRound, HintOf, Advertises;
    AgreeValues(net, net1);
    SameAdvertises(net, net1, o, key);
  }

  lemma EmittedAdvertises(net: Net, o: Key, key: Key)
    requires Graph(net) && Advertises(net, o, key)
    ensures Advertises(Emitted(net, o), o, key) && key in Emit(net.hubs[o]).1.entries
  {
    hide RumoursTo, PointAll, Spreading;
    var s := net.hubs[o];
    var h := Emit(s).0;
    PointedAt(s.where, s.spokes, s.self, key);
    assert key in h.spokes || (key in h.where && h.where[key] != o);
    assert h.self == o;
    assert Emitted(net, o).hubs == net.hubs[o := h];
  }

  lemma EmittedRumoursOf(net: Net, o: Key, key: Key, first: nat)
    requires Speaking(net, o, key, first)
    ensures RumoursOf(Emitted(net, o), o, key, first)
  {
    hide Emitted, Emit, RumoursTo, Advertises, HearersPoint;
    AdvertisesIn(net, o, key);
    var net1 := Emitted(net, o);
    var g := Emit(net.hubs[o]).1;
    EmittedAdvertises(net, o, key);
    EmittedSpreading(net, o);
    forall q, r | r in Spreading(net1, q) ensures Carries(q, r, o, key, first) {
      if q == RoundOf(g) {
        RumoursToOnly(o, net.hubs[o].peers, g, r);
      } else {
        EmittedOthers(net, o, q);
      }
    }
  }

  lemma AdvertisesIn(net: Net, o: Key, key: Key)
    requires Advertises(net, o, key)
    ensures o in net.hubs
  {
  }

  lemma EmittedSpeaking(net: Net, o: Key, key: Key, first: nat)
    requires Speaking(net, o, key, first)
    ensures Speaking(Emitted(net, o), o, key, first) && LastRound(Emitted(net, o), o) == LastRound(net, o) + 1
  {
    hide Emitted, GossipInv, Advertises, RumoursOf, Newest, LastRound;
    AdvertisesIn(net, o, key);
    assert Graph(net) by { InvGraph(net); }
    EmittedInv(net, o);
    EmittedNumbers(net, o);
    EmittedTopology(net, o);
    EmittedAdvertises(net, o, key);
    EmittedRumoursOf(net, o, key, first);
    forall h | h != o ensures HintOf(Emitted(net, o), h, key) == HintOf(net, h, key) {
      EmittedHint(net, o, h, key);
    }
  }

  lemma InvGraph(net: Net)
    requires GossipInv(net)
    ensures Graph(net)
  {
  }

  lemma AnnouncedSpeaking(net: Net, o: Key, keys: set<Key>, viaHub: Option<Key>, key: Key, first: nat)
    requires Speaking(net, o, key, first) && (key !in keys || key in net.hubs[o].spokes)
    ensures Speaking(Announced(net, o, keys, viaHub), o, key, first)
    ensures LastRound(Announced(net, o, keys, viaHub), o) == LastRound(net, o)
  {
    hide GossipInv, Spreading, Newest, RumoursOf, PointAll;
    var net1 := Announced(net, o, keys, viaHub);
    AnnouncedInv(net, o, keys, viaHub);
    AnnouncedHint(net, o, keys, viaHub, o, key);
    forall h | h != o ensures HintOf(net1, h, key) == HintOf(net, h, key) {
      AnnouncedHint(net, o, keys, viaHub, h, key);
    }
    AnnouncedValues(net, o, keys, viaHub);
    assert RumoursOf(net1, o, key, first) by { SameRumours(net, net1, o, key, first); }
  }

  lemma AnnouncedValues(net: Net, at: Key, keys: set<Key>, viaHub: Option<Key>)
    requires at in net.hubs
    ensures var net1 := Announced(net, at, keys, viaHub);
      && net1.rumours == net.rumours
      && (forall h, o :: Newest(net1, h, o) == Newest(net, h, o))
      && forall o :: LastRound(net1, o) == LastRound(net, o)
  {
  }

  lemma SameRumours(net: Net, net1: Net, o: Key, key: Key, first: nat)
    requires net1.rumours == net.rumours && RumoursOf(net, o, key, first)
    ensures RumoursOf(net1, o, key, first)
  {
    assert forall q :: Spreading(net1, q) == Spreading(net, q);
  }

  /** The hub that speaks takes its own rounds, when they come back to it, for stale. */
  lemma OwnRoundStale(net: Net, r: Rumour, o: Key)
    requires GossipInv(net) && r in Spreading(net, RoundOf(r.gossip)) && r.gossip.origin == o
    ensures o in net.hubs && Stale(net.hubs[o], r.gossip)
  {
    assert RumourOk(net, RoundOf(r.gossip), r);
    assert Newest(net, o, o) == LastRound(net, o);
  }

  lemma HeardRumoursOf(net: Net, r: Rumour, matched: bool, o: Key, key: Key, first: nat)
    requires RumoursOf(net, o, key, first) && r in Spreading(net, RoundOf(r.gossip)) && r.dst in net.hubs
    ensures RumoursOf(Heard(net, r, matched), o, key, first)
  {
    hide Heard, Spreading;
    forall q, p | p in Spreading(Heard(net, r, matched), q)
      ensures Carries(q, p, o, key, first)
    {
      HeardOrigin(net, r, matched, q, p);
      if p !in Spreading(net, q) {
        assert Carries(RoundOf(r.gossip), r, o, key, first);
      }
    }
  }

  lemma HeardSpeaking(net: Net, r: Rumour, matched: bool, o: Key, key: Key, first: nat)
    requires Speaking(net, o, key, first) && r in Spreading(net, RoundOf(r.gossip))
    ensures r.dst in net.hubs && Speaking(Heard(net, r, matched), o, key, first)
    ensures LastRound(Heard(net, r, matched), o) == LastRound(net, o)
  {
    hide Heard, GossipInv, Advertises, Stale, Newest, LastRound, Spreading;
    HeardInv(net, r, matched);
    var net1 := Heard(net, r, matched);
    HeardNumbers(net, r, matched);
    HeardTopology(net, r, matched);
    OwnRoundStale(net, r, o);
    assert Advertises(net1, o, key) by {
      HeardHint(net, r, matched, o, key);
      SameAdvertises(net, net1, o, key);
    }
    var k := RoundOf(r.gossip);
    assert Carries(k, r, o, key, first);
    HeardRumoursOf(net, r, matched, o, key, first);
    forall h | h in net1.hubs && h != o && Newest(net1, h, o) > first ensures HintOf(net1, h, key) == Some(o) {
      HeardHint(net, r, matched, h, key);
    }
  }

  lemma SameAdvertises(net: Net, net1: Net, o: Key, key: Key)
    requires SameTopology(net, net1) && Advertises(net, o, key) && HintOf(net1, o, key) == HintOf(net, o, key)
    ensures Advertises(net1, o, key)
  {
  }

  lemma StepSpeaking(net: Net, step: Step, verify: Verifier, o: Key, key: Key, first: nat)
    requires Speaking(net, o, key, first) && Enabled(net, step) && OnlyBy(step, o)
    requires Spares(step, key) || key in net.hubs[o].spokes
    ensures Speaking(Apply(net, step, verify), o, key, first)
    ensures LastRound(Apply(net, step, verify), o) == LastRound(net, o) + if SendsRound(step) then 1 else 0
  {
    hide Speaking, Forwarded, Emitted, Announced, Heard, GossipAgree, LastRound, HintOf;
    assert GossipInv(net) by { SpeakingInv(net, o, key, first); }
    StepKeepsGossipInv(net, step, verify);
    match step
    case Inject(at, env) =>
      forall h ensures HintOf(Apply(net, step, verify), h, key) == HintOf(net, h, key) {
        ForwardedHint(net, at, env, verify(env), None, InFlight(net, env.id), h, key);
      }
      ForwardedGossipAgrees(net, at, env, verify(env), None, InFlight(net, env.id));
      QuietGossipSteps(net, Apply(net, step, verify), o, key, first);
    case Deliver(c, matched) =>
      forall h ensures HintOf(Apply(net, step, verify), h, key) == HintOf(net, h, key) {
        ForwardedHint(net, c.dst, c.env, verify(c.env), From(c.src, matched), InFlight(net, c.env.id) - multiset{c}, h, key);
      }
      ForwardedGossipAgrees(net, c.dst, c.env, verify(c.env), From(c.src, matched), InFlight(net, c.env.id) - multiset{c});
      QuietGossipSteps(net, Apply(net, step, verify), o, key, first);
    case EmitAt(at) => EmittedSpeaking(net, o, key, first);
    case AnnounceAt(at, keys, viaHub) =>
      AnnouncedSpeaking(net, o, keys, viaHub, key, first);
      EmittedSpeaking(Announced(net, o, keys, viaHub), o, key, first);
    case Hear(r, matched) => HeardSpeaking(net, r, matched, o, key, first);
  }

  lemma SpeakingInv(net: Net, o: Key, key: Key, first: nat)
    requires Speaking(net, o, key, first)
    ensures GossipInv(net) && o in net.hubs
  {
  }

  /** Every step of the run sends no round but of hub o, and leaves the key to be advertised. */
  ghost predicate OnlySpeaker(net: Net, steps: seq<Step>, o: Key, key: Key) {
    && o in net.hubs
    && (forall s :: s in steps ==> OnlyBy(s, o))
    && (key in net.hubs[o].spokes || forall s :: s in steps ==> Spares(s, key))
  }

  lemma {:induction false} RunSpeaking(states: seq<Net>, steps: seq<Step>, verify: Verifier, o: Key, key: Key, i: nat)
    requires Run(states, steps, verify) && i < |states|
    requires GossipInv(states[0]) && Settled(states[0]) && Advertises(states[0], o, key)
    requires OnlySpeaker(states[0], steps, o, key)
    ensures Speaking(states[i], o, key, LastRound(states[0], o))
    ensures (exists j :: 0 <= j < i && SendsRound(steps[j])) ==> LastRound(states[i], o) > LastRound(states[0], o)
  {
    hide Speaking, Apply, Enabled, GossipInv, Settled, Advertises, LastRound;
    if i == 0 {
      SettledSpeaking(states[0], o, key);
    } else {
      RunSpeaking(states, steps, verify, o, key, i - 1);
      RunStep(states, steps, verify, i - 1);
      RunKeepsTopology(states, steps, verify, i - 1);
      assert steps[i - 1] in steps;
      StepSpeaking(states[i - 1], steps[i - 1], verify, o, key, LastRound(states[0], o));
      SpeakingRounds(states[i - 1], o, key, LastRound(states[0], o));
    }
  }

  lemma SpeakingRounds(net: Net, o: Key, key: Key, first: nat)
    requires Speaking(net, o, key, first)
    ensures LastRound(net, o) >= first
  {
  }

  /** From a state in which no gossip is in flight, a run in which only hub o sends rounds, and at
      least one: whatever the hints were, and in whatever order messages arrive, when no gossip is in
      flight any more every other hub points every key that o advertises at o. */
  lemma OneSpeaker(states: seq<Net>, steps: seq<Step>, verify: Verifier, o: Key, key: Key, h: Key)
    requires Run(states, steps, verify)
    requires GossipInv(states[0]) && Connected(states[0]) && Settled(states[0]) && Settled(states[|steps|])
    requires Advertises(states[0], o, key) && OnlySpeaker(states[0], steps, o, key)
    requires exists s :: s in steps && SendsRound(s)
    requires h in states[|steps|].hubs && h != o
    ensures HintOf(states[|steps|], h, key) == Some(o)
  {
    hide Run, GossipInv, Connected, Advertises, OnlySpeaker, LastRound, Newest;
    RunLength(states, steps, verify);
    RunSpeaking(states, steps, verify, o, key, |steps|);
    var s :| s in steps && SendsRound(s);
    var j :| 0 <= j < |steps| && steps[j] == s;
    assert SendsRound(steps[j]);
    var net := states[|steps|];
    RunKeepsTopology(states, steps, verify, |steps|);
    SameLinks(states[0], net);
    SettledConverged(net);
    SpeakingInv(net, o, key, LastRound(states[0], o));
    assert Newest(net, h, o) == LastRound(net, o);
  }

  lemma RunLength(states: seq<Net>, steps: seq<Step>, verify: Verifier)
    requires Run(states, steps, verify)
    ensures |states| == |steps| + 1
  {
  }

  // ----- What the hub that speaks does not advertise -----

  /** The step does not announce the key at hub o as one that lives behind another hub. */
  predicate KeepsToItself(step: Step, o: Key, key: Key) {
    step.AnnounceAt? && key in step.keys && step.viaHub.Some? ==> step.viaHub.value == o
  }

  /** No gossip in flight advertises the key, and neither does hub o. */
  ghost predicate Unmentioned(net: Net, o: Key, key: Key) {
    && Graph(net)
    && !Advertises(net, o, key)
    && forall q, r :: r in Spreading(net, q) ==> key !in r.gossip.entries
  }

  lemma UnadvertisedRound(net: Net, o: Key, key: Key)
    requires Graph(net) && o in net.hubs && !Advertises(net, o, key)
    ensures !Advertises(Emitted(net, o), o, key) && key !in Emit(net.hubs[o]).1.entries
  {
    hide RumoursTo, PointAll, Spreading;
    var s := net.hubs[o];
    var h := Emit(s).0;
    PointedAt(s.where, s.spokes, s.self, key);
    assert Emitted(net, o).hubs == net.hubs[o := h];
  }

  lemma EmittedUnmentioned(net: Net, o: Key, key: Key)
    requires Unmentioned(net, o, key) && o in net.hubs
    ensures Unmentioned(Emitted(net, o), o, key)
    ensures forall h :: h != o ==> HintOf(Emitted(net, o), h, key) == HintOf(net, h, key)
  {
    hide Emitted, Emit, Advertises, RumoursTo, HintOf, Graph;
    var net1 := Emitted(net, o);
    var g := Emit(net.hubs[o]).1;
    UnadvertisedRound(net, o, key);
    EmittedTopology(net, o);
    TopologyKeepsGraph(net, net1);
    forall q, r | r in Spreading(net1, q) ensures key !in r.gossip.entries {
      if r !in Spreading(net, q) {
        EmittedOnly(net, o, q, r);
      }
    }
    forall h | h != o ensures HintOf(net1, h, key) == HintOf(net, h, key) {
      EmittedHint(net, o, h, key);
    }
  }

  lemma EmittedOnly(net: Net, at: Key, q: Round, r: Rumour)
    requires at in net.hubs && r in Spreading(Emitted(net, at), q) && r !in Spreading(net, q)
    ensures r.gossip == Emit(net.hubs[at]).1
  {
    hide Advertised, PointAll;
  }

  lemma AnnouncedUnmentioned(net: Net, o: Key, keys: set<Key>, viaHub: Option<Key>, key: Key)
    requires Unmentioned(net, o, key) && o in net.hubs && KeepsToItself(AnnounceAt(o, keys, viaHub), o, key)
    ensures o in Announced(net, o, keys, viaHub).hubs && Unmentioned(Announced(net, o, keys, viaHub), o, key)
    ensures forall h :: h != o ==> HintOf(Announced(net, o, keys, viaHub), h, key) == HintOf(net, h, key)
  {
    hide PointAll;
    var net1 := Announced(net, o, keys, viaHub);
    UpdateKeepsTopology(net, o, net1.hubs[o], net1);
    AnnouncedHint(net, o, keys, viaHub, o, key);
    NotAdvertised(net, net1, o, key);
    forall h | h != o ensures HintOf(net1, h, key) == HintOf(net, h, key) {
      AnnouncedHint(net, o, keys, viaHub, h, key);
    }
    assert forall q :: Spreading(net1, q) == Spreading(net, q);
  }

  lemma NotAdvertised(net: Net, net1: Net, o: Key, key: Key)
    requires SameTopology(net, net1) && !Advertises(net, o, key)
    requires HintOf(net1, o, key) == HintOf(net, o, key) || HintOf(net1, o, key) == Some(o)
    ensures !Advertises(net1, o, key)
  {
  }

  lemma HeardUnmentioned(net: Net, r: Rumour, matched: bool, o: Key, key: Key)
    requires Unmentioned(net, o, key) && r in Spreading(net, RoundOf(r.gossip)) && r.dst in net.hubs
    ensures Unmentioned(Heard(net, r, matched), o, key)
    ensures forall h :: HintOf(Heard(net, r, matched), h, key) == HintOf(net, h, key)
  {
    hide Heard, Advertises, HintOf, Graph, Stale, Spreading;
    var net1 := Heard(net, r, matched);
    HeardTopology(net, r, matched);
    TopologyKeepsGraph(net, net1);
    forall h ensures HintOf(net1, h, key) == HintOf(net, h, key) {
      HeardHint(net, r, matched, h, key);
    }
    NotAdvertised(net, net1, o, key);
    forall q, p | p in Spreading(net1, q) ensures key !in p.gossip.entries {
      HeardOrigin(net, r, matched, q, p);
    }
  }

  lemma StepUnmentioned(net: Net, step: Step, verify: Verifier, o: Key, key: Key)
    requires Unmentioned(net, o, key) && Enabled(net, step) && OnlyBy(step, o) && KeepsToItself(step, o, key)
    ensures Unmentioned(Apply(net, step, verify), o, key)
    ensures forall h :: h != o ==> HintOf(Apply(net, step, verify), h, key) == HintOf(net, h, key)
  {
    hide Unmentioned, Forwarded, Emitted, Announced, Heard, HintOf;
    match step
    case Inject(at, env) =>
      ForwardedUnmentioned(net, at, env, verify(env), None, InFlight(net, env.id), o, key);
    case Deliver(c, matched) =>
      ForwardedUnmentioned(net, c.dst, c.env, verify(c.env), From(c.src, matched), InFlight(net, c.env.id) - multiset{c}, o, key);
    case EmitAt(at) => EmittedUnmentioned(net, o, key);
    case AnnounceAt(at, keys, viaHub) =>
      AnnouncedUnmentioned(net, o, keys, viaHub, key);
      EmittedUnmentioned(Announced(net, o, keys, viaHub), o, key);
    case Hear(r, matched) => HeardUnmentioned(net, r, matched, o, key);
  }

  lemma ForwardedUnmentioned(net: Net, at: Key, env: Envelope, valid: bool, from: Option<Key>, rest: multiset<Copy>, o: Key, key: Key)
    requires Unmentioned(net, o, key) && at in net.hubs
    ensures Unmentioned(Forwarded(net, at, env, valid, from, rest), o, key)
    ensures forall h :: HintOf(Forwarded(net, at, env, valid, from, rest), h, key) == HintOf(net, h, key)
  {
    hide Forwarded, Advertises, HintOf, Graph, Spreading;
    var net1 := Forwarded(net, at, env, valid, from, rest);
    ForwardedGossipAgrees(net, at, env, valid, from, rest);
    AgreeValues(net, net1);
    TopologyKeepsGraph(net, net1);
    forall h ensures HintOf(net1, h, key) == HintOf(net, h, key) {
      ForwardedHint(net, at, env, valid, from, rest, h, key);
    }
    NotAdvertised(net, net1, o, key);
  }

  lemma {:induction false} RunUnmentioned(states: seq<Net>, steps: seq<Step>, verify: Verifier, o: Key, key: Key, i: nat)
    requires Run(states, steps, verify) && i < |states| && Unmentioned(states[0], o, key)
    requires forall s :: s in steps ==> OnlyBy(s, o) && KeepsToItself(s, o, key)
    ensures Unmentioned(states[i], o, key)
    ensures forall h :: h != o ==> HintOf(states[i], h, key) == HintOf(states[0], h, key)
  {
    hide Unmentioned, HintOf, Apply, Enabled, KeepsToItself, OnlyBy;
    if i > 0 {
      RunUnmentioned(states, steps, verify, o, key, i - 1);
      RunStep(states, steps, verify, i - 1);
      assert steps[i - 1] in steps;
      StepUnmentioned(states[i - 1], steps[i - 1], verify, o, key);
    }
  }

  /** The converse: a key that hub o neither has as a spoke nor believes to be behind another hub keeps
      its hint at every other hub, in every state of a run in which o alone sends rounds. */
  lemma UnspokenKeepsHint(states: seq<Net>, steps: seq<Step>, verify: Verifier, o: Key, key: Key, h: Key, i: nat)
    requires Run(states, steps, verify) && i < |states| && Graph(states[0]) && Settled(states[0])
    requires !Advertises(states[0], o, key)
    requires forall s :: s in steps ==> OnlyBy(s, o) && KeepsToItself(s, o, key)
    requires h != o
    ensures HintOf(states[i], h, key) == HintOf(states[0], h, key)
  {
    hide Run, Advertises, HintOf, Graph, KeepsToItself, OnlyBy;
    RunUnmentioned(states, steps, verify, o, key, i);
  }

  /** Both ways: through such a run, from rest to rest and with a round sent, the hint of another hub
      for a key becomes the hub that speaks if that hub advertised the key, and else stays. */
  lemma OneSpeakerDecides(states: seq<Net>, steps: seq<Step>, verify: Verifier, o: Key, key: Key, h: Key)
    requires Run(states, steps, verify)
    requires GossipInv(states[0]) && Connected(states[0]) && Settled(states[0]) && Settled(states[|steps|])
    requires o in states[0].hubs && (forall s :: s in steps ==> OnlyBy(s, o) && Spares(s, key))
    requires exists s :: s in steps && SendsRound(s)
    requires h in states[|steps|].hubs && h != o
    ensures HintOf(states[|steps|], h, key)
      == if Advertises(states[0], o, key) then Some(o) else HintOf(states[0], h, key)
  {
    hide Run, GossipInv, Connected, Settled, Advertises, HintOf, OnlyBy, SendsRound;
    RunLength(states, steps, verify);
    if Advertises(states[0], o, key) {
      OneSpeaker(states, steps, verify, o, key, h);
    } else {
      InvGraph(states[0]);
      UnspokenKeepsHint(states, steps, verify, o, key, h, |steps|);
    }
  }

  // ----- Its own spokes: the hints are repaired -----

  lemma HomeHintsSound(net: Net, to: Key, home: Key)
    requires forall h :: h in net.hubs && h != home ==> HintOf(net, h, to) in {None, Some(home)}
    ensures SoundHints(net, to, home)
  {
    forall h | h in net.hubs && Hop(net.hubs[h], to).Some? ensures exists n :: ChainsHome(net, to, h, home, n) {
      if h == home {
        assert ChainsHome(net, to, h, home, 0);
      } else {
        assert HintOf(net, h, to) == Some(home);
        assert ChainsHome(net, to, home, home, 0);
        assert ChainsHome(net, to, h, home, 1);
      }
    }
  }

  /** Whatever the hints for a spoke were: after a run in which only its own hub has sent rounds they
      all point home, and an envelope for it, handed in at any hub, is delivered exactly once in every
      complete run from there, in any arrangement of sessions. */
  lemma HomeRepairs(states: seq<Net>, steps: seq<Step>, verify: Verifier, home: Key, at: Key, env: Envelope,
                    later: seq<Net>, laterSteps: seq<Step>)
    requires Run(states, steps, verify)
    requires GossipInv(states[0]) && Connected(states[0]) && Settled(states[0]) && Settled(states[|steps|])
    requires SoleHome(states[0], env.to, home)
    requires forall s :: s in steps ==> OnlyBy(s, home)
    requires exists s :: s in steps && SendsRound(s)
    requires Fresh(states[|steps|], env.id) && verify(env) && at in states[|steps|].hubs
    requires CompleteRun(states[|steps|], at, env, verify, later, laterSteps)
    ensures forall h :: h in states[|steps|].hubs && h != home ==> HintOf(states[|steps|], h, env.to) == Some(home)
    ensures SoundHints(states[|steps|], env.to, home) && DeliveredOnce(later[|laterSteps|], env, home)
  {
    hide Run, GossipInv, Connected, HintOf, CompleteRun, DeliveredOnce, Fresh, SoundHints, Settled;
    RunLength(states, steps, verify);
    var net := states[|steps|];
    InvGraph(states[0]);
    RunKeepsTopology(states, steps, verify, |steps|);
    TopologyKeepsGraph(states[0], net);
    SameLinks(states[0], net);
    forall h | h in net.hubs && h != home ensures HintOf(net, h, env.to) == Some(home) {
      OneSpeaker(states, steps, verify, home, env.to, h);
    }
    HomeHintsSound(net, env.to, home);
    SoundHintsDeliver(net, at, env, home, verify, later, laterSteps);
  }

  lemma ConvergedKnows(net: Net, h: Key, home: Key, to: Key)
    requires Converged(net) && h in net.hubs && home in net.hubs && LastRound(net, home) > 0 && to in net.hubs[home].spokes
    ensures to in net.hubs[h].where
  {
    hide LastEntries, LastRound;
    assert Knows(net, h, LastEntries(net, home));
  }
}
