/** Every gossip round dies out: a hub passes a round on only when it is newer than what it has
    accepted of that origin, so one round costs at most the links of the hubs that lag behind. */
module GossipTermination {
  import opened Envelopes
  import opened HubState
  import opened Network
  import opened Gossips
  import opened Wrappers
  import opened Sums
  import T = Termination

  /** For each hub, how many copies of the round it may still pass on. */
  ghost function Lag(net: Net, k: Round): map<Key, nat> {
    map h | h in net.hubs :: LagOf(net.hubs[h], k)
  }

  ghost function LagOf(h: Hub, k: Round): nat {
    if k.origin in h.gseen && k.number <= h.gseen[k.origin] then 0 else |h.peers|
  }

  ghost function RoundMeasure(net: Net, k: Round): nat {
    |Spreading(net, k)| + Sum(Lag(net, k))
  }

  ghost function Hears(step: Step, k: Round): nat {
    if step.Hear? && RoundOf(step.rumour.gossip) == k then 1 else 0
  }

  ghost function TotalHears(steps: seq<Step>, k: Round): nat {
    if steps == [] then 0 else TotalHears(steps[..|steps| - 1], k) + Hears(steps[|steps| - 1], k)
  }

  lemma {:induction false} RumoursToSize(src: Key, to: set<Key>, g: Gossip)
    ensures |RumoursTo(src, to, g)| == |to|
  {
    if to == {} {
      assert RumoursTo(src, to, g) == multiset{};
    } else {
      var k :| k in to;
      RumoursToSize(src, to - {k}, g);
      assert (set j | j in to :: Rumour(src, j, g)) == (set j | j in to - {k} :: Rumour(src, j, g)) + {Rumour(src, k, g)};
      assert RumoursTo(src, to, g) == RumoursTo(src, to - {k}, g) + multiset{Rumour(src, k, g)};
    }
  }

  lemma LagUpdate(net: Net, at: Key, h: Hub, net1: Net, k: Round)
    requires at in net.hubs && net1.hubs == net.hubs[at := h]
    ensures Sum(Lag(net1, k)) + LagOf(net.hubs[at], k) == Sum(Lag(net, k)) + LagOf(h, k)
  {
    assert Lag(net1, k) == Lag(net, k)[at := LagOf(h, k)];
    SumUpdate(Lag(net, k), at, LagOf(h, k));
  }

  lemma ForwardedLag(net: Net, at: Key, env: Envelope, valid: bool, from: Option<Key>, rest: multiset<Copy>, k: Round)
    requires at in net.hubs
    ensures RoundMeasure(Forwarded(net, at, env, valid, from, rest), k) == RoundMeasure(net, k)
  {
    LagUpdate(net, at, Forward(net.hubs[at], env, valid, from).0, Forwarded(net, at, env, valid, from, rest), k);
  }

  lemma AnnouncedLag(net: Net, at: Key, keys: set<Key>, viaHub: Option<Key>, k: Round)
    requires at in net.hubs
    ensures RoundMeasure(Announced(net, at, keys, viaHub), k) == RoundMeasure(net, k)
  {
    LagUpdate(net, at, Announce(net.hubs[at], keys, viaHub), Announced(net, at, keys, viaHub), k);
  }

  /** Emitting a round costs its origin the links that it had left for that round. */
  lemma EmittedLag(net: Net, at: Key, k: Round)
    requires GossipInv(net) && at in net.hubs
    ensures RoundMeasure(Emitted(net, at), k) <= RoundMeasure(net, k)
  {
    var h, g := Emit(net.hubs[at]).0, Emit(net.hubs[at]).1;
    LagUpdate(net, at, h, Emitted(net, at), k);
    assert Newest(net, at, at) == LastRound(net, at);
    if k == RoundOf(g) {
      EmittedSpreading(net, at);
      NextRoundUnused(net, at);
      RumoursToSize(at, net.hubs[at].peers, g);
    } else {
      EmittedOthers(net, at, k);
    }
  }

  /** Hearing a rumour costs at least that rumour. */
  lemma HeardLag(net: Net, r: Rumour, matched: bool, k: Round)
    requires r in Spreading(net, RoundOf(r.gossip)) && r.dst in net.hubs
    ensures RoundMeasure(Heard(net, r, matched), k) + Hears(Hear(r, matched), k) <= RoundMeasure(net, k)
  {
    var h := Accept(net.hubs[r.dst], r.gossip, From(r.src, matched)).0;
    LagUpdate(net, r.dst, h, Heard(net, r, matched), k);
    HeardBags(net, r, matched, k);
    var to := HeardTo(net, r, matched);
    T.SubsetSize(to, net.hubs[r.dst].peers);
    RumoursToSize(r.dst, to, r.gossip);
  }

  lemma StepPaysForRound(net: Net, step: Step, verify: Verifier, k: Round)
    requires GossipInv(net) && Enabled(net, step)
    ensures RoundMeasure(Apply(net, step, verify), k) + Hears(step, k) <= RoundMeasure(net, k)
  {
    match step
    case Inject(at, env) => ForwardedLag(net, at, env, verify(env), None, InFlight(net, env.id), k);
    case Deliver(c, matched) =>
      ForwardedLag(net, c.dst, c.env, verify(c.env), From(c.src, matched), InFlight(net, c.env.id) - multiset{c}, k);
    case EmitAt(at) => EmittedLag(net, at, k);
    case AnnounceAt(at, keys, viaHub) =>
      AnnouncedLag(net, at, keys, viaHub, k);
      AnnouncedInv(net, at, keys, viaHub);
      EmittedLag(Announced(net, at, keys, viaHub), at, k);
    case Hear(r, matched) => HeardLag(net, r, matched, k);
  }

  /** In any run from a state that gossip can lead to, the copies of one round that hubs hear
      number at most the measure of the first state. */
  lemma {:induction false} RoundsDieOut(states: seq<Net>, steps: seq<Step>, verify: Verifier, k: Round)
    requires Run(states, steps, verify) && GossipInv(states[0])
    ensures TotalHears(steps, k) + RoundMeasure(states[|steps|], k) <= RoundMeasure(states[0], k)
    decreases |steps|
  {
    if steps != [] {
      var n := |steps| - 1;
      T.RunPrefix(states, steps, verify, n);
      RoundsDieOut(states[..n + 1], steps[..n], verify, k);
      RunKeepsGossipInv(states, steps, verify, n);
      StepPaysForRound(states[n], steps[n], verify, k);
    }
  }
}
