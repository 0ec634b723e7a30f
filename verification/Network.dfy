/** A fixed graph of hubs as a state machine. One step is one handler call of one hub
    (hub/server.go): a spoke hands in an envelope, a hub receives a copy of an envelope,
    emits its own gossip, hears a presence announcement, or receives gossip. Messages in
    flight arrive in any order. */
module Network {
  import opened Wrappers
  import opened Envelopes
  import opened HubState

  /** One copy of an envelope on its way from hub `src` to hub `dst`. */
  datatype Copy = Copy(src: Key, dst: Key, env: Envelope)

  /** One gossip message on its way from hub `src` to hub `dst`. */
  datatype Rumour = Rumour(src: Key, dst: Key, gossip: Gossip)

  /** A hub has sent the envelope with this ID to one of its spokes. */
  datatype Handoff = Handoff(hub: Key, spoke: Key, id: Id)

  datatype Round = Round(origin: Key, number: nat)

  datatype Net = Net(
    hubs: map<Key, Hub>,
    copies: map<Id, multiset<Copy>>,        // envelope copies in flight, by envelope ID
    rumours: map<Round, multiset<Rumour>>,  // gossip in flight, by origin and number
    handoffs: multiset<Handoff>,            // everything sent to spokes so far
    latest: map<Key, set<Key>>)             // what each hub advertised in its last round

  datatype Step =
    | Inject(at: Key, env: Envelope)
    | Deliver(copy: Copy, matched: bool)
    | EmitAt(at: Key)
    | AnnounceAt(at: Key, keys: set<Key>, viaHub: Option<Key>)
    | Hear(rumour: Rumour, matched: bool)

  /** The signature and shape checks of an envelope: what `Verify` answers. */
  type Verifier = Envelope -> bool

  function Of<K, F>(bags: map<K, multiset<F>>, k: K): multiset<F> {
    if k in bags then bags[k] else multiset{}
  }

  function InFlight(net: Net, id: Id): multiset<Copy> { Of(net.copies, id) }

  function Spreading(net: Net, r: Round): multiset<Rumour> { Of(net.rumours, r) }

  function RoundOf(g: Gossip): Round { Round(g.origin, g.round) }

  function CopiesTo(src: Key, to: set<Key>, env: Envelope): multiset<Copy> {
    multiset(set k | k in to :: Copy(src, k, env))
  }

  function RumoursTo(src: Key, to: set<Key>, g: Gossip): multiset<Rumour> {
    multiset(set k | k in to :: Rumour(src, k, g))
  }

  function From(src: Key, matched: bool): Option<Key> {
    if matched then Some(src) else None
  }

  predicate Enabled(net: Net, step: Step) {
    match step
    case Inject(at, _) => at in net.hubs
    case Deliver(c, _) => c in InFlight(net, c.env.id) && c.dst in net.hubs
    case EmitAt(at) => at in net.hubs
    case AnnounceAt(at, _, _) => at in net.hubs
    case Hear(r, _) => r in Spreading(net, RoundOf(r.gossip)) && r.dst in net.hubs
  }

  /** Hub `at` runs `forward`; `rest` are the copies with this ID still in flight. */
  function Forwarded(net: Net, at: Key, env: Envelope, valid: bool, from: Option<Key>, rest: multiset<Copy>): Net
    requires at in net.hubs
  {
    var (h, outcome) := Forward(net.hubs[at], env, valid, from);
    var net1 := net.(hubs := net.hubs[at := h], copies := net.copies[env.id := rest]);
    match outcome
    case Dropped => net1
    case ToSpoke(k) => net1.(handoffs := net.handoffs + multiset{Handoff(at, k, env.id)})
    case ToHubs(ks) => net1.(copies := net.copies[env.id := rest + CopiesTo(at, ks, env)])
  }

  function Emitted(net: Net, at: Key): Net
    requires at in net.hubs
  {
    var (h, g) := Emit(net.hubs[at]);
    net.(hubs := net.hubs[at := h],
         rumours := net.rumours[RoundOf(g) := Spreading(net, RoundOf(g)) + RumoursTo(at, h.peers, g)],
         latest := net.latest[at := g.entries])
  }

  function Announced(net: Net, at: Key, keys: set<Key>, viaHub: Option<Key>): Net
    requires at in net.hubs
  {
    net.(hubs := net.hubs[at := Announce(net.hubs[at], keys, viaHub)])
  }

  function Heard(net: Net, r: Rumour, matched: bool): Net
    requires r.dst in net.hubs
  {
    var k := RoundOf(r.gossip);
    var (h, to) := Accept(net.hubs[r.dst], r.gossip, From(r.src, matched));
    net.(hubs := net.hubs[r.dst := h],
         rumours := net.rumours[k := Spreading(net, k) - multiset{r} + RumoursTo(r.dst, to, r.gossip)])
  }

  function Apply(net: Net, step: Step, verify: Verifier): Net
    requires Enabled(net, step)
  {
    match step
    case Inject(at, env) => Forwarded(net, at, env, verify(env), None, InFlight(net, env.id))
    case Deliver(c, matched) =>
      Forwarded(net, c.dst, c.env, verify(c.env), From(c.src, matched), InFlight(net, c.env.id) - multiset{c})
    case EmitAt(at) => Emitted(net, at)
    case AnnounceAt(at, keys, viaHub) =>
      Emitted(Announced(net, at, keys, viaHub), at)
    case Hear(r, matched) => Heard(net, r, matched)
  }

  /** A run: states[i] becomes states[i + 1] by steps[i]. */
  ghost predicate Run(states: seq<Net>, steps: seq<Step>, verify: Verifier) {
    && |states| == |steps| + 1
    && forall i :: 0 <= i < |steps| ==> Enabled(states[i], steps[i]) && states[i + 1] == Apply(states[i], steps[i], verify)
  }

  lemma RunStep(states: seq<Net>, steps: seq<Step>, verify: Verifier, i: nat)
    requires Run(states, steps, verify) && i < |steps|
    ensures Enabled(states[i], steps[i]) && states[i + 1] == Apply(states[i], steps[i], verify)
  {
  }

  /** The graph: every hub runs under its own key, links go both ways and stay inside. */
  ghost predicate Graph(net: Net) {
    && (forall h :: h in net.hubs ==> net.hubs[h].self == h && net.hubs[h].peers <= net.hubs.Keys)
    && (forall h, n :: h in net.hubs && n in net.hubs[h].peers ==> h in net.hubs[n].peers)
  }

  /** Two states with the same hubs, links and spokes. */
  ghost predicate SameTopology(a: Net, b: Net) {
    && a.hubs.Keys == b.hubs.Keys
    && forall h :: h in a.hubs ==>
      && a.hubs[h].self == b.hubs[h].self
      && a.hubs[h].peers == b.hubs[h].peers
      && a.hubs[h].spokes == b.hubs[h].spokes
  }

  lemma TopologyKeepsGraph(a: Net, b: Net)
    requires SameTopology(a, b) && Graph(a)
    ensures Graph(b)
  {
  }

  ghost predicate Adjacent(net: Net, a: Key, b: Key) {
    a in net.hubs && b in net.hubs && b in net.hubs[a].peers
  }

  ghost predicate Path(net: Net, p: seq<Key>) {
    && |p| > 0
    && p[0] in net.hubs
    && forall i, j :: 0 <= i && j == i + 1 && j < |p| ==> Adjacent(net, p[i], p[j])
  }

  ghost predicate Linked(net: Net, a: Key, b: Key) {
    exists p :: Path(net, p) && p[0] == a && p[|p| - 1] == b
  }

  ghost predicate Connected(net: Net) {
    forall a, b :: a in net.hubs && b in net.hubs ==> Linked(net, a, b)
  }

  /** Changing one hub in anything but its key, peers and spokes keeps the topology. */
  lemma UpdateKeepsTopology(net: Net, at: Key, h: Hub, net1: Net)
    requires at in net.hubs && net1.hubs == net.hubs[at := h]
    requires h.self == net.hubs[at].self && h.peers == net.hubs[at].peers && h.spokes == net.hubs[at].spokes
    ensures SameTopology(net, net1)
  {
  }

  lemma ForwardedTopology(net: Net, at: Key, env: Envelope, valid: bool, from: Option<Key>, rest: multiset<Copy>)
    requires at in net.hubs
    ensures SameTopology(net, Forwarded(net, at, env, valid, from, rest))
  {
    UpdateKeepsTopology(net, at, Forward(net.hubs[at], env, valid, from).0, Forwarded(net, at, env, valid, from, rest));
  }

  lemma EmittedTopology(net: Net, at: Key)
    requires at in net.hubs
    ensures SameTopology(net, Emitted(net, at))
  {
    UpdateKeepsTopology(net, at, Emit(net.hubs[at]).0, Emitted(net, at));
  }

  lemma HeardTopology(net: Net, r: Rumour, matched: bool)
    requires r.dst in net.hubs
    ensures SameTopology(net, Heard(net, r, matched))
  {
    UpdateKeepsTopology(net, r.dst, Accept(net.hubs[r.dst], r.gossip, From(r.src, matched)).0, Heard(net, r, matched));
  }

  lemma StepKeepsTopology(net: Net, step: Step, verify: Verifier)
    requires Enabled(net, step)
    ensures SameTopology(net, Apply(net, step, verify))
  {
    match step
    case Inject(at, env) => ForwardedTopology(net, at, env, verify(env), None, InFlight(net, env.id));
    case Deliver(c, matched) =>
      ForwardedTopology(net, c.dst, c.env, verify(c.env), From(c.src, matched), InFlight(net, c.env.id) - multiset{c});
    case EmitAt(at) => EmittedTopology(net, at);
    case AnnounceAt(at, keys, viaHub) =>
      UpdateKeepsTopology(net, at, Announce(net.hubs[at], keys, viaHub), Announced(net, at, keys, viaHub));
      EmittedTopology(Announced(net, at, keys, viaHub), at);
    case Hear(r, matched) => HeardTopology(net, r, matched);
  }

  lemma {:induction false} RunKeepsTopology(states: seq<Net>, steps: seq<Step>, verify: Verifier, i: nat)
    requires Run(states, steps, verify) && i < |states|
    ensures SameTopology(states[0], states[i])
  {
    if i > 0 {
      RunKeepsTopology(states, steps, verify, i - 1);
      StepKeepsTopology(states[i - 1], steps[i - 1], verify);
    }
  }

  // ----- Nothing goes back where it came from -----

  lemma CopyIn(src: Key, to: set<Key>, env: Envelope, c: Copy)
    ensures CopiesTo(src, to, env)[c] == if c.src == src && c.env == env && c.dst in to then 1 else 0
  {
  }

  /** What a hub sends on for a copy that arrived on the registered session of its sender does not go
      back there. */
  lemma NotBackToSender(net: Net, c: Copy, verify: Verifier)
    requires Enabled(net, Deliver(c, true))
    ensures var back := Copy(c.dst, c.src, c.env);
      InFlight(Apply(net, Deliver(c, true), verify), c.env.id)[back] <= InFlight(net, c.env.id)[back]
  {
    hide CopiesTo, Route;
    var back := Copy(c.dst, c.src, c.env);
    var route := Route(net.hubs[c.dst], c.env.to, Some(c.src));
    RouteSpares(net.hubs[c.dst], c.env.to, c.src);
    if route.ToHubs? {
      CopyIn(c.dst, route.hubs, c.env, back);
    }
  }

  lemma RouteSpares(h: Hub, to: Key, from: Key)
    ensures Route(h, to, Some(from)).ToHubs? ==> from !in Route(h, to, Some(from)).hubs
  {
  }

  /** Nor does a round of gossip. */
  lemma RoundNotBack(net: Net, r: Rumour)
    requires Enabled(net, Hear(r, true))
    ensures var back := Rumour(r.dst, r.src, r.gossip);
      Spreading(Heard(net, r, true), RoundOf(r.gossip))[back] <= Spreading(net, RoundOf(r.gossip))[back]
  {
    hide PointAll;
  }
}
