/** Presence gossip converges: when no gossip is in flight, every hub has accepted the last
    round of every origin and has a hint for every spoke advertised in it. Rounds are numbered
    before they are recorded, and the model takes both as one step. */
module Gossips {
  import opened Envelopes
  import opened HubState
  import opened Network
  import opened Wrappers

  /** Start: hubs have heard and sent no gossip. */
  ghost predicate Quiet(net: Net) {
    && (forall h :: h in net.hubs ==> net.hubs[h].gseen == map[] && net.hubs[h].round == 0)
    && (forall k :: Spreading(net, k) == multiset{})
  }

  /** The newest round of origin `o` that hub `h` has accepted; 0 for none. */
  function Newest(net: Net, h: Key, o: Key): nat {
    if h in net.hubs && o in net.hubs[h].gseen then net.hubs[h].gseen[o] else 0
  }

  function LastRound(net: Net, o: Key): nat {
    if o in net.hubs then net.hubs[o].round else 0
  }

  function LastEntries(net: Net, o: Key): set<Key> {
    if o in net.latest then net.latest[o] else {}
  }

  ghost predicate Knows(net: Net, h: Key, keys: set<Key>) {
    h in net.hubs && keys <= net.hubs[h].where.Keys
  }

  /** All hubs agree with each origin on its last round and know the spokes in it. */
  ghost predicate Converged(net: Net) {
    forall h, o :: h in net.hubs && o in net.hubs ==>
      && Newest(net, h, o) == LastRound(net, o)
      && (LastRound(net, o) > 0 ==> Knows(net, h, LastEntries(net, o)) && net.hubs[o].spokes <= LastEntries(net, o))
  }

  // ----- What every step keeps -----

  ghost predicate NumbersOk(net: Net) {
    forall h, o :: h in net.hubs ==>
      && Newest(net, h, o) <= LastRound(net, o)
      && Newest(net, h, h) == LastRound(net, h)
  }

  ghost predicate RumourOk(net: Net, k: Round, r: Rumour) {
    && RoundOf(r.gossip) == k
    && k.origin in net.hubs && r.src in net.hubs && r.dst in net.hubs
    && 1 <= k.number <= LastRound(net, k.origin)
    && k.number <= Newest(net, r.src, k.origin)
    && (k.number == LastRound(net, k.origin) ==> r.gossip.entries == LastEntries(net, k.origin))
  }

  ghost predicate RumoursOk(net: Net) {
    forall k, r :: r in Spreading(net, k) ==> RumourOk(net, k, r)
  }

  /** Gossip of origin `o`, round `s` or newer, is on its way to hub `n`. */
  ghost predicate Coming(net: Net, n: Key, o: Key, s: nat) {
    exists k, r :: r in Spreading(net, k) && r.dst == n && k.origin == o && s <= k.number
  }

  /** What a hub has accepted, its neighbours have accepted or have coming. */
  ghost predicate Passed(net: Net) {
    forall h, n, o :: Adjacent(net, h, n) && Newest(net, n, o) < Newest(net, h, o) ==> Coming(net, n, o, Newest(net, h, o))
  }

  ghost predicate EntriesKnown(net: Net) {
    forall h, o :: h in net.hubs && o in net.hubs && LastRound(net, o) > 0 && Newest(net, h, o) == LastRound(net, o) ==>
      Knows(net, h, LastEntries(net, o))
  }

  ghost predicate SpokesAdvertised(net: Net) {
    forall o :: o in net.hubs && LastRound(net, o) > 0 ==> net.hubs[o].spokes <= LastEntries(net, o)
  }

  ghost predicate GossipInv(net: Net) {
    && Graph(net)
    && NumbersOk(net)
    && RumoursOk(net)
    && Passed(net)
    && EntriesKnown(net)
    && SpokesAdvertised(net)
  }

  /** Two states that agree on all gossip, but hints may have been added. */
  ghost predicate GossipAgree(a: Net, b: Net) {
    && SameTopology(a, b)
    && a.rumours == b.rumours
    && a.latest == b.latest
    && forall h :: h in a.hubs ==>
      && a.hubs[h].gseen == b.hubs[h].gseen
      && a.hubs[h].round == b.hubs[h].round
      && a.hubs[h].where.Keys <= b.hubs[h].where.Keys
  }

  lemma AgreeValues(a: Net, b: Net)
    requires GossipAgree(a, b)
    ensures forall h, o :: Newest(a, h, o) == Newest(b, h, o)
    ensures forall o :: LastRound(a, o) == LastRound(b, o) && LastEntries(a, o) == LastEntries(b, o)
    ensures forall k :: Spreading(a, k) == Spreading(b, k)
  {
  }

  lemma AgreeRumours(a: Net, b: Net)
    requires NumbersOk(a) && RumoursOk(a) && GossipAgree(a, b)
    ensures NumbersOk(b) && RumoursOk(b)
  {
    hide Newest, LastRound, LastEntries, Spreading;
    AgreeValues(a, b);
    forall k, r | r in Spreading(b, k) ensures RumourOk(b, k, r) {
      assert RumourOk(a, k, r);
    }
  }

  lemma AgreePassed(a: Net, b: Net)
    requires Passed(a) && GossipAgree(a, b)
    ensures Passed(b)
  {
    hide Newest, LastRound, LastEntries, Spreading;
    AgreeValues(a, b);
    forall h, n, o | Adjacent(b, h, n) && Newest(b, n, o) < Newest(b, h, o) ensures Coming(b, n, o, Newest(b, h, o)) {
      assert Adjacent(a, h, n) && Coming(a, n, o, Newest(a, h, o));
      var k, r :| r in Spreading(a, k) && r.dst == n && k.origin == o && Newest(a, h, o) <= k.number;
      assert r in Spreading(b, k);
    }
  }

  lemma AgreeEntries(a: Net, b: Net)
    requires EntriesKnown(a) && SpokesAdvertised(a) && GossipAgree(a, b)
    ensures EntriesKnown(b) && SpokesAdvertised(b)
  {
    hide Newest, LastRound, LastEntries;
    AgreeValues(a, b);
    forall h, o | h in b.hubs && o in b.hubs && LastRound(b, o) > 0 && Newest(b, h, o) == LastRound(b, o)
      ensures Knows(b, h, LastEntries(b, o))
    {
      assert Knows(a, h, LastEntries(a, o));
    }
  }

  lemma AgreeKeepsGossipInv(a: Net, b: Net)
    requires GossipInv(a) && GossipAgree(a, b)
    ensures GossipInv(b)
  {
    hide NumbersOk, RumoursOk, Passed, EntriesKnown, SpokesAdvertised, Graph;
    TopologyKeepsGraph(a, b);
    AgreeRumours(a, b);
    AgreePassed(a, b);
    AgreeEntries(a, b);
  }

  // ----- A hub emits a round -----

  lemma EmittedNumbers(net: Net, at: Key)
    requires Graph(net) && at in net.hubs
    ensures var net1 := Emitted(net, at); var n := LastRound(net, at) + 1;
      && (forall h, o :: Newest(net1, h, o) == if h == at && o == at then n else Newest(net, h, o))
      && (forall o :: LastRound(net1, o) == if o == at then n else LastRound(net, o))
      && (forall o :: o != at ==> LastEntries(net1, o) == LastEntries(net, o))
  {
    hide Advertised, PointAll, RumoursTo;
    assert Emitted(net, at).hubs == net.hubs[at := Emit(net.hubs[at]).0];
  }

  lemma NextRoundUnused(net: Net, at: Key)
    requires RumoursOk(net) && at in net.hubs
    ensures Spreading(net, Round(at, LastRound(net, at) + 1)) == multiset{}
  {
    var k := Round(at, LastRound(net, at) + 1);
    assert forall r :: r in Spreading(net, k) ==> RumourOk(net, k, r);
  }

  lemma EmittedOthers(net: Net, at: Key, k: Round)
    requires Graph(net) && at in net.hubs && k != Round(at, LastRound(net, at) + 1)
    ensures Spreading(Emitted(net, at), k) == Spreading(net, k)
  {
  }

  lemma EmittedSpreading(net: Net, at: Key)
    requires Graph(net) && RumoursOk(net) && at in net.hubs
    ensures var net1 := Emitted(net, at); var g := Emit(net.hubs[at]).1;
      && RoundOf(g) == Round(at, LastRound(net, at) + 1)
      && LastEntries(net1, at) == g.entries
      && Spreading(net1, RoundOf(g)) == RumoursTo(at, net.hubs[at].peers, g)
  {
    NextRoundUnused(net, at);
  }

  lemma RumoursToAll(src: Key, to: set<Key>, g: Gossip, n: Key)
    requires n in to
    ensures Rumour(src, n, g) in RumoursTo(src, to, g)
  {
  }

  lemma EmittedRumoursOk(net: Net, at: Key)
    requires GossipInv(net) && at in net.hubs
    ensures RumoursOk(Emitted(net, at))
  {
    hide Emitted, Emit, Passed, EntriesKnown, SpokesAdvertised;
    var net1 := Emitted(net, at);
    var g := Emit(net.hubs[at]).1;
    EmittedNumbers(net, at);
    EmittedSpreading(net, at);
    EmittedTopology(net, at);
    forall k, r | r in Spreading(net1, k) ensures RumourOk(net1, k, r) {
      if k == RoundOf(g) {
        assert r in RumoursTo(at, net.hubs[at].peers, g);
      } else {
        EmittedOthers(net, at, k);
        assert RumourOk(net, k, r);
      }
    }
  }

  lemma EmittedPassed(net: Net, at: Key)
    requires GossipInv(net) && at in net.hubs
    ensures Passed(Emitted(net, at))
  {
    hide Emitted, Emit, Advertised, EntriesKnown, SpokesAdvertised, RumourOk, RumoursTo;
    var net1 := Emitted(net, at);
    var g := Emit(net.hubs[at]).1;
    EmittedNumbers(net, at);
    EmittedSpreading(net, at);
    EmittedTopology(net, at);
    forall h, n, o | Adjacent(net1, h, n) && Newest(net1, n, o) < Newest(net1, h, o)
      ensures Coming(net1, n, o, Newest(net1, h, o))
    {
      assert Adjacent(net, h, n);
      if h == at && o == at {
        RumoursToAll(at, net.hubs[at].peers, g, n);
        assert Rumour(at, n, g) in Spreading(net1, RoundOf(g));
      } else {
        assert Coming(net, n, o, Newest(net, h, o));
        var k, r :| r in Spreading(net, k) && r.dst == n && k.origin == o && Newest(net, h, o) <= k.number;
        NextRoundUnused(net, at);
        EmittedOthers(net, at, k);
      }
    }
  }

  lemma EmittedEntriesKnown(net: Net, at: Key)
    requires GossipInv(net) && at in net.hubs
    ensures EntriesKnown(Emitted(net, at)) && SpokesAdvertised(Emitted(net, at))
  {
    hide Passed, RumoursOk, Spreading, RumoursTo;
    var net1 := Emitted(net, at);
    EmittedNumbers(net, at);
    EmittedTopology(net, at);
    assert LastEntries(net1, at) == Advertised(Emit(net.hubs[at]).0);
    assert Knows(net1, at, LastEntries(net1, at));
    forall h, o | h in net1.hubs && o in net1.hubs && LastRound(net1, o) > 0 && Newest(net1, h, o) == LastRound(net1, o)
      ensures Knows(net1, h, LastEntries(net1, o))
    {
      if o == at {
        assert Newest(net, h, at) <= LastRound(net, at);
        assert h == at;
      } else {
        assert Knows(net, h, LastEntries(net, o));
      }
    }
  }

  lemma EmittedInv(net: Net, at: Key)
    requires GossipInv(net) && at in net.hubs
    ensures GossipInv(Emitted(net, at))
  {
    hide Emitted, RumoursOk, Passed, EntriesKnown, SpokesAdvertised;
    var net1 := Emitted(net, at);
    EmittedTopology(net, at);
    TopologyKeepsGraph(net, net1);
    EmittedNumbers(net, at);
    EmittedRumoursOk(net, at);
    EmittedPassed(net, at);
    EmittedEntriesKnown(net, at);
  }

  // ----- A hub hears a rumour -----

  lemma AnnouncedInv(net: Net, at: Key, keys: set<Key>, viaHub: Option<Key>)
    requires GossipInv(net) && at in net.hubs
    ensures GossipInv(Announced(net, at, keys, viaHub))
  {
    var net1 := Announced(net, at, keys, viaHub);
    UpdateKeepsTopology(net, at, net1.hubs[at], net1);
    AgreeKeepsGossipInv(net, net1);
  }

  /** After hub `r.dst` hears `r`, it has accepted that round or a newer one of the origin, and
      nothing else has changed in what hubs have accepted. */
  lemma HeardNumbers(net: Net, r: Rumour, matched: bool)
    requires r.dst in net.hubs
    ensures var net1 := Heard(net, r, matched); var k := RoundOf(r.gossip);
      && (forall h, o :: !(h == r.dst && o == k.origin) ==> Newest(net1, h, o) == Newest(net, h, o))
      && Newest(net1, r.dst, k.origin) == (if Stale(net.hubs[r.dst], r.gossip) then Newest(net, r.dst, k.origin) else k.number)
      && (forall o :: LastRound(net1, o) == LastRound(net, o))
      && net1.latest == net.latest
      && (k.number > 0 ==> k.number <= Newest(net1, r.dst, k.origin) && Newest(net, r.dst, k.origin) <= Newest(net1, r.dst, k.origin))
  {
    assert Heard(net, r, matched).hubs == net.hubs[r.dst := Accept(net.hubs[r.dst], r.gossip, From(r.src, matched)).0];
  }

  function HeardTo(net: Net, r: Rumour, matched: bool): set<Key>
    requires r.dst in net.hubs
  {
    Accept(net.hubs[r.dst], r.gossip, From(r.src, matched)).1
  }

  lemma HeardBags(net: Net, r: Rumour, matched: bool, k: Round)
    requires r.dst in net.hubs
    ensures Spreading(Heard(net, r, matched), k) ==
      if k == RoundOf(r.gossip) then Spreading(net, k) - multiset{r} + RumoursTo(r.dst, HeardTo(net, r, matched), r.gossip)
      else Spreading(net, k)
    ensures HeardTo(net, r, matched) <= net.hubs[r.dst].peers
  {
  }

  lemma RumoursToOnly(src: Key, to: set<Key>, g: Gossip, q: Rumour)
    requires q in RumoursTo(src, to, g)
    ensures q.src == src && q.dst in to && q.gossip == g
  {
  }

  /** A rumour in flight after the step was in flight before, or was passed on in it. */
  lemma HeardOrigin(net: Net, r: Rumour, matched: bool, k: Round, q: Rumour)
    requires r.dst in net.hubs && q in Spreading(Heard(net, r, matched), k)
    ensures q in Spreading(net, k) ||
      (k == RoundOf(r.gossip) && q.src == r.dst && q.gossip == r.gossip && q.dst in net.hubs[r.dst].peers)
  {
    HeardBags(net, r, matched, k);
    if q !in Spreading(net, k) {
      RumoursToOnly(r.dst, HeardTo(net, r, matched), r.gossip, q);
    }
  }

  /** The other rumours stay in flight. */
  lemma HeardStays(net: Net, r: Rumour, matched: bool, k: Round, q: Rumour)
    requires r.dst in net.hubs && q in Spreading(net, k) && q != r
    ensures q in Spreading(Heard(net, r, matched), k)
  {
    HeardBags(net, r, matched, k);
  }

  /** An accepted rumour goes on to every neighbour but the one it came from. */
  lemma HeardPassesOn(net: Net, r: Rumour, matched: bool, n: Key)
    requires r.dst in net.hubs && !Stale(net.hubs[r.dst], r.gossip)
    requires n in net.hubs[r.dst].peers && !(matched && n == r.src)
    ensures Rumour(r.dst, n, r.gossip) in Spreading(Heard(net, r, matched), RoundOf(r.gossip))
  {
    var to := Accept(net.hubs[r.dst], r.gossip, From(r.src, matched)).1;
    RumoursToAll(r.dst, to, r.gossip, n);
  }

  lemma RumourStaysOk(net: Net, r: Rumour, matched: bool, k: Round, q: Rumour)
    requires r.dst in net.hubs && RumourOk(net, RoundOf(r.gossip), r) && RumourOk(net, k, q)
    ensures RumourOk(Heard(net, r, matched), k, q)
  {
    HeardNumbers(net, r, matched);
    HeardTopology(net, r, matched);
  }

  lemma PassedOnOk(net: Net, r: Rumour, matched: bool, q: Rumour)
    requires Graph(net) && r.dst in net.hubs && RumourOk(net, RoundOf(r.gossip), r)
    requires q.src == r.dst && q.gossip == r.gossip && q.dst in net.hubs[r.dst].peers
    ensures RumourOk(Heard(net, r, matched), RoundOf(r.gossip), q)
  {
    HeardNumbers(net, r, matched);
    HeardTopology(net, r, matched);
  }

  lemma HeardRumoursOk(net: Net, r: Rumour, matched: bool)
    requires GossipInv(net) && r in Spreading(net, RoundOf(r.gossip))
    ensures RumoursOk(Heard(net, r, matched))
  {
    var net1 := Heard(net, r, matched);
    assert RumourOk(net, RoundOf(r.gossip), r);
    forall k, q | q in Spreading(net1, k) ensures RumourOk(net1, k, q) {
      HeardOrigin(net, r, matched, k, q);
      if q in Spreading(net, k) {
        assert RumourOk(net, k, q);
        RumourStaysOk(net, r, matched, k, q);
      } else {
        PassedOnOk(net, r, matched, q);
      }
    }
  }

  /** A neighbour that lags behind in something old still has it coming. */
  lemma StillComing(net: Net, r: Rumour, matched: bool, n: Key, o: Key, s: nat)
    requires GossipInv(net) && r in Spreading(net, RoundOf(r.gossip)) && r.dst in net.hubs
    requires Coming(net, n, o, s) && Newest(Heard(net, r, matched), n, o) < s
    ensures Coming(Heard(net, r, matched), n, o, s)
  {
    assert RumourOk(net, RoundOf(r.gossip), r);
    var k, q :| q in Spreading(net, k) && q.dst == n && k.origin == o && s <= k.number;
    assert RumourOk(net, k, q);
    HeardNumbers(net, r, matched);
    HeardStays(net, r, matched, k, q);
  }

  lemma NewlyComing(net: Net, r: Rumour, matched: bool, n: Key)
    requires GossipInv(net) && r in Spreading(net, RoundOf(r.gossip)) && r.dst in net.hubs
    requires !Stale(net.hubs[r.dst], r.gossip) && n in net.hubs[r.dst].peers
    requires Newest(Heard(net, r, matched), n, r.gossip.origin) < r.gossip.round
    ensures Coming(Heard(net, r, matched), n, r.gossip.origin, r.gossip.round)
  {
    assert RumourOk(net, RoundOf(r.gossip), r);
    HeardNumbers(net, r, matched);
    HeardPassesOn(net, r, matched, n);
  }

  lemma HeardPassed(net: Net, r: Rumour, matched: bool)
    requires GossipInv(net) && r in Spreading(net, RoundOf(r.gossip)) && r.dst in net.hubs
    ensures Passed(Heard(net, r, matched))
  {
    var net1 := Heard(net, r, matched);
    HeardNumbers(net, r, matched);
    HeardTopology(net, r, matched);
    forall h, n, o | Adjacent(net1, h, n) && Newest(net1, n, o) < Newest(net1, h, o)
      ensures Coming(net1, n, o, Newest(net1, h, o))
    {
      assert Adjacent(net, h, n);
      if h == r.dst && o == r.gossip.origin && !Stale(net.hubs[r.dst], r.gossip) {
        NewlyComing(net, r, matched, n);
      } else {
        NotNewer(net, r, matched, n, o);
        StillComing(net, r, matched, n, o, Newest(net, h, o));
      }
    }
  }

  lemma NotNewer(net: Net, r: Rumour, matched: bool, n: Key, o: Key)
    requires GossipInv(net) && r in Spreading(net, RoundOf(r.gossip)) && r.dst in net.hubs
    ensures Newest(net, n, o) <= Newest(Heard(net, r, matched), n, o)
  {
    assert RumourOk(net, RoundOf(r.gossip), r);
    HeardNumbers(net, r, matched);
  }

  lemma HeardEntriesKnown(net: Net, r: Rumour, matched: bool)
    requires GossipInv(net) && r in Spreading(net, RoundOf(r.gossip))
    ensures EntriesKnown(Heard(net, r, matched)) && SpokesAdvertised(Heard(net, r, matched))
  {
    hide Passed, RumoursTo;
    var net1 := Heard(net, r, matched);
    var kr := RoundOf(r.gossip);
    assert RumourOk(net, kr, r);
    HeardNumbers(net, r, matched);
    HeardTopology(net, r, matched);
    forall h, o | h in net1.hubs && o in net1.hubs && LastRound(net1, o) > 0 && Newest(net1, h, o) == LastRound(net1, o)
      ensures Knows(net1, h, LastEntries(net1, o))
    {
      if h == r.dst && o == kr.origin && !Stale(net.hubs[r.dst], r.gossip) {
        assert r.gossip.entries == LastEntries(net, o);
      } else {
        assert Knows(net, h, LastEntries(net, o));
      }
    }
  }

  lemma HeardInv(net: Net, r: Rumour, matched: bool)
    requires GossipInv(net) && r in Spreading(net, RoundOf(r.gossip))
    ensures r.dst in net.hubs && GossipInv(Heard(net, r, matched))
  {
    hide Heard, Passed, EntriesKnown, SpokesAdvertised;
    assert RumourOk(net, RoundOf(r.gossip), r);
    HeardTopology(net, r, matched);
    TopologyKeepsGraph(net, Heard(net, r, matched));
    HeardNumbers(net, r, matched);
    HeardRumoursOk(net, r, matched);
    HeardPassed(net, r, matched);
    HeardEntriesKnown(net, r, matched);
  }

  // ----- Runs -----

  lemma SeenAloneAgrees(net: Net, at: Key, h: Hub, net1: Net)
    requires at in net.hubs && net1.hubs == net.hubs[at := h] && h == net.hubs[at].(seen := h.seen)
    requires net1.rumours == net.rumours && net1.latest == net.latest
    ensures GossipAgree(net, net1)
  {
    UpdateKeepsTopology(net, at, h, net1);
  }

  lemma ForwardedGossipAgrees(net: Net, at: Key, env: Envelope, valid: bool, from: Option<Key>, rest: multiset<Copy>)
    requires at in net.hubs
    ensures GossipAgree(net, Forwarded(net, at, env, valid, from, rest))
  {
    hide Route, CopiesTo, GossipAgree;
    SeenAloneAgrees(net, at, Forward(net.hubs[at], env, valid, from).0, Forwarded(net, at, env, valid, from, rest));
  }

  lemma StepKeepsGossipInv(net: Net, step: Step, verify: Verifier)
    requires GossipInv(net) && Enabled(net, step)
    ensures GossipInv(Apply(net, step, verify))
  {
    hide GossipInv, Forwarded, Emitted, Heard, GossipAgree;
    match step
    case Inject(at, env) =>
      ForwardedGossipAgrees(net, at, env, verify(env), None, InFlight(net, env.id));
      AgreeKeepsGossipInv(net, Apply(net, step, verify));
    case Deliver(c, matched) =>
      ForwardedGossipAgrees(net, c.dst, c.env, verify(c.env), From(c.src, matched), InFlight(net, c.env.id) - multiset{c});
      AgreeKeepsGossipInv(net, Apply(net, step, verify));
    case EmitAt(at) => EmittedInv(net, at);
    case AnnounceAt(at, keys, viaHub) =>
      AnnouncedInv(net, at, keys, viaHub);
      EmittedInv(Announced(net, at, keys, viaHub), at);
    case Hear(r, matched) => HeardInv(net, r, matched);
  }

  lemma QuietInv(net: Net)
    requires Graph(net) && Quiet(net)
    ensures GossipInv(net)
  {
  }

  lemma {:induction false} RunKeepsGossipInv(states: seq<Net>, steps: seq<Step>, verify: Verifier, i: nat)
    requires Run(states, steps, verify) && i < |states| && GossipInv(states[0])
    ensures GossipInv(states[i])
  {
    if i > 0 {
      RunKeepsGossipInv(states, steps, verify, i - 1);
      RunStep(states, steps, verify, i - 1);
      StepKeepsGossipInv(states[i - 1], steps[i - 1], verify);
    }
  }

  /** With no gossip in flight, neighbours agree, and so do hubs along a path. */
  lemma {:induction false} AgreeAlongPath(net: Net, p: seq<Key>, i: nat, o: Key)
    requires GossipInv(net) && (forall k :: Spreading(net, k) == multiset{})
    requires Path(net, p) && i < |p|
    ensures Newest(net, p[i], o) == Newest(net, p[0], o)
  {
    if i > 0 {
      AgreeAlongPath(net, p, i - 1, o);
      assert Adjacent(net, p[i - 1], p[i]) && Adjacent(net, p[i], p[i - 1]);
    }
  }

  lemma SettledConverged(net: Net)
    requires GossipInv(net) && Connected(net) && (forall k :: Spreading(net, k) == multiset{})
    ensures Converged(net)
  {
    forall h, o | h in net.hubs && o in net.hubs
      ensures Newest(net, h, o) == LastRound(net, o)
      ensures LastRound(net, o) > 0 ==> Knows(net, h, LastEntries(net, o)) && net.hubs[o].spokes <= LastEntries(net, o)
    {
      assert Linked(net, h, o);
      var p :| Path(net, p) && p[0] == h && p[|p| - 1] == o;
      AgreeAlongPath(net, p, |p| - 1, o);
    }
  }

  lemma SameLinks(a: Net, b: Net)
    requires SameTopology(a, b) && Connected(a)
    ensures Connected(b)
  {
    forall x, y | x in b.hubs && y in b.hubs ensures Linked(b, x, y) {
      assert Linked(a, x, y);
      var p :| Path(a, p) && p[0] == x && p[|p| - 1] == y;
      forall i, j | 0 <= i && j == i + 1 && j < |p| ensures Adjacent(b, p[i], p[j]) {
        assert Adjacent(a, p[i], p[j]);
      }
      assert Path(b, p);
    }
  }

  /** Whatever the order of messages: whenever no gossip is in flight, all hubs have the last
      round of every origin, and hints for all spokes advertised in it, among them all spokes
      of the origin. */
  lemma GossipConverges(states: seq<Net>, steps: seq<Step>, verify: Verifier, i: nat)
    requires Run(states, steps, verify) && i < |states|
    requires Graph(states[0]) && Connected(states[0]) && Quiet(states[0])
    requires forall k :: Spreading(states[i], k) == multiset{}
    ensures Converged(states[i])
  {
    QuietInv(states[0]);
    RunKeepsGossipInv(states, steps, verify, i);
    RunKeepsTopology(states, steps, verify, i);
    SameLinks(states[0], states[i]);
    SettledConverged(states[i]);
  }
}
