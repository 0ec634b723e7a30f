/** Delivery when it is fixed on which sessions envelopes arrive. A hub then routes by the sender of
    the copy that reaches it first, and the exact condition is on the order of first arrivals. */
module Arrangements {
  import opened Envelopes
  import opened HubState
  import opened Network
  import opened Delivery
  import opened Wrappers

  /** A hub, and the peer on whose registered session the envelope first reached it, if it did so on
      a registered session. */
  datatype Visit = Visit(hub: Key, from: Option<Key>)

  /** The hubs that the hub of a visit sends the envelope on to. */
  function Onward(net: Net, to: Key, v: Visit): set<Key> {
    if v.hub in net.hubs then
      match Route(net.hubs[v.hub], to, v.from)
      case ToHubs(ks) => ks
      case _ => {}
    else {}
  }

  ghost predicate Visits(vs: seq<Visit>, h: Key) { exists i :: 0 <= i < |vs| && vs[i].hub == h }

  /** Visit v is one that an earlier visit sends the envelope on to. */
  ghost predicate SentOn(net: Net, to: Key, sessions: Arrangement, vs: seq<Visit>, v: Visit) {
    exists j :: 0 <= j < |vs| && v.hub in Onward(net, to, vs[j]) && v.from == From(vs[j].hub, sessions(vs[j].hub, v.hub))
  }

  /** An order in which hubs may be reached: each of them once, from one that was reached before. */
  ghost predicate Tour(net: Net, to: Key, sessions: Arrangement, at: Key, vs: seq<Visit>) {
    && |vs| > 0
    && at in net.hubs
    && vs[0] == Visit(at, None)
    && (forall i, j :: 0 <= i < j < |vs| ==> vs[i].hub != vs[j].hub)
    && forall i :: 0 < i < |vs| ==> SentOn(net, to, sessions, vs[..i], vs[i])
  }

  /** A tour that leads to no further hub, and has not been home. */
  ghost predicate Pocket(net: Net, to: Key, sessions: Arrangement, at: Key, home: Key, vs: seq<Visit>) {
    && Tour(net, to, sessions, at, vs)
    && (forall i, n :: 0 <= i < |vs| && n in Onward(net, to, vs[i]) ==> Visits(vs, n))
    && !Visits(vs, home)
  }

  // ----- What every step keeps -----

  ghost predicate OnTour(net0: Net, env: Envelope, vs: seq<Visit>, c: Copy) {
    c.env == env && c.dst in net0.hubs && exists j :: 0 <= j < |vs| && vs[j].hub == c.src && c.dst in Onward(net0, env.to, vs[j])
  }

  ghost predicate Ahead(env: Envelope, vs: seq<Visit>, flight: multiset<Copy>, v: Visit, n: Key) {
    Visits(vs, n) || Copy(v.hub, n, env) in flight
  }

  ghost predicate Partial(net0: Net, env: Envelope, sessions: Arrangement, at: Key, vs: seq<Visit>) {
    vs == [] || Tour(net0, env.to, sessions, at, vs)
  }

  ghost predicate FlightOnTour(net0: Net, env: Envelope, vs: seq<Visit>, flight: multiset<Copy>) {
    forall c :: c in flight ==> OnTour(net0, env, vs, c)
  }

  ghost predicate AllAhead(net0: Net, env: Envelope, vs: seq<Visit>, flight: multiset<Copy>) {
    forall i, n :: 0 <= i < |vs| && n in Onward(net0, env.to, vs[i]) ==> Ahead(env, vs, flight, vs[i], n)
  }

  ghost predicate SeenAre(net: Net, id: Id, vs: seq<Visit>) {
    forall h :: Seen(net, id, h) <==> Visits(vs, h)
  }

  /** The hubs that have handled the envelope, in the order of the tour, with the copies that they
      sent on either in flight or at hubs of the tour. */
  ghost predicate Traced(net: Net, net0: Net, env: Envelope, sessions: Arrangement, at: Key, vs: seq<Visit>) {
    && Graph(net0)
    && SameHints(net0, net, env.to)
    && Partial(net0, env, sessions, at, vs)
    && SeenAre(net, env.id, vs)
    && FlightOnTour(net0, env, vs, InFlight(net, env.id))
    && AllAhead(net0, env, vs, InFlight(net, env.id))
    && HandedOver(net, env)
  }

  lemma OnwardStays(net0: Net, to: Key, v: Visit)
    requires Graph(net0)
    ensures Onward(net0, to, v) <= net0.hubs.Keys
  {
    if v.hub in net0.hubs {
      assert net0.hubs[v.hub].peers <= net0.hubs.Keys;
    }
  }

  lemma SameRoute(net0: Net, net: Net, to: Key, h: Key, from: Option<Key>)
    requires SameHints(net0, net, to) && h in net.hubs
    ensures h in net0.hubs && Route(net.hubs[h], to, from) == Route(net0.hubs[h], to, from)
  {
  }

  lemma FreshTraced(net0: Net, env: Envelope, sessions: Arrangement, at: Key)
    requires Graph(net0) && Fresh(net0, env.id)
    ensures Traced(net0, net0, env, sessions, at, [])
  {
    FreshInv(net0, env);
  }

  lemma AgreeTraced(a: Net, b: Net, net0: Net, env: Envelope, sessions: Arrangement, at: Key, vs: seq<Visit>)
    requires Traced(a, net0, env, sessions, at, vs) && Agree(a, b, env.id) && SameHints(net0, b, env.to)
    ensures Traced(b, net0, env, sessions, at, vs)
  {
    hide Onward, Tour, FlightOnTour, AllAhead, Visits;
    assert forall h :: Seen(a, env.id, h) <==> Seen(b, env.id, h);
    assert HandedOver(b, env);
  }

  /** The copies still in flight when hub h takes one, or none, of those that are on their way to it. */
  ghost predicate Taken(flight: multiset<Copy>, rest: multiset<Copy>, h: Key) {
    rest <= flight && forall c :: c in flight && c.dst != h ==> c in rest
  }

  lemma TourGrows(net0: Net, to: Key, sessions: Arrangement, at: Key, vs: seq<Visit>, v: Visit)
    requires if vs == [] then v == Visit(at, None) && at in net0.hubs
             else Tour(net0, to, sessions, at, vs) && SentOn(net0, to, sessions, vs, v)
    requires !Visits(vs, v.hub)
    ensures Tour(net0, to, sessions, at, vs + [v])
  {
    hide SentOn;
    var ws := vs + [v];
    forall i | 0 < i < |ws| ensures SentOn(net0, to, sessions, ws[..i], ws[i]) {
      if i < |vs| {
        assert ws[..i] == vs[..i];
      } else {
        assert ws[..i] == vs;
      }
    }
  }

  lemma VisitsMore(vs: seq<Visit>, v: Visit, h: Key)
    ensures Visits(vs + [v], h) <==> Visits(vs, h) || h == v.hub
  {
    if Visits(vs, h) {
      var i :| 0 <= i < |vs| && vs[i].hub == h;
      assert (vs + [v])[i].hub == h;
    }
    if h == v.hub {
      assert (vs + [v])[|vs|].hub == h;
    }
  }

  /** What is in flight after a hub has handled the envelope for the first time. */
  lemma FlightAfter(net: Net, net0: Net, env: Envelope, v: Visit, rest: multiset<Copy>, c: Copy)
    requires SameHints(net0, net, env.to) && v.hub in net.hubs && env.id !in net.hubs[v.hub].seen
    ensures c in InFlight(Forwarded(net, v.hub, env, true, v.from, rest), env.id)
      <==> c in rest || (c.src == v.hub && c.env == env && c.dst in Onward(net0, env.to, v))
  {
    SameRoute(net0, net, env.to, v.hub, v.from);
  }

  lemma FirstTimeOnTour(net: Net, net0: Net, env: Envelope, vs: seq<Visit>, v: Visit, rest: multiset<Copy>)
    requires Graph(net0) && SameHints(net0, net, env.to) && v.hub in net.hubs && env.id !in net.hubs[v.hub].seen
    requires FlightOnTour(net0, env, vs, InFlight(net, env.id)) && AllAhead(net0, env, vs, InFlight(net, env.id))
    requires Taken(InFlight(net, env.id), rest, v.hub)
    ensures var flight := InFlight(Forwarded(net, v.hub, env, true, v.from, rest), env.id);
      FlightOnTour(net0, env, vs + [v], flight) && AllAhead(net0, env, vs + [v], flight)
  {
    hide Onward, Forwarded, Visits;
    var ws := vs + [v];
    var flight := InFlight(Forwarded(net, v.hub, env, true, v.from, rest), env.id);
    forall c | c in flight ensures OnTour(net0, env, ws, c) {
      FlightAfter(net, net0, env, v, rest, c);
      if c in rest {
        assert OnTour(net0, env, vs, c);
        var j :| 0 <= j < |vs| && vs[j].hub == c.src && c.dst in Onward(net0, env.to, vs[j]);
        assert ws[j] == vs[j];
      } else {
        OnwardStays(net0, env.to, v);
        assert ws[|vs|] == v;
      }
    }
    forall i, n | 0 <= i < |ws| && n in Onward(net0, env.to, ws[i]) ensures Ahead(env, ws, flight, ws[i], n) {
      var c := Copy(ws[i].hub, n, env);
      FlightAfter(net, net0, env, v, rest, c);
      VisitsMore(vs, v, n);
      if i < |vs| {
        assert Ahead(env, vs, InFlight(net, env.id), vs[i], n);
      }
    }
  }

  /** A hub handles the envelope for the first time. */
  lemma FirstTimeTraced(net: Net, net0: Net, env: Envelope, sessions: Arrangement, at: Key, vs: seq<Visit>, v: Visit, rest: multiset<Copy>)
    requires Traced(net, net0, env, sessions, at, vs) && v.hub in net.hubs && env.id !in net.hubs[v.hub].seen
    requires if vs == [] then v == Visit(at, None) else SentOn(net0, env.to, sessions, vs, v)
    requires Taken(InFlight(net, env.id), rest, v.hub)
    ensures Traced(Forwarded(net, v.hub, env, true, v.from, rest), net0, env, sessions, at, vs + [v])
  {
    hide Onward, Forwarded, Visits, SentOn, Taken, FlightOnTour, AllAhead, Tour;
    var net1 := Forwarded(net, v.hub, env, true, v.from, rest);
    HintsAfter(net0, net, v.hub, env, true, v.from, rest, env.to);
    SeenAfter(net, v.hub, env, v.from, rest);
    FirstTimeHandedOver(net, env, v.hub, v.from, rest);
    FirstTimeOnTour(net, net0, env, vs, v, rest);
    assert !Visits(vs, v.hub);
    TourGrows(net0, env.to, sessions, at, vs, v);
    forall h ensures Seen(net1, env.id, h) <==> Visits(vs + [v], h) {
      VisitsMore(vs, v, h);
    }
  }

  /** A hub that has handled the envelope already drops the copy. */
  lemma RepeatTraced(net: Net, net0: Net, env: Envelope, sessions: Arrangement, at: Key, vs: seq<Visit>, h: Key, from: Option<Key>,
                     rest: multiset<Copy>)
    requires Traced(net, net0, env, sessions, at, vs) && h in net.hubs && env.id in net.hubs[h].seen
    requires Taken(InFlight(net, env.id), rest, h)
    ensures Traced(Forwarded(net, h, env, true, from, rest), net0, env, sessions, at, vs)
  {
    hide Onward, Forwarded, Visits, Tour, Route, SameHints, Graph, NextTo;
    var net1 := Forwarded(net, h, env, true, from, rest);
    RepeatState(net, h, env, from, rest);
    HintsAfter(net0, net, h, env, true, from, rest, env.to);
    RepeatKept(net, net1, env, vs);
    forall i, n | 0 <= i < |vs| && n in Onward(net0, env.to, vs[i]) ensures Ahead(env, vs, rest, vs[i], n) {
      assert Ahead(env, vs, InFlight(net, env.id), vs[i], n);
    }
  }

  lemma RepeatKept(net: Net, net1: Net, env: Envelope, vs: seq<Visit>)
    requires net1.hubs == net.hubs && net1.handoffs == net.handoffs && SeenAre(net, env.id, vs) && HandedOver(net, env)
    ensures SeenAre(net1, env.id, vs) && HandedOver(net1, env)
  {
    hide Visits;
    assert forall g :: Seen(net1, env.id, g) <==> Seen(net, env.id, g);
  }

  lemma TakenOne(flight: multiset<Copy>, c: Copy)
    ensures Taken(flight, flight - multiset{c}, c.dst)
  {
  }

  /** A copy arrives on the session that the arrangement says. */
  lemma DeliverTraced(net: Net, net0: Net, env: Envelope, sessions: Arrangement, at: Key, vs: seq<Visit>, c: Copy)
    returns (ws: seq<Visit>)
    requires Traced(net, net0, env, sessions, at, vs) && c in InFlight(net, env.id)
    ensures c.env == env && c.dst in net.hubs
    ensures var net1 := Forwarded(net, c.dst, env, true, From(c.src, sessions(c.src, c.dst)), InFlight(net, env.id) - multiset{c});
      Traced(net1, net0, env, sessions, at, ws)
    ensures ws == if Visits(vs, c.dst) then vs else vs + [Visit(c.dst, From(c.src, sessions(c.src, c.dst)))]
  {
    hide Onward, Forwarded, Visits, Tour, Taken, AllAhead;
    assert OnTour(net0, env, vs, c);
    var from := From(c.src, sessions(c.src, c.dst));
    var rest := InFlight(net, env.id) - multiset{c};
    TakenOne(InFlight(net, env.id), c);
    if Visits(vs, c.dst) {
      assert Seen(net, env.id, c.dst);
      ws := vs;
      RepeatTraced(net, net0, env, sessions, at, vs, c.dst, from, rest);
    } else {
      assert !Seen(net, env.id, c.dst);
      var v := Visit(c.dst, from);
      assert SentOn(net0, env.to, sessions, vs, v);
      ws := vs + [v];
      FirstTimeTraced(net, net0, env, sessions, at, vs, v, rest);
    }
  }

  lemma InjectTraced(net: Net, net0: Net, env: Envelope, sessions: Arrangement, at: Key, vs: seq<Visit>) returns (ws: seq<Visit>)
    requires Traced(net, net0, env, sessions, at, vs) && at in net.hubs
    ensures Traced(Forwarded(net, at, env, true, None, InFlight(net, env.id)), net0, env, sessions, at, ws)
    ensures vs == [] ==> ws == [Visit(at, None)]
  {
    hide Onward, Forwarded, Taken, AllAhead, FlightOnTour, SentOn;
    AllTaken(InFlight(net, env.id), at);
    if vs == [] {
      assert !Visits(vs, at);
      assert !Seen(net, env.id, at);
      ws := vs + [Visit(at, None)];
      FirstTimeTraced(net, net0, env, sessions, at, vs, Visit(at, None), InFlight(net, env.id));
    } else {
      ws := vs;
      assert vs[0].hub == at;
      assert Seen(net, env.id, at);
      RepeatTraced(net, net0, env, sessions, at, vs, at, None, InFlight(net, env.id));
    }
  }

  lemma AllTaken(flight: multiset<Copy>, h: Key)
    ensures Taken(flight, flight, h)
  {
  }

  lemma StepTraced(net: Net, net0: Net, step: Step, env: Envelope, verify: Verifier, sessions: Arrangement, at: Key, vs: seq<Visit>)
    returns (ws: seq<Visit>)
    requires Traced(net, net0, env, sessions, at, vs) && Enabled(net, step) && verify(env)
    requires Faithful(step, env) && SameHints(net0, Apply(net, step, verify), env.to)
    requires step.Inject? && step.env.id == env.id ==> step.at == at
    requires step.Deliver? ==> step.matched == sessions(step.copy.src, step.copy.dst)
    ensures Traced(Apply(net, step, verify), net0, env, sessions, at, ws)
  {
    hide Traced, Forwarded, SameHints;
    if step.Inject? && step.env.id == env.id {
      ws := InjectTraced(net, net0, env, sessions, at, vs);
    } else if step.Deliver? && step.copy.env.id == env.id {
      ws := DeliverTraced(net, net0, env, sessions, at, vs, step.copy);
    } else {
      ws := vs;
      StepAgrees(net, step, verify, env.id);
      AgreeTraced(net, Apply(net, step, verify), net0, env, sessions, at, vs);
    }
  }

  lemma {:induction false} RunTraced(net0: Net, states: seq<Net>, steps: seq<Step>, env: Envelope, verify: Verifier,
                                     sessions: Arrangement, at: Key, i: nat)
    returns (vs: seq<Visit>)
    requires Steady(net0, env, verify, states, steps) && i < |states| && verify(env)
    requires Graph(net0) && Fresh(net0, env.id) && states[0] == net0
    requires Follows(steps, sessions) && HandedInAt(steps, env, at)
    ensures Traced(states[i], net0, env, sessions, at, vs)
  {
    hide Traced, Apply, Enabled, SameHints, Faithful;
    if i == 0 {
      vs := [];
      FreshTraced(net0, env, sessions, at);
    } else {
      var ws := RunTraced(net0, states, steps, env, verify, sessions, at, i - 1);
      SteadyStep(net0, states, steps, env, verify, i - 1);
      assert steps[i - 1] in steps;
      vs := StepTraced(states[i - 1], net0, steps[i - 1], env, verify, sessions, at, ws);
    }
  }

  // ----- No pocket: delivered -----

  /** When nothing is in flight any more, the tour leads nowhere else. */
  lemma SettledTour(net: Net, net0: Net, env: Envelope, sessions: Arrangement, at: Key, home: Key, vs: seq<Visit>)
    requires Traced(net, net0, env, sessions, at, vs) && InFlight(net, env.id) == multiset{} && Seen(net, env.id, at)
    requires SoleHome(net0, env.to, home) && !Pocket(net0, env.to, sessions, at, home, vs)
    ensures DeliveredOnce(net, env, home)
  {
    hide Onward, Tour;
    forall i, n | 0 <= i < |vs| && n in Onward(net0, env.to, vs[i]) ensures Visits(vs, n) {
      assert Ahead(env, vs, InFlight(net, env.id), vs[i], n);
    }
    assert Visits(vs, at);
    assert Visits(vs, home);
    SeenHomeDelivered(net, net0, env, home);
  }

  lemma SeenHomeDelivered(net: Net, net0: Net, env: Envelope, home: Key)
    requires SameHints(net0, net, env.to) && HandedOver(net, env) && SoleHome(net0, env.to, home) && Seen(net, env.id, home)
    ensures DeliveredOnce(net, env, home)
  {
  }

  lemma DeliversWithoutPocket(net0: Net, at: Key, env: Envelope, home: Key, verify: Verifier, sessions: Arrangement,
                              states: seq<Net>, steps: seq<Step>)
    requires Graph(net0) && Fresh(net0, env.id) && verify(env) && SoleHome(net0, env.to, home)
    requires forall vs :: !Pocket(net0, env.to, sessions, at, home, vs)
    requires CompleteRun(net0, at, env, verify, states, steps) && Follows(steps, sessions) && HandedInAt(steps, env, at)
    ensures DeliveredOnce(states[|steps|], env, home)
  {
    hide Traced, Pocket, Follows, HandedInAt, Graph, Fresh, SoleHome;
    var vs := RunTraced(net0, states, steps, env, verify, sessions, at, |steps|);
    InjectedIsSeen(states, steps, verify, at, env);
    SettledTour(states[|steps|], net0, env, sessions, at, home, vs);
  }

  // ----- A pocket: a run that goes into it -----

  /** A run along the first visits of a tour. */
  ghost predicate Walked(net0: Net, env: Envelope, verify: Verifier, sessions: Arrangement, at: Key, vs: seq<Visit>,
                         states: seq<Net>, steps: seq<Step>) {
    && |states| == |steps| + 1
    && Steady(net0, env, verify, states, steps)
    && states[0] == net0
    && Inject(at, env) in steps
    && Follows(steps, sessions)
    && HandedInAt(steps, env, at)
    && Traced(states[|steps|], net0, env, sessions, at, vs)
  }

  lemma SteadySnoc(net0: Net, env: Envelope, verify: Verifier, states: seq<Net>, steps: seq<Step>, step: Step, net1: Net)
    requires Steady(net0, env, verify, states, steps) && Enabled(states[|steps|], step) && net1 == Apply(states[|steps|], step, verify)
    requires Faithful(step, env) && SameHints(net0, net1, env.to)
    ensures Steady(net0, env, verify, states + [net1], steps + [step])
  {
    hide Apply, Enabled, SameHints, Faithful;
    var ss, ts := states + [net1], steps + [step];
    forall i | 0 <= i < |ts| ensures Enabled(ss[i], ts[i]) && ss[i + 1] == Apply(ss[i], ts[i], verify) {
      if i < |steps| {
        SteadyStep(net0, states, steps, env, verify, i);
      }
    }
  }

  lemma WalkDelivers(net0: Net, env: Envelope, verify: Verifier, sessions: Arrangement, at: Key, vs: seq<Visit>,
                     states: seq<Net>, steps: seq<Step>, c: Copy)
    returns (ss: seq<Net>, ts: seq<Step>)
    requires Walked(net0, env, verify, sessions, at, vs, states, steps) && verify(env) && c in InFlight(states[|steps|], env.id)
    ensures var from := From(c.src, sessions(c.src, c.dst));
      Walked(net0, env, verify, sessions, at, if Visits(vs, c.dst) then vs else vs + [Visit(c.dst, from)], ss, ts)
    ensures InFlight(ss[|ts|], env.id)
      == InFlight(Forwarded(states[|steps|], c.dst, env, true, From(c.src, sessions(c.src, c.dst)),
                            InFlight(states[|steps|], env.id) - multiset{c}), env.id)
  {
    hide Forwarded, Tour, FlightOnTour, AllAhead, SeenAre, HandedOver, SameHints, Visits, Steady;
    var net := states[|steps|];
    var ws := DeliverTraced(net, net0, env, sessions, at, vs, c);
    var step := Deliver(c, sessions(c.src, c.dst));
    var net1 := Forwarded(net, c.dst, env, true, From(c.src, sessions(c.src, c.dst)), InFlight(net, env.id) - multiset{c});
    assert Enabled(net, step) && Apply(net, step, verify) == net1;
    SteadyLength(net0, env, verify, states, steps);
    SteadySnoc(net0, env, verify, states, steps, step, net1);
    ss, ts := states + [net1], steps + [step];
  }

  lemma SteadyLength(net0: Net, env: Envelope, verify: Verifier, states: seq<Net>, steps: seq<Step>)
    requires Steady(net0, env, verify, states, steps)
    ensures |states| == |steps| + 1
  {
  }

  lemma SteadyNil(net0: Net, env: Envelope, verify: Verifier)
    requires SameHints(net0, net0, env.to)
    ensures Steady(net0, env, verify, [net0], [])
  {
    hide SameHints;
  }

  lemma WalkStart(net0: Net, env: Envelope, verify: Verifier, sessions: Arrangement, at: Key) returns (ss: seq<Net>, ts: seq<Step>)
    requires Graph(net0) && Fresh(net0, env.id) && verify(env) && at in net0.hubs
    ensures Walked(net0, env, verify, sessions, at, [Visit(at, None)], ss, ts)
  {
    hide Forwarded, Tour, FlightOnTour, AllAhead, SeenAre, HandedOver, Visits, Steady, Fresh, Graph, SameHints;
    FreshTraced(net0, env, sessions, at);
    var ws := InjectTraced(net0, net0, env, sessions, at, []);
    var net1 := Forwarded(net0, at, env, true, None, InFlight(net0, env.id));
    SteadyNil(net0, env, verify);
    SteadySnoc(net0, env, verify, [net0], [], Inject(at, env), net1);
    ss, ts := [net0] + [net1], [] + [Inject(at, env)];
    assert ts[0] == Inject(at, env);
  }

  lemma TourStart(net: Net, to: Key, sessions: Arrangement, at: Key, vs: seq<Visit>)
    requires Tour(net, to, sessions, at, vs)
    ensures |vs| > 0 && vs[0] == Visit(at, None) && at in net.hubs
  {
  }

  /** Every beginning of a tour can be walked. */
  lemma {:induction false} Walk(net0: Net, env: Envelope, verify: Verifier, sessions: Arrangement, at: Key, vs: seq<Visit>, k: nat)
    returns (ss: seq<Net>, ts: seq<Step>)
    requires Graph(net0) && Fresh(net0, env.id) && verify(env) && Tour(net0, env.to, sessions, at, vs) && 0 < k <= |vs|
    ensures Walked(net0, env, verify, sessions, at, vs[..k], ss, ts)
    decreases k
  {
    hide Walked, Tour, Graph, Fresh, Visits;
    assert |vs| > 0 && vs[0] == Visit(at, None) && at in net0.hubs by { TourStart(net0, env.to, sessions, at, vs); }
    if k == 1 {
      ss, ts := WalkStart(net0, env, verify, sessions, at);
      assert vs[..1] == [Visit(at, None)];
    } else {
      var states, steps := Walk(net0, env, verify, sessions, at, vs, k - 1);
      var c := NextCopy(net0, env, verify, sessions, at, vs, k - 1, states, steps);
      ss, ts := WalkDelivers(net0, env, verify, sessions, at, vs[..k - 1], states, steps, c);
      assert vs[..k] == vs[..k - 1] + [vs[k - 1]];
    }
  }

  /** The copy that makes the next visit of a tour is in flight. */
  lemma NextCopy(net0: Net, env: Envelope, verify: Verifier, sessions: Arrangement, at: Key, vs: seq<Visit>, k: nat,
                 states: seq<Net>, steps: seq<Step>) returns (c: Copy)
    requires Tour(net0, env.to, sessions, at, vs) && 0 < k < |vs|
    requires Walked(net0, env, verify, sessions, at, vs[..k], states, steps)
    ensures |states| == |steps| + 1 && c in InFlight(states[|steps|], env.id)
    ensures !Visits(vs[..k], c.dst) && vs[k] == Visit(c.dst, From(c.src, sessions(c.src, c.dst)))
  {
    hide Onward, Steady, FlightOnTour, SeenAre, HandedOver, SameHints, Follows, HandedInAt;
    var done := vs[..k];
    assert SentOn(net0, env.to, sessions, done, vs[k]);
    var j :| 0 <= j < |done| && vs[k].hub in Onward(net0, env.to, done[j])
      && vs[k].from == From(done[j].hub, sessions(done[j].hub, vs[k].hub));
    assert Ahead(env, done, InFlight(states[|steps|], env.id), done[j], vs[k].hub);
    assert !Visits(done, vs[k].hub);
    c := Copy(done[j].hub, vs[k].hub, env);
  }

  /** In a tour that leads nowhere else the remaining copies are dropped one by one. */
  lemma {:induction false} WalkOut(net0: Net, env: Envelope, verify: Verifier, sessions: Arrangement, at: Key, vs: seq<Visit>,
                                   states: seq<Net>, steps: seq<Step>)
    returns (ss: seq<Net>, ts: seq<Step>)
    requires Walked(net0, env, verify, sessions, at, vs, states, steps) && verify(env)
    requires forall i, n :: 0 <= i < |vs| && n in Onward(net0, env.to, vs[i]) ==> Visits(vs, n)
    ensures Walked(net0, env, verify, sessions, at, vs, ss, ts) && InFlight(ss[|ts|], env.id) == multiset{}
    decreases |InFlight(states[|steps|], env.id)|
  {
    hide Onward, Steady, Follows, HandedInAt, Forwarded, SameHints, HandedOver, Visits, Tour;
    var net := states[|steps|];
    if InFlight(net, env.id) == multiset{} {
      ss, ts := states, steps;
    } else {
      var c :| c in InFlight(net, env.id);
      assert OnTour(net0, env, vs, c);
      assert Visits(vs, c.dst);
      assert Seen(net, env.id, c.dst);
      RepeatState(net, c.dst, env, From(c.src, sessions(c.src, c.dst)), InFlight(net, env.id) - multiset{c});
      var states1, steps1 := WalkDelivers(net0, env, verify, sessions, at, vs, states, steps, c);
      ss, ts := WalkOut(net0, env, verify, sessions, at, vs, states1, steps1);
    }
  }

  lemma PocketSwallows(net0: Net, at: Key, env: Envelope, home: Key, verify: Verifier, sessions: Arrangement, vs: seq<Visit>)
    returns (states: seq<Net>, steps: seq<Step>)
    requires Graph(net0) && Fresh(net0, env.id) && verify(env) && Pocket(net0, env.to, sessions, at, home, vs)
    ensures |states| == |steps| + 1
    ensures CompleteRun(net0, at, env, verify, states, steps) && Follows(steps, sessions) && HandedInAt(steps, env, at)
    ensures states[|steps|].handoffs[Handoff(home, env.to, env.id)] == 0
  {
    hide Steady, Follows, HandedInAt, Visits, Onward, FlightOnTour, AllAhead, SameHints, Graph, Fresh, SentOn;
    states, steps := Walk(net0, env, verify, sessions, at, vs, |vs|);
    assert vs[..|vs|] == vs;
    states, steps := WalkOut(net0, env, verify, sessions, at, vs, states, steps);
    assert !Seen(states[|steps|], env.id, home);
  }

  // ----- The theorem -----

  /** The exact condition for each arrangement of sessions: an envelope is delivered exactly once in
      every complete run in which it is handed in at this hub, if and only if no order of first
      arrivals ends in a pocket of hubs that keeps it from home. */
  lemma DeliveryInArrangement(net0: Net, at: Key, env: Envelope, home: Key, verify: Verifier, sessions: Arrangement)
    requires Graph(net0) && Fresh(net0, env.id) && verify(env) && SoleHome(net0, env.to, home) && at in net0.hubs
    ensures (forall vs :: !Pocket(net0, env.to, sessions, at, home, vs)) <==>
      forall states, steps ::
        CompleteRun(net0, at, env, verify, states, steps) && Follows(steps, sessions) && HandedInAt(steps, env, at)
        ==> DeliveredOnce(states[|steps|], env, home)
  {
    hide Pocket, Follows, HandedInAt, Graph, Fresh, SoleHome, DeliveredOnce;
    if forall vs :: !Pocket(net0, env.to, sessions, at, home, vs) {
      forall states, steps
        | CompleteRun(net0, at, env, verify, states, steps) && Follows(steps, sessions) && HandedInAt(steps, env, at)
        ensures DeliveredOnce(states[|steps|], env, home)
      {
        DeliversWithoutPocket(net0, at, env, home, verify, sessions, states, steps);
      }
    } else {
      var vs :| Pocket(net0, env.to, sessions, at, home, vs);
      var states, steps := PocketSwallows(net0, at, env, home, verify, sessions, vs);
      NotHandedNotDelivered(states[|steps|], env, home);
    }
  }

  /** Where no session is registered on the side that receives, there is a pocket exactly when the
      hints and links do not lead home. */
  lemma UnregisteredPockets(net0: Net, at: Key, env: Envelope, home: Key, verify: Verifier)
    requires Graph(net0) && Fresh(net0, env.id) && verify(env) && SoleHome(net0, env.to, home) && at in net0.hubs
    ensures (forall vs :: !Pocket(net0, env.to, Unregistered, at, home, vs)) <==> Reaches(net0, env.to, at, home)
  {
    hide Pocket, Reaches, Graph, Fresh, SoleHome, DeliveredOnce;
    DeliveryInArrangement(net0, at, env, home, verify, Unregistered);
    if Reaches(net0, env.to, at, home) {
      forall states, steps | CompleteRun(net0, at, env, verify, states, steps) ensures DeliveredOnce(states[|steps|], env, home) {
        DeliversIfReachable(net0, at, env, home, verify, states, steps);
      }
    } else {
      var states, steps := SwallowsIfUnreachable(net0, at, env, home, verify);
      NotHandedNotDelivered(states[|steps|], env, home);
    }
  }
}
