/** A hub as the object that its handlers update (hub/server.go). Each handler is proved to do
    what the functions of HubState say, on the tables it finds. Sending returns the sessions
    that a message goes out on; the order is that of a map iteration, so it is unspecified. */
module Servers {
  import opened Wrappers
  import opened Envelopes
  import opened HubState
  import opened SeenIds

  datatype Role = RoleSpoke | RoleHub

  /** One connection, with the key and role that its hello announced. */
  class Session {
    const ed: Key
    const role: Role

    constructor (ed: Key, role: Role)
      ensures this.ed == ed && this.role == role
    {
      this.ed := ed;
      this.role := role;
    }
  }

  class Server {
    const self: Key
    const ed: EdVerify
    const seen: SeenIDs
    var spokes: map<Key, Session>
    var hubs: map<Key, Session>
    var where: map<Key, Key>
    var gseen: map<Key, nat>
    var round: nat

    /** Sessions are registered under their own keys. */
    ghost predicate Valid()
      reads this
    {
      && (forall k :: k in spokes ==> spokes[k].ed == k)
      && (forall k :: k in hubs ==> hubs[k].ed == k)
    }

    /** The routing tables, with sessions named by their keys. */
    ghost function State(): Hub
      reads this, seen
    {
      Hub(self, spokes.Keys, hubs.Keys, where, gseen, round, seen.m.Keys)
    }

    /** The key of the peer whose registered session this is. */
    ghost function FromKey(from: Session): Option<Key>
      reads this
    {
      if from.ed in hubs && hubs[from.ed] == from then Some(from.ed) else None
    }

    /** The sessions of these peers, each once. */
    ghost function SessionsOf(table: map<Key, Session>, keys: set<Key>): multiset<Session>
      requires keys <= table.Keys
    {
      multiset(set k | k in keys :: table[k])
    }

    /** What goes out on these sessions is what the outcome says. */
    ghost predicate Sent(sent: seq<Session>, o: Outcome)
      reads this
    {
      match o
      case Dropped => sent == []
      case ToSpoke(k) => k in spokes && sent == [spokes[k]]
      case ToHubs(ks) => ks <= hubs.Keys && multiset(sent) == SessionsOf(hubs, ks)
    }

    constructor (self: Key, ed: EdVerify)
      ensures Valid() && fresh(seen)
      ensures State() == Hub(self, {}, {}, map[], map[], 0, {})
    {
      this.self := self;
      this.ed := ed;
      seen := new SeenIDs();
      spokes, hubs, where, gseen, round := map[], map[], map[], map[], 0;
    }

    lemma SessionsGrow(table: map<Key, Session>, keys: set<Key>, k: Key)
      requires keys <= table.Keys && k in table && k !in keys
      requires forall j :: j in table ==> table[j].ed == j
      ensures SessionsOf(table, keys + {k}) == SessionsOf(table, keys) + multiset{table[k]}
    {
      assert (set j | j in keys + {k} :: table[j]) == (set j | j in keys :: table[j]) + {table[k]};
      assert table[k] !in (set j | j in keys :: table[j]);
    }

    ghost function KeysBut(table: map<Key, Session>, from: Session): set<Key> {
      set k | k in table && table[k] != from
    }

    /** All sessions of a table, in some order. */
    method All(table: map<Key, Session>) returns (out: seq<Session>)
      requires forall k :: k in table ==> table[k].ed == k
      ensures multiset(out) == SessionsOf(table, table.Keys)
    {
      out := [];
      var todo := table.Keys;
      ghost var done: set<Key> := {};
      while todo != {}
        invariant todo <= table.Keys && done == table.Keys - todo
        invariant multiset(out) == SessionsOf(table, done)
      {
        var k :| k in todo;
        todo := todo - {k};
        SessionsGrow(table, done, k);
        out := out + [table[k]];
        done := done + {k};
      }
    }

    /** The sessions of a table but one. */
    method AllBut(table: map<Key, Session>, from: Session) returns (out: seq<Session>)
      requires forall k :: k in table ==> table[k].ed == k
      ensures multiset(out) == SessionsOf(table, KeysBut(table, from))
    {
      out := [];
      var todo := table.Keys;
      ghost var done: set<Key> := {};
      while todo != {}
        invariant todo <= table.Keys && done == (set k | k in table.Keys - todo && table[k] != from)
        invariant multiset(out) == SessionsOf(table, done)
      {
        var k :| k in todo;
        todo := todo - {k};
        if table[k] != from {
          SessionsGrow(table, done, k);
          out := out + [table[k]];
          done := done + {k};
        }
      }
      assert done == KeysBut(table, from);
    }

    /** Leaving out one session leaves out at most its own peer. */
    lemma ButFrom(from: Session)
      requires Valid()
      ensures KeysBut(hubs, from) == Except(hubs.Keys, FromKey(from))
    {
    }

    lemma PointAllGrows(w: map<Key, Key>, keys: set<Key>, k: Key, hub: Key)
      ensures PointAll(w, keys, hub)[k := hub] == PointAll(w, keys + {k}, hub)
      ensures PointAll(w, {}, hub) == w
    {
    }

    /** Hints before and after these keys have been placed at one hub. */
    ghost predicate Repointed(before: map<Key, Key>, after: map<Key, Key>, keys: set<Key>, hub: Key) {
      && (forall k :: k in keys ==> k in after && after[k] == hub)
      && forall k :: k !in keys ==> (k in after <==> k in before) && (k in after ==> after[k] == before[k])
    }

    /** Points the hints for these keys at one hub. */
    method Point(keys: set<Key>, hub: Key)
      modifies this`where
      ensures where == PointAll(old(where), keys, hub)
      ensures Repointed(old(where), where, keys, hub)
    {
      var todo := keys;
      ghost var done: set<Key> := {};
      PointAllGrows(where, {}, hub, hub);
      while todo != {}
        invariant todo <= keys && done == keys - todo
        invariant where == PointAll(old(where), done, hub)
      {
        var k :| k in todo;
        todo := todo - {k};
        where := where[k := hub];
        PointAllGrows(old(where), done, k, hub);
        done := done + {k};
      }
      assert done == keys;
    }

    /** The sessions that a new envelope for `to` goes out on. */
    method Targets(to: Key, from: Session) returns (sent: seq<Session>)
      requires Valid()
      ensures Sent(sent, Route(State(), to, FromKey(from)))
    {
      if to in spokes {
        return [spokes[to]];
      }
      var peer: Session? := null;
      if to in where {
        var hub := where[to];
        if hub in hubs {
          peer := hubs[hub];
        }
      }
      var others := AllBut(hubs, from);
      ButFrom(from);
      if peer != null && peer != from {
        assert (set k | k in {peer.ed} :: hubs[k]) == {peer};
        return [peer];
      }
      sent := others;
    }

    method Forward(env: Envelope, from: Session, t1: int, t2: int) returns (sent: seq<Session>)
      requires Valid()
      modifies seen
      ensures Verify(env, ed).Err? ==> seen.m == old(seen.m) && sent == []
      ensures !ed(env.from, Signed(env), env.sig) ==> seen.m == old(seen.m) && sent == []
      ensures seen.m == Handle(old(seen.m), Arrival(env, t1, t2), ed)
      ensures Sent(sent, HubState.Forward(old(State()), env, Verify(env, ed).Ok?, FromKey(from)).1)
      ensures |old(seen.m)| < 4096 ==> State() == HubState.Forward(old(State()), env, Verify(env, ed).Ok?, FromKey(from)).0
    {
      hide Envelopes.Verify, Signed;
      sent := [];
      VerifiedIff(env, ed);
      if Verify(env, ed).Ok? {
        AddWithinLimit(seen.m, env.id, t1, t2);
        var added := seen.Add(env.id, t1, t2);
        if added {
          sent := Targets(env.to, from);
        }
      }
    }

    /** The spokes to advertise: local ones, and those that hints place elsewhere. */
    method Entries() returns (entries: set<Key>)
      ensures entries == Advertised(State())
    {
      entries := spokes.Keys;
      var todo := where.Keys;
      while todo != {}
        invariant todo <= where.Keys
        invariant entries == spokes.Keys + (set k | k in where.Keys - todo && where[k] != self)
      {
        var k :| k in todo;
        todo := todo - {k};
        if where[k] != self {
          entries := entries + {k};
        }
      }
    }

    method GossipLocal() returns (g: Gossip, sent: seq<Session>)
      requires Valid()
      modifies this`round, this`gseen, this`where
      ensures (State(), g) == Emit(old(State()))
      ensures round == old(round) + 1 && g.origin == self && g.round == round && gseen == old(gseen)[self := round]
      ensures forall k :: k in g.entries <==> k in spokes || (k in old(where) && old(where)[k] != self)
      ensures Repointed(old(where), where, spokes.Keys, self)
      ensures multiset(sent) == SessionsOf(hubs, hubs.Keys) + SessionsOf(spokes, spokes.Keys)
    {
      hide PointAll, SessionsOf;
      round := round + 1;
      gseen := gseen[self := round];
      Point(spokes.Keys, self);
      var entries := Entries();
      var toHubs := All(hubs);
      var toSpokes := All(spokes);
      sent := toHubs + toSpokes;
      g := Gossip(self, round, entries);
    }

    method OnGossip(g: Gossip, from: Session) returns (sent: seq<Session>)
      requires Valid()
      modifies this`gseen, this`where
      ensures State() == Accept(old(State()), g, FromKey(from)).0
      ensures Stale(old(State()), g) ==> sent == []
      ensures var news := g.origin !in old(gseen) || old(gseen)[g.origin] < g.round;
        && gseen == (if news then old(gseen)[g.origin := g.round] else old(gseen))
        && Repointed(old(where), where, if news then g.entries else {}, g.origin)
      ensures !Stale(old(State()), g) ==>
        multiset(sent) == SessionsOf(spokes, spokes.Keys) + SessionsOf(hubs, Except(hubs.Keys, FromKey(from)))
    {
      hide PointAll, SessionsOf;
      if g.origin in gseen && g.round <= gseen[g.origin] {
        return [];
      }
      gseen := gseen[g.origin := g.round];
      Point(g.entries, g.origin);
      var toSpokes := All(spokes);
      var toHubs := AllBut(hubs, from);
      ButFrom(from);
      sent := toSpokes + toHubs;
    }

    method OnPresence(keys: set<Key>, from: Session) returns (g: Gossip, sent: seq<Session>)
      requires Valid()
      modifies this`round, this`gseen, this`where
      ensures (State(), g) == Emit(Announce(old(State()), keys, if from.role == RoleSpoke then None else Some(from.ed)))
      ensures forall k :: k in keys ==> k in where && where[k] == if k in spokes || from.role == RoleSpoke then self else from.ed
      ensures forall k :: k !in keys && k !in spokes ==> (k in where <==> k in old(where)) && (k in where ==> where[k] == old(where)[k])
      ensures forall k :: k in g.entries <==> k in spokes || (k in where && where[k] != self)
      ensures multiset(sent) == SessionsOf(hubs, hubs.Keys) + SessionsOf(spokes, spokes.Keys)
    {
      hide PointAll, SessionsOf;
      Point(keys, if from.role == RoleSpoke then self else from.ed);
      g, sent := GossipLocal();
    }

    /** A session that has said hello is entered in its table, and a round of gossip follows. A
        session of the same key that was there before is replaced. */
    method Connect(sess: Session, peerHello: bool) returns (g: Gossip, sent: seq<Session>)
      requires Valid()
      modifies this`spokes, this`hubs, this`round, this`gseen, this`where
      ensures Valid()
      ensures var asHub := sess.role == RoleHub || peerHello;
              && (State(), g) == Emit(Register(old(State()), sess.ed, asHub))
              && spokes == (if asHub then old(spokes) else old(spokes)[sess.ed := sess])
              && hubs == (if asHub then old(hubs)[sess.ed := sess] else old(hubs))
              && Repointed(old(where), where, spokes.Keys, self)
      ensures multiset(sent) == SessionsOf(hubs, hubs.Keys) + SessionsOf(spokes, spokes.Keys)
    {
      if sess.role == RoleHub || peerHello {
        hubs := hubs[sess.ed := sess];
      } else {
        spokes := spokes[sess.ed := sess];
        where := where[sess.ed := self];
      }
      assert State() == Register(old(State()), sess.ed, sess.role == RoleHub || peerHello);
      g, sent := GossipLocal();
    }

    /** The end of a connection takes its key out of the table of its role, even if a newer session
        is entered there, and a round of gossip follows. */
    method Disconnect(key: Key, role: Role) returns (g: Gossip, sent: seq<Session>)
      requires Valid()
      modifies this`spokes, this`hubs, this`round, this`gseen, this`where
      ensures Valid()
      ensures (State(), g) == Emit(HubState.Drop(old(State()), key, role == RoleHub))
      ensures spokes == (if role == RoleHub then old(spokes) else old(spokes) - {key})
      ensures hubs == (if role == RoleHub then old(hubs) - {key} else old(hubs))
      ensures Repointed(old(where), where, spokes.Keys, self)
      ensures forall k :: k in g.entries <==> k in spokes || (k in old(where) && old(where)[k] != self)
      ensures multiset(sent) == SessionsOf(hubs, hubs.Keys) + SessionsOf(spokes, spokes.Keys)
    {
      hide PointAll, SessionsOf;
      if role == RoleHub {
        hubs := hubs - {key};
      } else {
        spokes := spokes - {key};
      }
      assert State() == HubState.Drop(old(State()), key, role == RoleHub);
      g, sent := GossipLocal();
    }
  }
}
