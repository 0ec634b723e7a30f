/** What one hub does with one message, as functions of the routing tables of that hub
    (hub/server.go). A session is named by the key it is registered under; `from` is the
    key of the peer whose registered session delivered the message, or None when the
    message came in on any other session: a spoke, or a connection that a later one of the
    same peer has replaced in the table. */
module HubState {
  import opened Wrappers
  import opened Octets
  import opened Envelopes

  type Key = seq<Octet>
  type Id = GoString

  datatype Hub = Hub(
    self: Key,
    spokes: set<Key>,       // keys of the connected spokes
    peers: set<Key>,        // keys of the connected hubs
    where: map<Key, Key>,   // routing hints: spoke key to hub key
    gseen: map<Key, nat>,   // newest gossip sequence number accepted from each origin
    round: nat,             // sequence number of the last gossip of this hub
    seen: set<Id>)          // envelope IDs handled so far

  datatype Gossip = Gossip(origin: Key, round: nat, entries: set<Key>)

  datatype Outcome = Dropped | ToSpoke(spoke: Key) | ToHubs(hubs: set<Key>)

  /** The connected hub that the routing hint for `to` names, if there is one. */
  function Hop(h: Hub, to: Key): Option<Key> {
    if to in h.where && h.where[to] in h.peers then Some(h.where[to]) else None
  }

  function Except(peers: set<Key>, from: Option<Key>): set<Key> {
    match from
    case None => peers
    case Some(k) => peers - {k}
  }

  /** Where `forward` sends an envelope for `to` that it has not seen before. */
  function Route(h: Hub, to: Key, from: Option<Key>): Outcome {
    if to in h.spokes then ToSpoke(to)
    else if Hop(h, to).Some? && Hop(h, to) != from then ToHubs({Hop(h, to).value})
    else ToHubs(Except(h.peers, from))
  }

  function Forward(h: Hub, env: Envelope, valid: bool, from: Option<Key>): (Hub, Outcome) {
    if !valid || env.id in h.seen then (h, Dropped)
    else (h.(seen := h.seen + {env.id}), Route(h, env.to, from))
  }

  function PointAll(where: map<Key, Key>, keys: set<Key>, hub: Key): map<Key, Key> {
    where + (map k | k in keys :: hub)
  }

  /** Local spokes, and every spoke that the hints place on another hub. */
  function Advertised(h: Hub): set<Key> {
    h.spokes + (set k | k in h.where && h.where[k] != h.self)
  }

  /** `gossipLocal`: number a new round, refresh the hints of local spokes, advertise. */
  function Emit(h: Hub): (Hub, Gossip) {
    var n := h.round + 1;
    var h1 := h.(round := n, gseen := h.gseen[h.self := n], where := PointAll(h.where, h.spokes, h.self));
    (h1, Gossip(h.self, n, Advertised(h1)))
  }

  predicate Stale(h: Hub, g: Gossip) {
    g.origin in h.gseen && g.round <= h.gseen[g.origin]
  }

  /** The gossip branch of `onMsg`: a newer round of its origin updates the hints and is
      passed on to the returned peers. */
  function Accept(h: Hub, g: Gossip, from: Option<Key>): (Hub, set<Key>) {
    if Stale(h, g) then (h, {})
    else (h.(gseen := h.gseen[g.origin := g.round], where := PointAll(h.where, g.entries, g.origin)),
          Except(h.peers, from))
  }

  /** The presence branch of `onMsg`, before the gossip it triggers: keys announced on a
      spoke session live here, keys announced on a hub session live at that hub. */
  function Announce(h: Hub, keys: set<Key>, viaHub: Option<Key>): Hub {
    h.(where := PointAll(h.where, keys, if viaHub.Some? then viaHub.value else h.self))
  }

  /** What `handleConn` and `handlePeerSession` enter for a new session. */
  function Register(h: Hub, key: Key, asHub: bool): Hub {
    if asHub then h.(peers := h.peers + {key})
    else h.(spokes := h.spokes + {key}, where := h.where[key := h.self])
  }

  /** What `drop` takes out: the entry of the key, whichever session is in it. */
  function Drop(h: Hub, key: Key, asHub: bool): Hub {
    if asHub then h.(peers := h.peers - {key}) else h.(spokes := h.spokes - {key})
  }

  // ----- The end of a session -----

  /** A spoke is entered with its hint, a hub without one, and taking a new key out again leaves the tables of
      sessions as they were, and the other hints. */
  lemma DropUndoesRegister(h: Hub, key: Key, asHub: bool)
    requires key !in if asHub then h.peers else h.spokes
    ensures var h1 := Drop(Register(h, key, asHub), key, asHub);
      && h1.peers == h.peers && h1.spokes == h.spokes
      && h1 == h.(where := h1.where) && h1.where - {key} == h.where - {key}
    ensures Register(h, key, asHub).where == if asHub then h.where else h.where[key := h.self]
  {
    assert (h.where[key := h.self] - {key}) == h.where - {key};
  }

  /** The round that follows the end of a spoke's session mentions the spoke only if it is known to be
      behind another hub. */
  lemma RoundAfterDrop(h: Hub, key: Key)
    ensures var g := Emit(Drop(h, key, false)).1;
      key in g.entries <==> key in h.where && h.where[key] != h.self
  {
  }

  /** After a connection and its end, the round does not mention the spoke, and while it lasts the
      round does. */
  lemma RoundsOfSession(h: Hub, key: Key)
    ensures key in Emit(Register(h, key, false)).1.entries
    ensures key !in Emit(Drop(Emit(Register(h, key, false)).0, key, false)).1.entries
  {
    hide Drop, PointAll, Advertised;
    var with := Emit(Register(h, key, false)).0;
    RoundAfterDrop(with, key);
    EmitPoints(Register(h, key, false), key);
  }

  lemma EmitPoints(h: Hub, key: Key)
    requires key in h.spokes
    ensures var (h1, g) := Emit(h);
      key in g.entries && key in h1.where && h1.where[key] == h.self && h1.self == h.self
  {
  }
}
