/** The vote cache, seen through the four operations the forwarding source
    calls on it: `addToCache`, `addToCachePlayer`, `evict` and `evictPlayer`.
    It holds one queue of pending votes per backend-server name and one per
    player name. New votes join the back of a queue; evicting a name hands
    over its whole queue and forgets the name. */
module VoteCache {
  import opened Votes

  type Queues = map<string, seq<Vote>>

  datatype Cache = Cache(byServer: Queues, byPlayer: Queues)

  /** The queue held under `name`; a name never cached has an empty queue. */
  function Queue(m: Queues, name: string): seq<Vote> {
    if name in m then m[name] else []
  }

  /** Appends `v` to the queue of `name`. */
  function Push(m: Queues, name: string, v: Vote): (m': Queues)
    ensures Queue(m', name) == Queue(m, name) + [v]
    ensures forall other :: other != name ==> Queue(m', other) == Queue(m, other)
  {
    m[name := Queue(m, name) + [v]]
  }

  /** Appends `votes` one at a time, in order, to the queue of `name`. */
  function PushAll(m: Queues, name: string, votes: seq<Vote>): (m': Queues)
    ensures Queue(m', name) == Queue(m, name) + votes
    ensures forall other :: other != name ==> Queue(m', other) == Queue(m, other)
    decreases |votes|
  {
    if |votes| == 0 then m
    else
      var m1 := Push(m, name, votes[0]);
      var m2 := PushAll(m1, name, votes[1..]);
      assert Queue(m, name) + votes == Queue(m, name) + [votes[0]] + votes[1..];
      m2
  }

  /** Removes the queue of `name`, returning it. */
  function Take(m: Queues, name: string): (r: (seq<Vote>, Queues))
    ensures r.0 == Queue(m, name)
    ensures Queue(r.1, name) == []
    ensures forall other :: other != name ==> Queue(r.1, other) == Queue(m, other)
  {
    (Queue(m, name), m - {name})
  }

  function AddToCache(c: Cache, v: Vote, server: string): (c': Cache)
    ensures c'.byPlayer == c.byPlayer
  {
    c.(byServer := Push(c.byServer, server, v))
  }

  function AddToCachePlayer(c: Cache, v: Vote, player: string): (c': Cache)
    ensures c'.byServer == c.byServer
  {
    c.(byPlayer := Push(c.byPlayer, player, v))
  }

  function Evict(c: Cache, server: string): (r: (seq<Vote>, Cache))
    ensures r.1.byPlayer == c.byPlayer
  {
    var (q, rest) := Take(c.byServer, server);
    (q, c.(byServer := rest))
  }

  function EvictPlayer(c: Cache, player: string): (r: (seq<Vote>, Cache))
    ensures r.1.byServer == c.byServer
  {
    var (q, rest) := Take(c.byPlayer, player);
    (q, c.(byPlayer := rest))
  }
}
