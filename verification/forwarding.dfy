/** `AbstractPluginMessagingForwardingSource`: fan-out of a new vote to the
    backend servers, caching of failed deliveries, and replay of cached votes
    when a server connects or a player switches server. The cache is
    `None` when the source was built without one (`cache == null`). */
module Forwarding {
  import opened Wrappers
  import opened Votes
  import opened StableSort
  import opened VoteCache
  import opened Sending
  import opened Drain

  /** The source's configuration: the server filter and the dump rate. */
  datatype Source = Source(filter: string -> bool, dumpRate: int)

  /** How a replay ended: the callback ran (`Done`); the drain was still
      rescheduling itself when the fuel ran out (`InFlight`); or sorting the
      player's votes threw a NumberFormatException (`Threw`). */
  datatype Status = Done | InFlight | Threw

  /** The cache after a replay, and the attempts the replay made. */
  datatype Replay = Replay(cache: Option<Cache>, attempts: seq<Attempt>, status: Status)

  /** The servers `forward` sends to: those the filter allows, in order. */
  function Allowed(servers: seq<string>, filter: string -> bool): seq<string>
    decreases |servers|
  {
    if |servers| == 0 then []
    else
      var last := servers[|servers| - 1];
      Allowed(servers[..|servers| - 1], filter) + (if filter(last) then [last] else [])
  }

  /** A server is among those `forward` sends to exactly when it is one of
      the backend servers and the filter allows it. */
  lemma {:induction false} AllowedSound(servers: seq<string>, filter: string -> bool, name: string)
    ensures name in Allowed(servers, filter) <==> name in servers && filter(name)
    decreases |servers|
  {
    if |servers| > 0 {
      var init := servers[..|servers| - 1];
      AllowedSound(init, filter, name);
      assert servers == init + [servers[|servers| - 1]];
    }
  }

  /** The servers `forward` caches the vote for: allowed, and the send of
      `data` to them returned false. */
  function Refused(servers: seq<string>, filter: string -> bool, send: (string, string) -> bool, data: string): seq<string>
    decreases |servers|
  {
    if |servers| == 0 then []
    else
      var last := servers[|servers| - 1];
      Refused(servers[..|servers| - 1], filter, send, data)
        + (if filter(last) && !send(last, data) then [last] else [])
  }

  function Copies(v: Vote, n: nat): seq<Vote>
    decreases n
  {
    if n == 0 then [] else Copies(v, n - 1) + [v]
  }

  /** `attemptToAddToCache`: append to the server's queue, or drop the vote
      when there is no cache. */
  function AttemptToAddToCache(cache: Option<Cache>, v: Vote, server: string): (r: Option<Cache>)
    ensures r.None? <==> cache.None?
    ensures cache.Some? ==> Queue(r.value.byServer, server) == Queue(cache.value.byServer, server) + [v]
    ensures cache.Some? ==> forall other :: other != server ==> Queue(r.value.byServer, other) == Queue(cache.value.byServer, other)
    ensures cache.Some? ==> r.value.byPlayer == cache.value.byPlayer
  {
    match cache
    case None => None
    case Some(c) => Some(AddToCache(c, v, server))
  }

  /** `attemptToAddToPlayerCache`: append to the player's queue, or drop the
      vote when there is no cache. */
  function AttemptToAddToPlayerCache(cache: Option<Cache>, v: Vote, player: string): (r: Option<Cache>)
    ensures r.None? <==> cache.None?
    ensures cache.Some? ==> Queue(r.value.byPlayer, player) == Queue(cache.value.byPlayer, player) + [v]
    ensures cache.Some? ==> forall other :: other != player ==> Queue(r.value.byPlayer, other) == Queue(cache.value.byPlayer, other)
    ensures cache.Some? ==> r.value.byServer == cache.value.byServer
  {
    match cache
    case None => None
    case Some(c) => Some(AddToCachePlayer(c, v, player))
  }

  /** Each server queue is its old queue followed by one copy of `v` per
      occurrence of its name in `refused`; the player queues are unchanged. */
  ghost predicate CachedFor(cache: Option<Cache>, cache': Option<Cache>, v: Vote, refused: seq<string>) {
    && (cache'.None? <==> cache.None?)
    && (cache.Some? ==>
          && cache'.value.byPlayer == cache.value.byPlayer
          && forall name :: Queue(cache'.value.byServer, name)
               == Queue(cache.value.byServer, name) + Copies(v, multiset(refused)[name]))
  }

  lemma CachedForStep(cache: Option<Cache>, cache': Option<Cache>, v: Vote, refused: seq<string>, server: string)
    requires CachedFor(cache, cache', v, refused)
    ensures CachedFor(cache, AttemptToAddToCache(cache', v, server), v, refused + [server])
  {
    if cache.Some? {
      var next := AttemptToAddToCache(cache', v, server);
      forall name
        ensures Queue(next.value.byServer, name)
          == Queue(cache.value.byServer, name) + Copies(v, multiset(refused + [server])[name])
      {
        if name == server {
          assert multiset(refused + [server])[name] == multiset(refused)[name] + 1;
        } else {
          assert multiset(refused + [server])[name] == multiset(refused)[name];
        }
      }
    }
  }

  lemma AllowedStep(servers: seq<string>, i: nat, filter: string -> bool)
    requires i < |servers|
    ensures Allowed(servers[..i + 1], filter)
      == Allowed(servers[..i], filter) + (if filter(servers[i]) then [servers[i]] else [])
  {
    assert servers[..i + 1][..i] == servers[..i];
  }

  lemma RefusedStep(servers: seq<string>, i: nat, filter: string -> bool, send: (string, string) -> bool, data: string)
    requires i < |servers|
    ensures Refused(servers[..i + 1], filter, send, data)
      == Refused(servers[..i], filter, send, data)
           + (if filter(servers[i]) && !send(servers[i], data) then [servers[i]] else [])
  {
    assert servers[..i + 1][..i] == servers[..i];
  }

  /** `sends` are the sends of `data` to `names`, one each, in order. */
  predicate SentTo(sends: seq<Send>, names: seq<string>, data: string) {
    |sends| == |names| && forall j :: 0 <= j < |sends| ==> sends[j] == Send(names[j], data)
  }

  lemma SentToStep(sends: seq<Send>, names: seq<string>, data: string, server: string)
    requires SentTo(sends, names, data)
    ensures SentTo(sends + [Send(server, data)], names + [server], data)
  {
  }

  /** `forward(v)`: the vote is serialised once; the same payload goes, in
      server order, to every server the filter allows and to no other; each
      server queue gains one copy of the vote per refused send to it, and
      nothing else in the cache changes. */
  method Forward(src: Source, host: Host, cache: Option<Cache>, v: Vote) returns (sends: seq<Send>, cache': Option<Cache>)
    ensures |sends| == |Allowed(host.servers, src.filter)|
    ensures forall i :: 0 <= i < |sends| ==> sends[i] == Send(Allowed(host.servers, src.filter)[i], host.serialize(v))
    ensures cache'.None? <==> cache.None?
    ensures cache.Some? ==>
      forall name ::
        Queue(cache'.value.byServer, name) == Queue(cache.value.byServer, name)
          + Copies(v, multiset(Refused(host.servers, src.filter, host.send, host.serialize(v)))[name])
    ensures cache.Some? ==> cache'.value.byPlayer == cache.value.byPlayer
  {
    var data := host.serialize(v);
    var servers := host.servers;
    sends := [];
    cache' := cache;
    var i := 0;
    while i < |servers|
      invariant 0 <= i <= |servers|
      invariant SentTo(sends, Allowed(servers[..i], src.filter), data)
      invariant CachedFor(cache, cache', v, Refused(servers[..i], src.filter, host.send, data))
    {
      var server := servers[i];
      AllowedStep(servers, i, src.filter);
      RefusedStep(servers, i, src.filter, host.send, data);
      ghost var allowed := Allowed(servers[..i], src.filter);
      ghost var refused := Refused(servers[..i], src.filter, host.send, data);
      if src.filter(server) {
        var ok := host.send(server, data);
        SentToStep(sends, allowed, data, server);
        sends := sends + [Send(server, data)];
        if !ok {
          CachedForStep(cache, cache', v, refused, server);
          cache' := AttemptToAddToCache(cache', v, server);
        } else {
          assert refused + [] == refused;
        }
      } else {
        assert allowed + [] == allowed;
        assert refused + [] == refused;
      }
      i := i + 1;
    }
    assert servers[..i] == servers;
  }

  /** With distinct server names, `forward` leaves the vote exactly once in
      the queue of each server that is allowed and refused the payload, and
      in no other queue. */
  lemma {:induction false} RefusedOnce(servers: seq<string>, filter: string -> bool, send: (string, string) -> bool, data: string, name: string)
    requires forall i, j :: 0 <= i < j < |servers| ==> servers[i] != servers[j]
    ensures multiset(Refused(servers, filter, send, data))[name]
      == if name in servers && filter(name) && !send(name, data) then 1 else 0
    decreases |servers|
  {
    if |servers| > 0 {
      var init := servers[..|servers| - 1];
      var last := servers[|servers| - 1];
      RefusedOnce(init, filter, send, data, name);
      assert servers == init + [last];
      if name == last {
        assert name !in init;
      }
    }
  }

  /** Which of the cache's two maps a replay re-caches into. */
  datatype Side = ServerSide | PlayerSide

  function QueuesOf(c: Cache, side: Side): Queues {
    if side == ServerSide then c.byServer else c.byPlayer
  }

  /** Appends `failed` to the queue of `name` on one side of the cache, as
      the replay callbacks do, one `addToCache` or `addToCachePlayer` per
      vote. */
  function Restore(c: Cache, side: Side, name: string, failed: seq<Vote>): (c': Cache)
    ensures Queue(QueuesOf(c', side), name) == Queue(QueuesOf(c, side), name) + failed
    ensures forall other :: other != name ==> Queue(QueuesOf(c', side), other) == Queue(QueuesOf(c, side), other)
    ensures side == ServerSide ==> c'.byPlayer == c.byPlayer
    ensures side == PlayerSide ==> c'.byServer == c.byServer
  {
    if side == ServerSide then c.(byServer := PushAll(c.byServer, name, failed))
    else c.(byPlayer := PushAll(c.byPlayer, name, failed))
  }

  /** Replays evicted votes to `target`, then re-caches whatever the
      callback receives under `name`. */
  function Replayed(src: Source, host: Host, evicted: Cache, side: Side, name: string, target: string,
                    votes: seq<Vote>, fuel: nat): (r: Replay)
    requires Queue(QueuesOf(evicted, side), name) == []
    ensures r.cache.Some? && r.status != Threw
    ensures SentAsBatches(host, target, r.attempts)
    ensures r.status == Done ==> Delivered(r.attempts) + Queue(QueuesOf(r.cache.value, side), name) == votes
    ensures r.status == InFlight ==> Queue(QueuesOf(r.cache.value, side), name) == []
    ensures forall other :: other != name ==>
      Queue(QueuesOf(r.cache.value, side), other) == Queue(QueuesOf(evicted, side), other)
    ensures side == ServerSide ==> r.cache.value.byPlayer == evicted.byPlayer
    ensures side == PlayerSide ==> r.cache.value.byServer == evicted.byServer
  {
    DumpSends(src.dumpRate, host, target, votes, 0, fuel);
    var run := DumpVotesToServer(src.dumpRate, host, target, votes, fuel);
    match run.remainder
    case None => Replay(Some(evicted), run.attempts, InFlight)
    case Some(failed) =>
      assert [] + failed == failed;
      Replay(Some(Restore(evicted, side, name, failed)), run.attempts, Done)
  }

  /** `onServerConnect(server)`: nothing happens without a cache; otherwise
      the server's queue is evicted and replayed to it, in queue order, and
      whatever the callback receives goes back under the same server. No
      vote is lost or duplicated: the delivered votes followed by the
      server's new queue are its old queue. Nothing else in the cache
      changes. */
  function OnServerConnect(src: Source, host: Host, cache: Option<Cache>, server: string, fuel: nat): (r: Replay)
    ensures cache.None? ==> r == Replay(None, [], Done)
    ensures cache.Some? <==> r.cache.Some?
    ensures r.status != Threw
    ensures cache.Some? ==> SentAsBatches(host, server, r.attempts)
    ensures cache.Some? && r.status == Done ==>
      Delivered(r.attempts) + Queue(r.cache.value.byServer, server) == Queue(cache.value.byServer, server)
    ensures cache.Some? && r.status == InFlight ==> Queue(r.cache.value.byServer, server) == []
    ensures cache.Some? ==> forall other :: other != server ==> Queue(r.cache.value.byServer, other) == Queue(cache.value.byServer, other)
    ensures cache.Some? ==> r.cache.value.byPlayer == cache.value.byPlayer
  {
    match cache
    case None => Replay(None, [], Done)
    case Some(c) =>
      var taken := Evict(c, server);
      Replayed(src, host, taken.1, ServerSide, server, server, taken.0, fuel)
  }

  /** The votes of a player's queue in replay order: ascending by parsed
      timestamp, equal timestamps in queue order. */
  function ReplayOrder(votes: seq<Vote>): (r: seq<Vote>)
    ensures SortedBy(r, Timestamp)
    ensures multiset(r) == multiset(votes)
    ensures |r| == |votes|
  {
    SortBy(votes, Timestamp)
  }

  /** `Long.parseLong` is only reached through the comparator, and a list of
      fewer than two elements is never compared. */
  function SortThrows(votes: seq<Vote>): (throws: bool)
    ensures |votes| < 2 ==> !throws
    ensures throws <==> |votes| >= 2 && exists i :: 0 <= i < |votes| && ParseLong(votes[i].timeStamp).None?
  {
    |votes| >= 2 && !AllNumericTimestamps(votes)
  }

  /** The insertion step of a sort driven by the comparator
      `comparingLong(v -> Long.parseLong(v.getTimeStamp()))`: each
      comparison parses both keys, and `None` is the NumberFormatException
      it throws. */
  function ComparatorInsert(x: Vote, s: seq<Vote>): Option<seq<Vote>>
    decreases |s|
  {
    if |s| == 0 then Some([x])
    else
      match (ParseLong(x.timeStamp), ParseLong(s[0].timeStamp))
      case (Some(kx), Some(k0)) =>
        if kx <= k0 then Some([x] + s)
        else
          (match ComparatorInsert(x, s[1..])
           case None => None
           case Some(t) => Some([s[0]] + t))
      case _ => None
  }

  /** The list sort run with that comparator, one element at a time. */
  function ComparatorSort(s: seq<Vote>): Option<seq<Vote>>
    decreases |s|
  {
    if |s| == 0 then Some([])
    else
      match ComparatorSort(s[1..])
      case None => None
      case Some(t) => ComparatorInsert(s[0], t)
  }

  /** On parsable keys the comparator's insertion is `Insert` by `Timestamp`. */
  lemma {:induction false} ComparatorInsertAgrees(x: Vote, t: seq<Vote>)
    requires SortedBy(t, Timestamp)
    requires |t| == 0 || (NumericTimestamp(x) && AllNumericTimestamps(t))
    ensures ComparatorInsert(x, t) == Some(Insert(x, t, Timestamp))
    decreases |t|
  {
    if |t| > 0 {
      if Timestamp(x) <= Timestamp(t[0]) {
        InsertBefore(x, t, Timestamp);
      } else {
        InsertAfter(x, t, Timestamp);
        assert SortedBy(t[1..], Timestamp);
        ComparatorInsertAgrees(x, t[1..]);
      }
    } else {
      InsertBefore(x, t, Timestamp);
      assert [x] + [] == [x];
    }
  }

  lemma ComparatorInsertThrows(x: Vote, t: seq<Vote>)
    requires |t| > 0 && (!NumericTimestamp(x) || !NumericTimestamp(t[0]))
    ensures ComparatorInsert(x, t).None?
  {
  }

  lemma NumericPermutation(a: seq<Vote>, b: seq<Vote>)
    requires multiset(a) == multiset(b) && AllNumericTimestamps(a)
    ensures AllNumericTimestamps(b)
  {
    forall i | 0 <= i < |b|
      ensures NumericTimestamp(b[i])
    {
      assert b[i] in multiset(a);
    }
  }

  /** The comparator-driven sort throws exactly when `SortThrows` says so:
      with two or more votes, one of which has an unparsable timestamp. */
  lemma {:induction false} ComparatorSortThrows(s: seq<Vote>)
    ensures ComparatorSort(s).None? <==> SortThrows(s)
  {
    ComparatorSortMatches(s);
  }

  /** When the comparator-driven sort does not throw, it produces the replay
      order. */
  lemma {:induction false} ComparatorSortOrder(s: seq<Vote>)
    ensures ComparatorSort(s).Some? ==> ComparatorSort(s).value == ReplayOrder(s)
  {
    ComparatorSortMatches(s);
  }

  /** Both facts at once, by induction on the votes. */
  lemma {:induction false} ComparatorSortMatches(s: seq<Vote>)
    ensures ComparatorSort(s).None? <==> SortThrows(s)
    ensures ComparatorSort(s).Some? ==> ComparatorSort(s).value == ReplayOrder(s)
    decreases |s|
  {
    if |s| == 1 {
      SortedSingle(s);
    } else if |s| > 1 {
      ComparatorSortMatches(s[1..]);
      if ComparatorSort(s[1..]).None? {
        ThrowsInTail(s);
      } else if AllNumericTimestamps(s) {
        SortedStep(s);
      } else {
        ThrowsAtHead(s, ComparatorSort(s[1..]).value);
      }
    }
  }

  lemma SortedSingle(s: seq<Vote>)
    requires |s| == 1
    ensures ComparatorSort(s) == Some(s) && !SortThrows(s) && ReplayOrder(s) == s
  {
    assert s == [s[0]];
    assert ComparatorSort(s[1..]) == Some([]);
    SortOne(s[0], Timestamp);
  }

  lemma ThrowsInTail(s: seq<Vote>)
    requires |s| > 1 && SortThrows(s[1..]) && ComparatorSort(s[1..]).None?
    ensures ComparatorSort(s).None? && SortThrows(s)
  {
    var j :| 0 <= j < |s[1..]| && !NumericTimestamp(s[1..][j]);
    assert s[j + 1] == s[1..][j];
  }

  lemma SortedStep(s: seq<Vote>)
    requires |s| > 1 && AllNumericTimestamps(s)
    ensures ComparatorSort(s[1..]) == Some(ReplayOrder(s[1..])) ==>
      ComparatorSort(s) == Some(ReplayOrder(s)) && !SortThrows(s)
  {
    var t := ReplayOrder(s[1..]);
    if ComparatorSort(s[1..]) == Some(t) {
      assert AllNumericTimestamps(s[1..]) by {
        forall i | 0 <= i < |s[1..]|
          ensures NumericTimestamp(s[1..][i])
        {
          assert s[1..][i] == s[i + 1];
        }
      }
      NumericPermutation(s[1..], t);
      ComparatorInsertAgrees(s[0], t);
      SortByCons(s, Timestamp);
    }
  }

  lemma ThrowsAtHead(s: seq<Vote>, t: seq<Vote>)
    requires |s| > 1 && !AllNumericTimestamps(s) && !SortThrows(s[1..])
    requires ComparatorSort(s[1..]) == Some(t) && t == ReplayOrder(s[1..])
    ensures ComparatorSort(s).None? && SortThrows(s)
  {
    var j :| 0 <= j < |s| && !NumericTimestamp(s[j]);
    if j == 0 {
      ComparatorInsertThrows(s[0], t);
    } else {
      // the tail was never compared, so it is the one unparsable vote
      assert s[1..][j - 1] == s[j];
      assert |s[1..]| == 1;
      SortOne(s[1], Timestamp);
      assert s[1..] == [s[1]];
      ComparatorInsertThrows(s[0], t);
    }
  }

  /** `handlePlayerSwitch(server, player)`: nothing happens without a cache
      or when the filter refuses the server — the player's votes stay
      cached. Otherwise the player's queue is evicted, sorted by timestamp
      and replayed to the server, and whatever the callback receives goes
      back under the same player. A timestamp that does not parse makes the
      sort throw after the eviction, and the evicted votes are lost. */
  function HandlePlayerSwitch(src: Source, host: Host, cache: Option<Cache>, server: string, player: string, fuel: nat): (r: Replay)
    ensures cache.None? ==> r == Replay(None, [], Done)
    ensures cache.Some? && !src.filter(server) ==> r == Replay(cache, [], Done)
    ensures cache.Some? <==> r.cache.Some?
    ensures r.status == Threw <==>
      cache.Some? && src.filter(server) && SortThrows(Queue(cache.value.byPlayer, player))
    ensures r.status == Threw ==> r.attempts == [] && Queue(r.cache.value.byPlayer, player) == []
    ensures cache.Some? && src.filter(server) && r.status == InFlight ==> Queue(r.cache.value.byPlayer, player) == []
    ensures cache.Some? ==> SentAsBatches(host, server, r.attempts)
    ensures cache.Some? && src.filter(server) && r.status == Done ==>
      Delivered(r.attempts) + Queue(r.cache.value.byPlayer, player) == ReplayOrder(Queue(cache.value.byPlayer, player))
    ensures cache.Some? ==> forall other :: other != player ==> Queue(r.cache.value.byPlayer, other) == Queue(cache.value.byPlayer, other)
    ensures cache.Some? ==> r.cache.value.byServer == cache.value.byServer
  {
    match cache
    case None => Replay(None, [], Done)
    case Some(c) =>
      if !src.filter(server) then Replay(cache, [], Done)
      else
        var taken := EvictPlayer(c, player);
        if SortThrows(taken.0) then Replay(Some(taken.1), [], Threw)
        else Replayed(src, host, taken.1, PlayerSide, player, server, ReplayOrder(taken.0), fuel)
  }

  /** With `dumpRate >= 1`, a replay of a non-empty collection is one
      attempt carrying all of it, three seconds after it was started. */
  lemma ReplayedOneShot(src: Source, host: Host, evicted: Cache, side: Side, name: string, target: string,
                        votes: seq<Vote>, fuel: nat)
    requires src.dumpRate >= 1 && fuel >= 1 && |votes| > 0
    requires Queue(QueuesOf(evicted, side), name) == []
    ensures var ok := SendBatch(host, target, votes);
      var r := Replayed(src, host, evicted, side, name, target, votes, fuel);
      && r.attempts == [Attempt(3, votes, ok)]
      && r.status == Done
      && Queue(QueuesOf(r.cache.value, side), name) == (if ok then [] else votes)
  {
    var ok := SendBatch(host, target, votes);
    DumpOneShot(src.dumpRate, host, target, votes, 0, fuel);
    var run := DumpVotesToServer(src.dumpRate, host, target, votes, fuel);
    assert run == DrainRun([Attempt(3, votes, ok)], Some(if ok then [] else votes));
    var failed := if ok then [] else votes;
    assert [] + failed == failed;
  }

  /** With `dumpRate >= 1`, a connecting server gets its whole queue as one
      message three seconds later; if that send fails the queue is back
      exactly as it was, otherwise it is empty. */
  lemma ServerConnectOneShot(src: Source, host: Host, c: Cache, server: string, fuel: nat)
    requires src.dumpRate >= 1 && fuel >= 1 && |Queue(c.byServer, server)| > 0
    ensures var q := Queue(c.byServer, server);
      var ok := SendBatch(host, server, q);
      var r := OnServerConnect(src, host, Some(c), server, fuel);
      && r.attempts == [Attempt(3, q, ok)]
      && r.status == Done
      && Queue(r.cache.value.byServer, server) == (if ok then [] else q)
  {
    var q := Queue(c.byServer, server);
    var taken := Evict(c, server);
    assert taken.0 == q;
    ReplayedOneShot(src, host, taken.1, ServerSide, server, server, q, fuel);
  }

  /** With `dumpRate >= 1`, a player switching to an allowed server has all
      of their cached votes sent as one message in timestamp order; if that
      send fails they are cached again under the player in that order. */
  lemma PlayerSwitchOneShot(src: Source, host: Host, c: Cache, server: string, player: string, fuel: nat)
    requires src.dumpRate >= 1 && fuel >= 1 && src.filter(server)
    requires |Queue(c.byPlayer, player)| > 0 && !SortThrows(Queue(c.byPlayer, player))
    ensures var sorted := ReplayOrder(Queue(c.byPlayer, player));
      var ok := SendBatch(host, server, sorted);
      var r := HandlePlayerSwitch(src, host, Some(c), server, player, fuel);
      && r.attempts == [Attempt(3, sorted, ok)]
      && r.status == Done
      && Queue(r.cache.value.byPlayer, player) == (if ok then [] else sorted)
  {
    var q := Queue(c.byPlayer, player);
    var sorted := ReplayOrder(q);
    var taken := EvictPlayer(c, player);
    assert taken.0 == q;
    ReplayedOneShot(src, host, taken.1, PlayerSide, player, server, sorted, fuel);
  }

  /** The replay order is the one any stable sort by timestamp produces:
      sorted, and votes with equal timestamps keep their queue order. */
  lemma ReplayOrderIsStableSort(votes: seq<Vote>, other: seq<Vote>)
    requires SortedBy(other, Timestamp)
    requires forall k :: WithKey(other, Timestamp, k) == WithKey(votes, Timestamp, k)
    ensures ReplayOrder(votes) == other
  {
    forall k
      ensures WithKey(ReplayOrder(votes), Timestamp, k) == WithKey(other, Timestamp, k)
    {
      SortByStable(votes, Timestamp, k);
    }
    StableSortUnique(ReplayOrder(votes), other, Timestamp);
  }

  lemma TimestampOfDigits(v: Vote, n: nat)
    requires v.timeStamp == Decimal(n) && n <= MaxLong
    ensures Timestamp(v) == n
  {
    ParseFormatLong(n);
  }

  /** Votes cached with timestamps "30", "10" and "20", in that order, are
      replayed in the order 10, 20, 30. */
  lemma ReplayOrderExample(a: Vote, b: Vote, c: Vote)
    requires a.timeStamp == "30" && b.timeStamp == "10" && c.timeStamp == "20"
    ensures ReplayOrder([a, b, c]) == [b, c, a]
  {
    assert Decimal(30) == "30" && Decimal(10) == "10" && Decimal(20) == "20";
    TimestampOfDigits(a, 30);
    TimestampOfDigits(b, 10);
    TimestampOfDigits(c, 20);
    SortThree(a, b, c, Timestamp);
  }
}
