# NuVotifier forwarding source, modelled in Dafny

This project models the forwarding and replay logic of NuVotifier's proxy-side
`AbstractPluginMessagingForwardingSource`. A vote received by the proxy goes
to every backend server that the server filter allows. A vote whose send
fails is kept in a vote cache under that server's name. The cached votes are
replayed later, when a server connects (`onServerConnect`) or when a player
switches to a server (`handlePlayerSwitch`). Replay goes through a drain
loop (`dumpVotesToServer`) that runs on a scheduler.

Modules, leaf first:

- `Wrappers` holds `Option`, which stands for a nullable cache and a failed parse.
- `Votes` holds the `Vote` record and `Long.parseLong` on timestamps (`ParseLong`). It also has a decimal writer (`FormatLong`) and a proof that parsing reads every `long` back.
- `StableSort` holds an insertion sort by an integer key. It proves the sort is sorted, a permutation and stable. It also proves that a stable sort has only one possible result, so the insertion sort gives the same order as Java's `List.sort`.
- `VoteCache` treats the cache as two maps from a name to a queue of votes: one map for servers, one for players. It models `addToCache`, `addToCachePlayer`, `evict` and `evictPlayer`.
- `Sending` holds the host's collaborators as one `Host` value: the backend server list, the send oracle and the vote serialiser. It also holds the `forwardSpecific` overloads for one vote and for a collection. The byte-array overload is the send oracle itself.
- `Drain` models `dumpVotesToServer` as a recursive function over scheduled attempts. Each attempt records its delay, its chunk and whether the send succeeded.
- `Forwarding` models `forward`, `attemptToAddToCache`, `attemptToAddToPlayerCache`, `onServerConnect` and `handlePlayerSwitch`.

Collaborators whose source is not part of this model are parameters:

- `sendPluginMessage` is an oracle `send(server, payload)`. The fixed channel is folded into the oracle. The byte-array `forwardSpecific` overload (AbstractPluginMessagingForwardingSource.java:66-68) only passes its call on, so it is this oracle.
- `getAllBackendServers` is a sequence of names.
- `Vote.serialize().toString()` is a function from `Vote` to `string`.
- The scheduler is a synchronous step that records the delay it was asked for. A `fuel` count bounds how many scheduled attempts are run.

The model follows the code as written:

- **The chunk has no size bound.** The chunk-filling loop tests `evicted < dumpRate` but never increments `evicted`. So with `dumpRate >= 1`, one attempt sends the whole queue as a single message. A successful send then calls back with an empty remainder, and nothing is rescheduled (`DumpOneShot`). The loop condition `evicted < dumpRate` suggests a chunk was meant to hold at most `dumpRate` votes. As written it never bounds the chunk, and the model follows the code.
- **`dumpRate <= 0` can loop for ever.** With `dumpRate <= 0` every chunk is empty. As long as the backend keeps accepting the empty message, the drain keeps rescheduling itself with a 3-second delay, because the counter stays at 0, and it does not call back (`DumpDiverges`).
- **A failed chunk is appended.** The failed chunk is appended with `addAll` rather than put back in front. Either the chunk or the rest is empty, so the order is the same.
- **An unparsable timestamp loses votes.** `handlePlayerSwitch` evicts the player's votes before it sorts them. If a timestamp does not parse, the sort throws and the evicted votes are lost. The list sort never calls the comparator on a list of fewer than two elements, so the exception needs at least two votes.

## Model

| member | source | states |
|---|---|---|
| Forwarding.Forward | common/src/main/java/com/vexsoftware/votifier/support/forwarding/AbstractPluginMessagingForwardingSource.java:40-50 | Every server the filter allows gets the vote's serialisation as the same payload, in server order. No other server gets anything. Each server queue gains one copy of the vote per refused send to that server. Player queues and other servers' queues are unchanged. With no cache, the vote is dropped. |
| Forwarding.AllowedSound | common/src/main/java/com/vexsoftware/votifier/support/forwarding/AbstractPluginMessagingForwardingSource.java:41-43 | A server receives the vote from `forward` exactly when it is one of the backend servers and the filter allows its name. |
| Forwarding.RefusedOnce | common/src/main/java/com/vexsoftware/votifier/support/forwarding/AbstractPluginMessagingForwardingSource.java:42-45 | With distinct server names, a server's queue gains the vote exactly once if the filter allows it and its send failed. Otherwise the queue gains nothing. |
| Forwarding.AttemptToAddToCache | common/src/main/java/com/vexsoftware/votifier/support/forwarding/AbstractPluginMessagingForwardingSource.java:90-97 | With a cache, the vote is appended to that server's queue and nothing else changes. Without a cache, nothing changes. |
| Forwarding.AttemptToAddToPlayerCache | common/src/main/java/com/vexsoftware/votifier/support/forwarding/AbstractPluginMessagingForwardingSource.java:99-107 | With a cache, the vote is appended to that player's queue and nothing else changes. Without a cache, nothing changes. |
| Sending.SendVote | common/src/main/java/com/vexsoftware/votifier/support/forwarding/AbstractPluginMessagingForwardingSource.java:52-55 | Sending one vote is the same as sending the one-vote collection. |
| Sending.SendBatch | common/src/main/java/com/vexsoftware/votifier/support/forwarding/AbstractPluginMessagingForwardingSource.java:57-63 | An empty collection is sent as the empty message, and a one-vote collection as that vote's serialisation alone. |
| Sending.BatchAppend | common/src/main/java/com/vexsoftware/votifier/support/forwarding/AbstractPluginMessagingForwardingSource.java:58-63 | The payload of a collection is the concatenation of its parts' payloads, in order. |
| Drain.Delay | common/src/main/java/com/vexsoftware/votifier/support/forwarding/AbstractPluginMessagingForwardingSource.java:143 | An attempt waits 3 seconds exactly when the counter of votes delivered so far is 0, and 1 second otherwise. |
| Drain.FillChunk | common/src/main/java/com/vexsoftware/votifier/support/forwarding/AbstractPluginMessagingForwardingSource.java:120-127 | The chunk followed by the rest is the original collection. With `evicted < dumpRate` the whole collection moves into the chunk. Otherwise nothing moves. |
| Drain.Dump | common/src/main/java/com/vexsoftware/votifier/support/forwarding/AbstractPluginMessagingForwardingSource.java:113-144 | At most one attempt per unit of fuel. A drain that has not called back has used all its fuel on a non-empty collection. |
| Drain.DumpStep | common/src/main/java/com/vexsoftware/votifier/support/forwarding/AbstractPluginMessagingForwardingSource.java:119-143 | One attempt on a non-empty collection: the chunk is the whole collection when `dumpRate >= 1` and empty otherwise. A refused send calls back with the collection unchanged. An accepted send with `dumpRate >= 1` calls back with nothing left. An accepted send with `dumpRate <= 0` reschedules on the same collection with the same counter. |
| Drain.DumpConserves | common/src/main/java/com/vexsoftware/votifier/support/forwarding/AbstractPluginMessagingForwardingSource.java:119-143 | When the callback runs, the delivered votes followed by the remainder are exactly the original collection, in order. Only the last attempt can have failed. |
| Drain.DumpSends | common/src/main/java/com/vexsoftware/votifier/support/forwarding/AbstractPluginMessagingForwardingSource.java:129 | Each attempt's outcome is the outcome of sending its chunk to the target as one message. |
| Drain.DumpDelays | common/src/main/java/com/vexsoftware/votifier/support/forwarding/AbstractPluginMessagingForwardingSource.java:130-143 | Each attempt waits 3 s while no vote has been delivered yet and 1 s after that. |
| Drain.DumpVotesToServer | common/src/main/java/com/vexsoftware/votifier/support/forwarding/AbstractPluginMessagingForwardingSource.java:109-111 | The first attempt is scheduled after 3 seconds. Nothing is lost or duplicated when the callback runs. |
| Drain.DumpEmpty | common/src/main/java/com/vexsoftware/votifier/support/forwarding/AbstractPluginMessagingForwardingSource.java:114-117 | An empty collection calls back at once with itself. Nothing is scheduled or sent. |
| Drain.DumpOneShot | common/src/main/java/com/vexsoftware/votifier/support/forwarding/AbstractPluginMessagingForwardingSource.java:119-143 | With `dumpRate >= 1`, the drain makes exactly one attempt, with the whole collection as its chunk. On success it calls back with an empty remainder and does not reschedule. On failure it calls back with the unchanged collection. |
| Drain.DumpDiverges | common/src/main/java/com/vexsoftware/votifier/support/forwarding/AbstractPluginMessagingForwardingSource.java:124-143 | With `dumpRate <= 0`, a non-empty collection and a backend that accepts the empty message, every attempt sends an empty chunk with the same delay. The callback never runs, whatever the number of attempts. |
| Drain.DumpZeroRateRefused | common/src/main/java/com/vexsoftware/votifier/support/forwarding/AbstractPluginMessagingForwardingSource.java:138-141 | With `dumpRate <= 0` and the empty message refused, one attempt is made and the callback gets the collection unchanged. |
| Forwarding.Restore | common/src/main/java/com/vexsoftware/votifier/support/forwarding/AbstractPluginMessagingForwardingSource.java:84-85 | The failed votes are appended to the named queue on one side of the cache, in order. Every other queue on that side and the whole other side are unchanged. |
| Forwarding.Replayed | common/src/main/java/com/vexsoftware/votifier/support/forwarding/AbstractPluginMessagingForwardingSource.java:83-86 | Replaying evicted votes to a target always leaves a cache and never throws. Every attempt is one message to the target. When the callback runs, the delivered votes followed by the re-cached queue are the replayed votes. While the drain is still pending, the queue stays empty. No other queue changes. |
| Forwarding.OnServerConnect | common/src/main/java/com/vexsoftware/votifier/support/forwarding/AbstractPluginMessagingForwardingSource.java:80-87 | Without a cache, nothing happens. With a cache, the server's queue is replayed to that server: every attempt is one message to that server carrying its chunk. The delivered votes followed by the server's new queue are its old queue. All other queues are unchanged. |
| Forwarding.ServerConnectOneShot | common/src/main/java/com/vexsoftware/votifier/support/forwarding/AbstractPluginMessagingForwardingSource.java:81-88 | With `dumpRate >= 1`, the whole queue is sent as one message after 3 s. The queue ends up empty on success, and exactly as before on failure. |
| Forwarding.ReplayOrder | common/src/main/java/com/vexsoftware/votifier/support/forwarding/AbstractPluginMessagingForwardingSource.java:161-162 | The replay order is ascending by parsed timestamp and is a permutation of the player's queue. |
| Forwarding.SortThrows | common/src/main/java/com/vexsoftware/votifier/support/forwarding/AbstractPluginMessagingForwardingSource.java:161-162 | Sorting the player's votes throws exactly when there are at least two votes and one of their timestamps does not parse as a `long`. A single vote never throws. |
| Forwarding.ComparatorSortThrows | common/src/main/java/com/vexsoftware/votifier/support/forwarding/AbstractPluginMessagingForwardingSource.java:161-162 | A sort whose every comparison parses both timestamps with `Long.parseLong` throws exactly when `SortThrows` holds, that is with two or more votes one of which is unparsable. |
| Forwarding.ComparatorSortOrder | common/src/main/java/com/vexsoftware/votifier/support/forwarding/AbstractPluginMessagingForwardingSource.java:161-162 | When that comparator sort does not throw, it returns the replay order: ascending by timestamp, with equal timestamps kept in queue order. |
| Forwarding.HandlePlayerSwitch | common/src/main/java/com/vexsoftware/votifier/support/forwarding/AbstractPluginMessagingForwardingSource.java:155-169 | Without a cache, or when the filter refuses the server, nothing changes. The operation throws exactly when the player has two or more votes and one has an unparsable timestamp; the player's votes are then gone. Otherwise every attempt is one message to the server carrying its chunk, and the delivered votes followed by the player's new queue are the old queue in timestamp order. All other queues are unchanged. While the drain is still pending, the player's queue stays empty. |
| Forwarding.PlayerSwitchOneShot | common/src/main/java/com/vexsoftware/votifier/support/forwarding/AbstractPluginMessagingForwardingSource.java:155-169 | With `dumpRate >= 1` and an allowed server, all of the player's votes are sent as one message, in timestamp order, after 3 s. On failure they are cached again under the player in that order. |
| Forwarding.ReplayOrderIsStableSort | common/src/main/java/com/vexsoftware/votifier/support/forwarding/AbstractPluginMessagingForwardingSource.java:162 | Any sorted arrangement that keeps the queue order of equal timestamps equals the replay order. So the model's sort gives the same result as Java's stable list sort. |
| Forwarding.ReplayOrderExample | common/src/main/java/com/vexsoftware/votifier/support/forwarding/AbstractPluginMessagingForwardingSource.java:162 | Votes cached with timestamps "30", "10", "20" are replayed as 10, 20, 30. |
| StableSort.SortByStable | common/src/main/java/com/vexsoftware/votifier/support/forwarding/AbstractPluginMessagingForwardingSource.java:162 | The sort keeps the relative order of votes with equal timestamps. |
| StableSort.StableSortUnique | common/src/main/java/com/vexsoftware/votifier/support/forwarding/AbstractPluginMessagingForwardingSource.java:162 | Two sequences that are sorted by key and agree on each run of equal keys are equal. |
| Votes.ParseLong | common/src/main/java/com/vexsoftware/votifier/support/forwarding/AbstractPluginMessagingForwardingSource.java:162 | An accepted timestamp is non-empty, starts with a sign or a digit, and its value lies in the `long` range. |
| Votes.ParseFormatLong | common/src/main/java/com/vexsoftware/votifier/support/forwarding/AbstractPluginMessagingForwardingSource.java:162 | Every `long` written in decimal parses back to itself. |

## Left out

- `halt` and the file-backed cache persistence (lines 70-79) are left out: they are file I/O and error logging.
- Debug logging and `logEvictionSuccess` are left out because they have no effect on state.
- Real asynchronous scheduling and concurrent changes to the cache are left out. Each scheduled attempt is a synchronous step, so a vote that `forward` caches while a drain is pending is not modelled.
- `sendPluginMessage`, the plugin host, the vote cache's internals and `Vote.serialize` are not part of this model. They appear as an oracle, a map abstraction and a function parameter.
- The constructor that passes a `null` server filter is not modelled. The filter is a total predicate, so the `NullPointerException` in `forward` and `handlePlayerSwitch` does not arise.
- Payloads are modelled as strings. The UTF-8 encoding by `getBytes` is left out. The model treats it as preserving concatenation, which Java's encoder does except for an unpaired surrogate split across two serialisations.
- The comparator sort (`ComparatorSort`) is an insertion sort. The library's list sort makes different comparisons, but with two or more votes both read every timestamp at least once, so they throw on the same inputs.
- Sending.Host: the outcome of `send` is a fixed function of the server name and the payload within one operation. A backend that accepts some empty chunks and then refuses one (with `dumpRate <= 0`) is therefore not modelled, and neither is a second, different outcome for a server listed twice in `forward`.
- Votes.ParseLong: accepts only ASCII digits, although `Long.parseLong` also accepts the other Unicode decimal digits.
- Drain.Dump: the `fuel` bound stands for the unbounded rescheduling. A run that is still `InFlight` when the fuel is spent leaves the evicted votes outside the cache, as the in-flight collection does in the code.
- The counter `evictedAlready + evicted` is an unbounded integer. As written it stays 0 or is never reached, so Java `int` overflow cannot occur.
- The protocol decoder, RSA key handling and the test fixtures are not part of this model. Their source is not among the files modelled, and decoding starts with RSA decryption.
