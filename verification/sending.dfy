/** The host the forwarding source runs in, reduced to the three collaborators
    the forwarding code calls, and the `forwardSpecific` overloads built on
    them; the byte-array overload is the `send` oracle itself. */
module Sending {
  import opened Votes

  /** `servers` is what `getAllBackendServers` returns, in iteration order;
      `send(server, payload)` is `sendPluginMessage` on the source's fixed
      channel, true when the message was handed to the backend; `serialize`
      is `vote.serialize().toString()`. */
  datatype Host = Host(servers: seq<string>, send: (string, string) -> bool, serialize: Vote -> string)

  /** One call of `sendPluginMessage`. */
  datatype Send = Send(server: string, payload: string)

  /** The payload for a collection of votes: each vote's serialisation, in
      collection order, concatenated into one message. */
  function Batch(serialize: Vote -> string, votes: seq<Vote>): string
    decreases |votes|
  {
    if |votes| == 0 then "" else serialize(votes[0]) + Batch(serialize, votes[1..])
  }

  lemma {:induction false} BatchAppend(serialize: Vote -> string, a: seq<Vote>, b: seq<Vote>)
    ensures Batch(serialize, a + b) == Batch(serialize, a) + Batch(serialize, b)
    decreases |a|
  {
    if |a| > 0 {
      assert (a + b)[0] == a[0];
      assert (a + b)[1..] == a[1..] + b;
      BatchAppend(serialize, a[1..], b);
    } else {
      assert a + b == b;
    }
  }

  /** A one-vote collection is sent as that vote's serialisation alone. */
  lemma BatchSingleton(serialize: Vote -> string, votes: seq<Vote>)
    ensures |votes| == 1 ==> Batch(serialize, votes) == serialize(votes[0])
  {
    if |votes| == 1 {
      assert Batch(serialize, votes[1..]) == "";
      assert serialize(votes[0]) + "" == serialize(votes[0]);
    }
  }

  /** `forwardSpecific(connection, votes)`: the collection as one message
      whose payload is `Batch` of the votes, so a split of the collection
      splits the payload (`BatchAppend`). An empty collection is the empty
      message; a single vote is its own serialisation. */
  function SendBatch(host: Host, server: string, votes: seq<Vote>): (ok: bool)
    ensures |votes| == 0 ==> ok == host.send(server, "")
    ensures |votes| == 1 ==> ok == host.send(server, host.serialize(votes[0]))
  {
    BatchSingleton(host.serialize, votes);
    host.send(server, Batch(host.serialize, votes))
  }

  /** `forwardSpecific(connection, vote)`: sending one vote is sending the
      collection that holds only it. */
  function SendVote(host: Host, server: string, v: Vote): (ok: bool)
    ensures ok == SendBatch(host, server, [v])
  {
    BatchSingleton(host.serialize, [v]);
    host.send(server, host.serialize(v))
  }
}
