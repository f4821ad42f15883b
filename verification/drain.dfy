/** The drain loop of `dumpVotesToServer`: each scheduled attempt moves votes
    from the collection into a chunk, sends the chunk as one message, and
    either reschedules itself, reports the remainder to the callback, or (on
    failure) puts the chunk back and reports. The scheduler is a synchronous
    step: every attempt records the delay it was scheduled with, and `fuel`
    bounds how many attempts are run, so a drain that keeps rescheduling
    itself is visible as one that has not reported within its fuel. */
module Drain {
  import opened Wrappers
  import opened Votes
  import opened Sending

  /** One scheduled attempt: its delay in seconds, the chunk it sent, and
      whether the send succeeded. */
  datatype Attempt = Attempt(delay: int, chunk: seq<Vote>, delivered: bool)

  /** The attempts run, and the collection handed to the callback; `None`
      when the drain was still rescheduling itself when the fuel ran out. */
  datatype DrainRun = DrainRun(attempts: seq<Attempt>, remainder: Option<seq<Vote>>)

  /** The cool-down before an attempt: three seconds before the first chunk
      has been delivered, one second after. */
  function Delay(evictedAlready: int): (seconds: int)
    ensures seconds == 1 || seconds == 3
    ensures seconds == 3 <==> evictedAlready == 0
  {
    if evictedAlready == 0 then 3 else 1
  }

  /** The chunk-filling loop as written: it runs while the collection has
      votes and `evicted < dumpRate`, but nothing in it changes `evicted`.
      So it moves the whole collection when `evicted < dumpRate` and nothing
      otherwise. `(chunk, rest)` is the loop state. */
  function FillChunk(chunk: seq<Vote>, rest: seq<Vote>, evicted: int, dumpRate: int): (r: (seq<Vote>, seq<Vote>))
    ensures r.0 + r.1 == chunk + rest
    ensures evicted < dumpRate ==> r.1 == []
    ensures evicted >= dumpRate ==> r.0 == chunk
    decreases |rest|
  {
    if |rest| > 0 && evicted < dumpRate then
      assert chunk + rest == (chunk + [rest[0]]) + rest[1..];
      FillChunk(chunk + [rest[0]], rest[1..], evicted, dumpRate)
    else (chunk, rest)
  }

  /** Started empty with `evicted == 0`, the loop takes the whole
      collection when `dumpRate >= 1` and nothing otherwise. */
  lemma FillAllOrNothing(q: seq<Vote>, dumpRate: int)
    ensures FillChunk([], q, 0, dumpRate) == if dumpRate >= 1 then (q, []) else ([], q)
  {
    assert [] + q == q;
    var r := FillChunk([], q, 0, dumpRate);
    if dumpRate >= 1 {
      assert r.0 + [] == r.0;
    }
  }

  /** The votes the attempts delivered, in the order they were sent. */
  function Delivered(attempts: seq<Attempt>): seq<Vote>
    decreases |attempts|
  {
    if |attempts| == 0 then []
    else (if attempts[0].delivered then attempts[0].chunk else []) + Delivered(attempts[1..])
  }

  /** `dumpVotesToServer(cachedVotes, target, identifier, evictedAlready, cb)`.
      Each step runs one scheduled attempt; a run is cut short only by the
      fuel, and only while the collection is not empty. `DumpConserves`,
      `DumpSends` and `DumpDelays` state what the attempts did. */
  function Dump(dumpRate: int, host: Host, target: string, q: seq<Vote>, evictedAlready: int, fuel: nat): (r: DrainRun)
    ensures |r.attempts| <= fuel
    ensures r.remainder.None? ==> |r.attempts| == fuel && |q| > 0
    decreases fuel
  {
    if |q| == 0 then DrainRun([], Some(q))
    else if fuel == 0 then DrainRun([], None)
    else
      var filled := FillChunk([], q, 0, dumpRate);
      var chunk, rest := filled.0, filled.1;
      var ok := SendBatch(host, target, chunk);
      var attempt := Attempt(Delay(evictedAlready), chunk, ok);
      if !ok then
        DrainRun([attempt], Some(rest + chunk))
      else
        var evicted := |chunk|;
        if evicted >= dumpRate && |rest| > 0 then
          var next := Dump(dumpRate, host, target, rest, evictedAlready + evicted, fuel - 1);
          DrainRun([attempt] + next.attempts, next.remainder)
        else
          DrainRun([attempt], Some(rest))
  }

  /** One scheduled attempt on a non-empty collection, as the chunk loop
      actually behaves: with `dumpRate >= 1` the chunk is the whole
      collection and the drain ends; with `dumpRate <= 0` the chunk is empty
      and a successful send starts the drain over on the same collection
      with the same counter. */
  lemma DumpStep(dumpRate: int, host: Host, target: string, q: seq<Vote>, evictedAlready: int, fuel: nat)
    requires |q| > 0 && fuel > 0
    ensures var chunk := if dumpRate >= 1 then q else [];
      var ok := SendBatch(host, target, chunk);
      var a := Attempt(Delay(evictedAlready), chunk, ok);
      Dump(dumpRate, host, target, q, evictedAlready, fuel)
        == if !ok then DrainRun([a], Some(q))
           else if dumpRate >= 1 then DrainRun([a], Some([]))
           else
             var next := Dump(dumpRate, host, target, q, evictedAlready, fuel - 1);
             DrainRun([a] + next.attempts, next.remainder)
  {
    FillAllOrNothing(q, dumpRate);
    assert [] + q == q && q + [] == q;
  }

  /** Every attempt but the last was delivered. */
  predicate OnlyLastFails(attempts: seq<Attempt>) {
    forall i :: 0 <= i < |attempts| - 1 ==> attempts[i].delivered
  }

  /** No vote is lost or duplicated: when the callback runs, the votes
      delivered followed by what it receives are the original collection,
      in order. Only the last attempt can have failed. */
  lemma {:induction false} DumpConserves(dumpRate: int, host: Host, target: string, q: seq<Vote>, evictedAlready: int, fuel: nat)
    ensures var r := Dump(dumpRate, host, target, q, evictedAlready, fuel);
      r.remainder.Some? ==> Delivered(r.attempts) + r.remainder.value == q
    ensures OnlyLastFails(Dump(dumpRate, host, target, q, evictedAlready, fuel).attempts)
    decreases fuel
  {
    var r := Dump(dumpRate, host, target, q, evictedAlready, fuel);
    if |q| > 0 && fuel > 0 {
      DumpStep(dumpRate, host, target, q, evictedAlready, fuel);
      var chunk := if dumpRate >= 1 then q else [];
      var ok := SendBatch(host, target, chunk);
      var a := Attempt(Delay(evictedAlready), chunk, ok);
      if !ok || dumpRate >= 1 {
        DeliveredCons(a, []);
        assert [] + q == q && q + [] == q;
      } else {
        // nothing was taken, so the drain starts over on the same collection
        var next := Dump(dumpRate, host, target, q, evictedAlready, fuel - 1);
        DumpConserves(dumpRate, host, target, q, evictedAlready, fuel - 1);
        DeliveredCons(a, next.attempts);
        assert [] + Delivered(next.attempts) == Delivered(next.attempts);
        OnlyLastFailsCons(a, next.attempts);
      }
    }
  }

  lemma OnlyLastFailsCons(a: Attempt, rest: seq<Attempt>)
    requires a.delivered && OnlyLastFails(rest)
    ensures OnlyLastFails([a] + rest)
  {
    var r := [a] + rest;
    forall i | 0 < i < |r| - 1
      ensures r[i].delivered
    {
      assert r[i] == rest[i - 1];
    }
  }

  lemma DeliveredCons(a: Attempt, rest: seq<Attempt>)
    ensures Delivered([a] + rest) == (if a.delivered then a.chunk else []) + Delivered(rest)
  {
    assert ([a] + rest)[1..] == rest;
  }

  /** Each attempt's outcome is that of sending its chunk to `target` as
      one message. */
  predicate SentAsBatches(host: Host, target: string, attempts: seq<Attempt>) {
    forall i :: 0 <= i < |attempts| ==> attempts[i].delivered == SendBatch(host, target, attempts[i].chunk)
  }

  /** Each attempt waited three seconds while nothing had been delivered
      before it, and one second otherwise. */
  predicate DelaysFollow(attempts: seq<Attempt>, evictedAlready: int) {
    forall i :: 0 <= i < |attempts| ==> attempts[i].delay == Delay(evictedAlready + |Delivered(attempts[..i])|)
  }

  /** Every attempt sent its chunk to `target` as one message. */
  lemma {:induction false} DumpSends(dumpRate: int, host: Host, target: string, q: seq<Vote>, evictedAlready: int, fuel: nat)
    ensures SentAsBatches(host, target, Dump(dumpRate, host, target, q, evictedAlready, fuel).attempts)
    decreases fuel
  {
    if |q| > 0 && fuel > 0 {
      DumpStep(dumpRate, host, target, q, evictedAlready, fuel);
      var chunk := if dumpRate >= 1 then q else [];
      var ok := SendBatch(host, target, chunk);
      var a := Attempt(Delay(evictedAlready), chunk, ok);
      if ok && dumpRate < 1 {
        var next := Dump(dumpRate, host, target, q, evictedAlready, fuel - 1);
        DumpSends(dumpRate, host, target, q, evictedAlready, fuel - 1);
        var attempts := [a] + next.attempts;
        forall i | 0 < i < |attempts|
          ensures attempts[i].delivered == SendBatch(host, target, attempts[i].chunk)
        {
          assert attempts[i] == next.attempts[i - 1];
        }
      }
    }
  }

  /** Putting an attempt that delivered nothing in front of a run keeps the
      delays of the run. */
  lemma DelaysCons(a: Attempt, rest: seq<Attempt>, evictedAlready: int)
    requires a.delivered && a.chunk == [] && a.delay == Delay(evictedAlready)
    requires DelaysFollow(rest, evictedAlready)
    ensures DelaysFollow([a] + rest, evictedAlready)
  {
    var r := [a] + rest;
    assert r[..0] == [];
    forall i | 0 < i < |r|
      ensures r[i].delay == Delay(evictedAlready + |Delivered(r[..i])|)
    {
      assert r[..i] == [a] + rest[..i - 1];
      DeliveredCons(a, rest[..i - 1]);
      assert [] + Delivered(rest[..i - 1]) == Delivered(rest[..i - 1]);
      assert r[i] == rest[i - 1];
    }
  }

  /** Every attempt waited three seconds while nothing had been delivered
      yet and one second after that. */
  lemma {:induction false} DumpDelays(dumpRate: int, host: Host, target: string, q: seq<Vote>, evictedAlready: int, fuel: nat)
    ensures DelaysFollow(Dump(dumpRate, host, target, q, evictedAlready, fuel).attempts, evictedAlready)
    decreases fuel
  {
    if |q| > 0 && fuel > 0 {
      DumpStep(dumpRate, host, target, q, evictedAlready, fuel);
      var chunk := if dumpRate >= 1 then q else [];
      var ok := SendBatch(host, target, chunk);
      var a := Attempt(Delay(evictedAlready), chunk, ok);
      if ok && dumpRate < 1 {
        // the chunk was empty, so the counter passed on is unchanged
        var next := Dump(dumpRate, host, target, q, evictedAlready, fuel - 1);
        DumpDelays(dumpRate, host, target, q, evictedAlready, fuel - 1);
        DelaysCons(a, next.attempts, evictedAlready);
      } else {
        assert [a][..0] == [];
      }
    }
  }

  /** The entry point `dumpVotesToServer(cachedVotes, target, identifier, cb)`:
      the counter starts at zero, so the first attempt waits three seconds. */
  function DumpVotesToServer(dumpRate: int, host: Host, target: string, q: seq<Vote>, fuel: nat): (r: DrainRun)
    ensures |r.attempts| > 0 ==> r.attempts[0].delay == 3
    ensures r.remainder.Some? ==> Delivered(r.attempts) + r.remainder.value == q
  {
    DumpConserves(dumpRate, host, target, q, 0, fuel);
    Dump(dumpRate, host, target, q, 0, fuel)
  }

  /** Draining an empty collection calls back at once with it: no attempt is
      scheduled and nothing is sent. */
  lemma DumpEmpty(dumpRate: int, host: Host, target: string, evictedAlready: int, fuel: nat)
    ensures Dump(dumpRate, host, target, [], evictedAlready, fuel) == DrainRun([], Some([]))
  {
  }

  /** With `dumpRate >= 1`, one attempt moves the whole collection into a
      single chunk; on success the callback gets an empty collection and
      nothing is rescheduled, on failure it gets the collection back
      unchanged and in order. */
  lemma DumpOneShot(dumpRate: int, host: Host, target: string, q: seq<Vote>, evictedAlready: int, fuel: nat)
    requires dumpRate >= 1 && |q| > 0 && fuel >= 1
    ensures var ok := SendBatch(host, target, q);
      Dump(dumpRate, host, target, q, evictedAlready, fuel)
        == DrainRun([Attempt(Delay(evictedAlready), q, ok)], Some(if ok then [] else q))
  {
    DumpStep(dumpRate, host, target, q, evictedAlready, fuel);
  }

  /** With `dumpRate <= 0` the chunk is always empty; if the backend accepts
      the empty message the drain reschedules itself for ever, the counter
      stuck where it started, and never calls back. */
  lemma {:induction false} DumpDiverges(dumpRate: int, host: Host, target: string, q: seq<Vote>, evictedAlready: int, fuel: nat)
    requires dumpRate <= 0 && |q| > 0 && host.send(target, "")
    ensures Dump(dumpRate, host, target, q, evictedAlready, fuel)
      == DrainRun(seq(fuel, _ => Attempt(Delay(evictedAlready), [], true)), None)
    decreases fuel
  {
    if fuel > 0 {
      DumpStep(dumpRate, host, target, q, evictedAlready, fuel);
      DumpDiverges(dumpRate, host, target, q, evictedAlready, fuel - 1);
      var a := Attempt(Delay(evictedAlready), [], true);
      assert [a] + seq(fuel - 1, _ => a) == seq(fuel, _ => a);
    }
  }

  /** With `dumpRate <= 0`, a refused empty message ends the drain after one
      attempt with the collection unchanged. */
  lemma DumpZeroRateRefused(dumpRate: int, host: Host, target: string, q: seq<Vote>, evictedAlready: int, fuel: nat)
    requires dumpRate <= 0 && |q| > 0 && fuel >= 1 && !host.send(target, "")
    ensures Dump(dumpRate, host, target, q, evictedAlready, fuel)
      == DrainRun([Attempt(Delay(evictedAlready), [], false)], Some(q))
  {
    DumpStep(dumpRate, host, target, q, evictedAlready, fuel);
  }
}
