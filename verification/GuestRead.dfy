// Streaming a file from the guest (src/guest-rpc.ts): one retry with a refreshed
// credential, and only before anything was handed on.
module GuestRead {
  type Buffer = seq<int>

  datatype End = Complete | Unauthenticated | Broken

  // What one read call gives: its chunks, how it ends, and whether the caller had
  // cancelled by then.
  datatype Call = Call(chunks: seq<Buffer>, end: End, aborted: bool)

  datatype Outcome = Finished | Stopped | Aborted | Failed(end: End) | RefreshFailed

  // What the credential's refresh gives.
  datatype Refresh = NotOffered | Refused | Granted

  // The calls a read makes, how many of them it cancels, and what it hands on.
  datatype Reading = Reading(emitted: seq<Buffer>, outcome: Outcome, calls: nat, cancelled: nat)

  // The consumer takes at most want chunks and then asks for no more.
  predicate Retries(first: Call, refresh: Refresh, want: nat) {
    first.chunks == [] && want > 0 && first.end == Unauthenticated && !first.aborted && refresh != NotOffered
  }

  function Ending(call: Call, want: nat): Outcome {
    if |call.chunks| >= want then Stopped
    else if call.end == Complete then Finished
    else if call.aborted then Aborted
    else Failed(call.end)
  }

  function Taken(call: Call, want: nat): seq<Buffer> {
    if |call.chunks| >= want then call.chunks[..want] else call.chunks
  }

  // guestChunks: whatever the calls do, what is handed on is the beginning of one
  // call's chunks, all of them if it finished: a retry neither repeats nor skips a
  // chunk. There are at most two calls, none if the caller had
  // cancelled before, and every one that did not finish is cancelled.
  method GuestChunks(cancelled: bool, first: Call, refresh: Refresh, second: Call, want: nat) returns (r: Reading)
    requires want > 0
    ensures cancelled ==> r == Reading([], Aborted, 0, 0)
    ensures !cancelled ==>
            var retried := Retries(first, refresh, want);
            var last := if retried && refresh == Granted then second else first;
            && r.calls == (if retried && refresh == Granted then 2 else 1)
            && r.emitted == (if retried && refresh == Refused then [] else Taken(last, want))
            && r.outcome == (if retried && refresh == Refused then RefreshFailed else Ending(last, want))
            && r.cancelled == r.calls - (if r.outcome == Finished then 1 else 0)
    ensures r.emitted <= first.chunks || (first.chunks == [] && r.emitted <= second.chunks)
    ensures r.outcome == Finished ==> r.emitted == (if r.calls == 2 then second.chunks else first.chunks)
  {
    if cancelled { return Reading([], Aborted, 0, 0); }
    var attempt := 0;
    var dropped := 0;
    var out: seq<Buffer> := [];
    while true
      invariant attempt <= 1 && dropped == attempt && out == []
      invariant attempt == 1 ==> Retries(first, refresh, want) && refresh == Granted
      decreases 1 - attempt
    {
      var call := if attempt == 0 then first else second;
      var n := 0;
      while n < |call.chunks|
        invariant 0 <= n <= |call.chunks| && n < want && out == call.chunks[..n]
      {
        out := out + [call.chunks[n]];
        n := n + 1;
        if n == want {
          return Reading(out, Stopped, attempt + 1, dropped + 1);
        }
      }
      if call.end == Complete {
        return Reading(out, Finished, attempt + 1, dropped);
      }
      dropped := dropped + 1;
      if call.aborted {
        return Reading(out, Aborted, attempt + 1, dropped);
      }
      if attempt == 0 && n == 0 && call.end == Unauthenticated && refresh != NotOffered {
        if refresh == Refused {
          return Reading(out, RefreshFailed, attempt + 1, dropped);
        }
        attempt := attempt + 1;
        continue;
      }
      return Reading(out, Failed(call.end), attempt + 1, dropped);
    }
  }
}
