/** Byte streams that are moved chunk by chunk under a recurring priority check. */
module Streaming {
  newtype Byte = x: int | 0 <= x < 256
  type Bytes = seq<Byte>

  const CHUNK: nat := 1024 * 1024
  const RECHECK: nat := 16 * 1024 * 1024

  /** What a run does, as far as pre-emption goes. */
  datatype Event = Check | Moved(bytes: nat)

  function SinceCheck(trace: seq<Event>): nat {
    if trace == [] then 0
    else match trace[|trace| - 1]
      case Check => 0
      case Moved(bytes) => SinceCheck(trace[..|trace| - 1]) + bytes
  }

  /** At no point have RECHECK bytes and one more chunk gone by unchecked. */
  ghost predicate Watched(trace: seq<Event>) {
    forall k :: 0 <= k <= |trace| ==> SinceCheck(trace[..k]) < RECHECK + CHUNK
  }

  lemma WatchedOneMore(trace: seq<Event>, event: Event)
    requires Watched(trace)
    requires event.Moved? ==> SinceCheck(trace) + event.bytes < RECHECK + CHUNK
    ensures Watched(trace + [event])
    ensures SinceCheck(trace + [event]) == if event.Check? then 0 else SinceCheck(trace) + event.bytes
  {
    var longer := trace + [event];
    assert longer[..|trace|] == trace && trace[..|trace|] == trace;
    forall k | 0 <= k <= |longer| ensures SinceCheck(longer[..k]) < RECHECK + CHUNK {
      if k <= |trace| {
        assert longer[..k] == trace[..k];
      } else {
        assert longer[..k] == longer;
      }
    }
  }

  /** Whether a call that may fail does; a quiet system never lets one fail. */
  method Fails(quiet: bool) returns (failed: bool)
    ensures quiet ==> !failed
  {
    failed := *;
    if quiet {
      failed := false;
    }
  }

  /** The check raises when higher-priority work is running. */
  method PriorityCheck(quiet: bool, ghost trace: seq<Event>) returns (blocked: bool, ghost longer: seq<Event>)
    requires Watched(trace)
    ensures longer == trace + [Check] && Watched(longer) && SinceCheck(longer) == 0
    ensures quiet ==> !blocked
  {
    blocked := Fails(quiet);
    longer := trace + [Check];
    WatchedOneMore(trace, Check);
  }

  /** One read: at most `limit` bytes, none only at the end of the stream. */
  method Read(stream: Bytes, limit: nat) returns (chunk: Bytes)
    requires limit > 0
    ensures chunk <= stream && |chunk| <= limit && (chunk == [] <==> stream == [])
  {
    if stream == [] {
      return [];
    }
    var length: nat :| 0 < length <= limit && length <= |stream|;
    return stream[..length];
  }

  datatype Stop = Complete | Blocked | TooLong

  /** The loop that hashes a file: reads to the end, checks every RECHECK bytes. */
  method HashStream(quiet: bool, stream: Bytes, maximum: nat, ghost before: seq<Event>)
    returns (stop: Stop, digested: Bytes, ghost trace: seq<Event>)
    requires Watched(before) && SinceCheck(before) == 0
    ensures Watched(trace) && before < trace
    ensures stop.Complete? ==> digested == stream && |stream| <= maximum
    ensures stop.TooLong? ==> |stream| > maximum
    ensures digested <= stream
    ensures quiet ==> !stop.Blocked?
  {
    var total, since, rest := 0, RECHECK, stream;
    digested, trace := [], before;
    while true
      invariant Watched(trace) && before <= trace && (since < RECHECK ==> before < trace)
      invariant SinceCheck(trace) <= since < RECHECK + CHUNK
      invariant digested + rest == stream && total == |digested| <= maximum
      decreases |rest|, since
    {
      if since >= RECHECK {
        var blocked;
        blocked, trace := PriorityCheck(quiet, trace);
        if blocked {
          return Blocked, digested, trace;
        }
        since := 0;
      }
      var chunk := Read(rest, CHUNK);
      if chunk == [] {
        break;
      }
      total, since := total + |chunk|, since + |chunk|;
      WatchedOneMore(trace, Moved(|chunk|));
      trace := trace + [Moved(|chunk|)];
      if total > maximum {
        return TooLong, digested, trace;
      }
      rest, digested := rest[|chunk|..], digested + chunk;
    }
    stop := Complete;
  }
}
