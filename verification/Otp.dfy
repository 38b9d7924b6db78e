/**
 The window in which wrong one-time codes are counted.

 A window opens with the first failure after a clear, a lockout or an expiry, and stays
 open for a fixed time; the failure that fills it reports a lockout and clears it.
 */
module Otp {
  import opened Wrappers

  datatype Attempt = Attempt(attempts: int, expiresAt: int)

  // The upsert: one more failure, in the open window or in a new one.
  function Counted(row: Option<Attempt>, now: int, ttl: int): Attempt {
    if row.None? || row.value.expiresAt <= now then Attempt(1, now + ttl)
    else Attempt(row.value.attempts + 1, row.value.expiresAt)
  }

  datatype Failure = Failure(row: Option<Attempt>, attempts: int, locked: bool)

  function CountFailure(row: Option<Attempt>, max: int, now: int, ttl: int): Failure {
    var counted := Counted(row, now, ttl);
    if counted.attempts >= max then Failure(None, counted.attempts, true)
    else Failure(Some(counted), counted.attempts, false)
  }

  datatype Event = Failed(now: int) | Cleared

  function RowAfter(row: Option<Attempt>, events: seq<Event>, max: int, ttl: int): Option<Attempt> {
    if events == [] then row
    else
      match events[|events| - 1]
      case Cleared => None
      case Failed(now) => CountFailure(RowAfter(row, events[..|events| - 1], max, ttl), max, now, ttl).row
  }

  /** In every run the stored count is at least 1 and below the maximum. */
  lemma {:induction false} StoredCountInRange(events: seq<Event>, max: int, ttl: int)
    ensures var row := RowAfter(None, events, max, ttl); row.Some? ==> 1 <= row.value.attempts < max
  {
    if events != [] {
      StoredCountInRange(events[..|events| - 1], max, ttl);
    }
  }

  function Failures(times: seq<int>): (events: seq<Event>)
    ensures |events| == |times|
    ensures forall i :: 0 <= i < |times| ==> events[i] == Failed(times[i])
  {
    seq(|times|, i requires 0 <= i < |times| => Failed(times[i]))
  }

  // The row and its count after the failures of one window, the last of them not counted yet.
  lemma {:induction false} OpenWindow(row: Option<Attempt>, times: seq<int>, k: nat, max: int, ttl: int)
    requires 1 <= k <= |times| && k < max && ttl > 0
    requires row.None? || row.value.expiresAt <= times[0]
    requires forall i :: 0 <= i < |times| ==> times[i] < times[0] + ttl
    ensures RowAfter(row, Failures(times[..k]), max, ttl) == Some(Attempt(k, times[0] + ttl))
  {
    assert Failures(times[..k])[..k - 1] == Failures(times[..k - 1]);
    if k == 1 {
      assert Failures(times[..0]) == [];
    } else {
      OpenWindow(row, times, k - 1, max, ttl);
    }
  }

  /**
   After any history, once a failure opens a new window, the k-th failure inside that
   window counts k, and reports a lockout exactly when k is the maximum; the lockout
   clears the count.
   */
  lemma LockedExactlyAtMaximum(history: seq<Event>, times: seq<int>, max: int, ttl: int)
    requires 1 <= |times| <= max && ttl > 0
    requires forall i :: 0 <= i < |times| ==> times[i] < times[0] + ttl
    requires var row := RowAfter(None, history, max, ttl); row.None? || row.value.expiresAt <= times[0]
    ensures var k := |times|;
      var r := CountFailure(RowAfter(RowAfter(None, history, max, ttl), Failures(times[..k - 1]), max, ttl), max, times[k - 1], ttl);
      && r.attempts == k
      && (r.locked <==> k == max)
      && r.row == if k == max then None else Some(Attempt(k, times[0] + ttl))
  {
    var row := RowAfter(None, history, max, ttl);
    if |times| == 1 {
      assert Failures(times[..0]) == [];
    } else {
      OpenWindow(row, times, |times| - 1, max, ttl);
    }
  }
}
