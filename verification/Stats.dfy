/** Request statistics: two logs of instants, counted over sliding windows. */
module Stats {

  datatype Listener = IPv4 | Tor

  /** Whole seconds. */
  const MINUTE: int := 60
  const HOUR: int := 60 * MINUTE

  /** Entries not older than the threshold. */
  function CountFrom(requests: seq<int>, threshold: int): nat {
    if requests == [] then 0
    else CountFrom(requests[1..], threshold) + if threshold <= requests[0] then 1 else 0
  }

  function CountWithin(requests: seq<int>, now: int, duration: int): nat {
    CountFrom(requests, now - duration)
  }

  /** The places of the entries within the window. */
  function Within(requests: seq<int>, now: int, duration: int): set<int> {
    set i | 0 <= i < |requests| && now - duration <= requests[i]
  }

  lemma {:induction false} CountLast(requests: seq<int>, threshold: int)
    requires requests != []
    ensures var n := |requests| - 1;
      CountFrom(requests, threshold) == CountFrom(requests[..n], threshold) + if threshold <= requests[n] then 1 else 0
  {
    var n := |requests| - 1;
    if n > 0 {
      CountLast(requests[1..], threshold);
      assert requests[1..][..n - 1] == requests[..n][1..];
    }
  }

  /** Each of them is counted, once. */
  lemma {:induction false} CountIsSize(requests: seq<int>, now: int, duration: int)
    ensures CountWithin(requests, now, duration) == |Within(requests, now, duration)|
  {
    if requests != [] {
      var n := |requests| - 1;
      CountIsSize(requests[..n], now, duration);
      CountLast(requests, now - duration);
      var before := Within(requests[..n], now, duration);
      assert n !in before;
      assert Within(requests, now, duration) == if now - duration <= requests[n] then before + {n} else before;
    }
  }

  /** The first place with an entry after the instant; None if there is none. */
  predicate IsFirstAfter(requests: seq<int>, instant: int, i: int) {
    0 <= i < |requests| && instant < requests[i] && forall j | 0 <= j < i :: requests[j] <= instant
  }

  predicate NoneAfter(requests: seq<int>, instant: int) {
    forall j | 0 <= j < |requests| :: requests[j] <= instant
  }

  lemma {:induction false} FirstOrNone(requests: seq<int>, instant: int)
    ensures NoneAfter(requests, instant) || exists i :: IsFirstAfter(requests, instant, i)
  {
    if requests != [] {
      if instant < requests[0] {
        assert IsFirstAfter(requests, instant, 0);
      } else {
        FirstOrNone(requests[1..], instant);
        if i :| IsFirstAfter(requests[1..], instant, i) {
          assert IsFirstAfter(requests, instant, i + 1);
        } else {
          assert forall j | 1 <= j < |requests| :: requests[j] == requests[1..][j - 1];
        }
      }
    }
  }

  /** What a Cleanup can leave of a log. */
  ghost predicate CleanedUp(was: seq<int>, startDate: int, requests: seq<int>) {
    exists i :: 0 <= i <= |was| && requests == was[i..] && forall j | 0 <= j < i :: was[j] <= startDate
  }

  /** The index found for IPv4 is carried over to Tor's log, and lies behind its end. */
  ghost predicate CutTooFar(ipv4: seq<int>, tor: seq<int>, startDate: int) {
    NoneAfter(tor, startDate) && exists i | IsFirstAfter(ipv4, startDate, i) :: |tor| < i
  }

  /** A day after one IPv4 request comes another, and none ever by Tor: then the logs are
      cleaned up. */
  lemma CleanupPanics()
    ensures CutTooFar([0, 25 * HOUR], [], 25 * HOUR - 24 * HOUR)
  {
    assert IsFirstAfter([0, 25 * HOUR], 25 * HOUR - 24 * HOUR, 1);
  }

  class Stats {
    var ipv4: seq<int>
    var tor: seq<int>

    constructor ()
      ensures ipv4 == [] && tor == []
    {
      ipv4, tor := [], [];
    }

    function Requests(listener: Listener): seq<int>
      reads this
    {
      if listener.IPv4? then ipv4 else tor
    }

    method RecordRequest(listener: Listener, now: int)
      modifies this
      ensures Requests(listener) == old(Requests(listener)) + [now]
      ensures forall other | other != listener :: Requests(other) == old(Requests(other))
    {
      match listener
      case IPv4 => ipv4 := ipv4 + [now];
      case Tor => tor := tor + [now];
    }

    method CountRequests(listener: Listener, duration: int, now: int) returns (count: nat)
      ensures count == CountWithin(Requests(listener), now, duration)
    {
      var threshold := now - duration;
      var requests := Requests(listener);
      count := 0;
      for i := 0 to |requests|
        invariant count + CountFrom(requests[i..], threshold) == CountFrom(requests, threshold)
      {
        assert requests[i..][1..] == requests[i + 1..] && requests[i..][0] == requests[i];
        if threshold <= requests[i] {
          count := count + 1;
        }
      }
    }

    /** Looks for the first entry after the instant; leaves the index as it was if there is
        none. */
    method ThresholdIndex(requests: seq<int>, startDate: int, index: int) returns (thresholdIndex: int)
      ensures if NoneAfter(requests, startDate) then thresholdIndex == index
              else IsFirstAfter(requests, startDate, thresholdIndex)
    {
      thresholdIndex := index;
      for i := 0 to |requests|
        invariant forall j | 0 <= j < i :: requests[j] <= startDate
      {
        if startDate < requests[i] {
          return i;
        }
      }
    }

    /** Drops entries at the front of both logs, none of them recent.  The index found for
        IPv4 is carried over to Tor, and cutting there panics if Tor's log is too short. */
    method Cleanup(duration: int, now: int) returns (panicked: bool)
      modifies this
      ensures var startDate := now - duration;
        && (NoneAfter(old(ipv4), startDate) ==> ipv4 == old(ipv4))
        && (forall i | IsFirstAfter(old(ipv4), startDate, i) :: ipv4 == old(ipv4)[i..])
        && (panicked <==> CutTooFar(old(ipv4), old(tor), startDate))
        && (panicked ==> tor == old(tor))
        && (!panicked && NoneAfter(old(tor), startDate) && NoneAfter(old(ipv4), startDate) ==> tor == old(tor))
        && (!panicked && NoneAfter(old(tor), startDate) ==>
              forall i | IsFirstAfter(old(ipv4), startDate, i) :: tor == old(tor)[i..])
        && (forall i | IsFirstAfter(old(tor), startDate, i) :: tor == old(tor)[i..])
        && CleanedUp(old(ipv4), startDate, ipv4) && CleanedUp(old(tor), startDate, tor)
    {
      FirstOrNone(ipv4, now - duration);
      FirstOrNone(tor, now - duration);
      assert ipv4[0..] == ipv4 && tor[0..] == tor;
      var startDate := now - duration;
      var thresholdIndex := ThresholdIndex(ipv4, startDate, 0);
      ipv4 := ipv4[thresholdIndex..];
      thresholdIndex := ThresholdIndex(tor, startDate, thresholdIndex);
      if |tor| < thresholdIndex {
        return true;
      }
      tor := tor[thresholdIndex..];
      return false;
    }
  }

  // ----- Properties -----

  lemma {:induction false} CountDropsOld(requests: seq<int>, i: nat, threshold: int)
    requires i <= |requests| && forall j | 0 <= j < i :: requests[j] < threshold
    ensures CountFrom(requests[i..], threshold) == CountFrom(requests, threshold)
  {
    if i > 0 {
      assert requests[1..][i - 1..] == requests[i..];
      CountDropsOld(requests[1..], i - 1, threshold);
    }
  }

  /** For every log, sorted or not, and every later clock: counts over any window strictly
      shorter than the one that was cleaned up do not notice. */
  lemma CleanupInvisible(was: seq<int>, requests: seq<int>, duration: int, cleanedAt: int, window: int, now: int)
    requires CleanedUp(was, cleanedAt - duration, requests) && cleanedAt <= now && window < duration
    ensures CountWithin(requests, now, window) == CountWithin(was, now, window)
  {
    var i :| 0 <= i <= |was| && requests == was[i..] && forall j | 0 <= j < i :: was[j] <= cleanedAt - duration;
    CountDropsOld(was, i, now - window);
  }

  predicate Sorted(requests: seq<int>) {
    forall i, j | 0 <= i < j < |requests| :: requests[i] <= requests[j]
  }

  /** On a sorted log with a recent entry exactly the recent entries stay. */
  lemma SortedKeepsRecent(was: seq<int>, startDate: int, i: int)
    requires Sorted(was) && IsFirstAfter(was, startDate, i)
    ensures forall j | 0 <= j < |was| :: startDate < was[j] <==> i <= j
  {
  }

  lemma {:induction false} CountMonotone(requests: seq<int>, now: int, window: int, wider: int)
    requires window <= wider
    ensures CountWithin(requests, now, window) <= CountWithin(requests, now, wider)
  {
    if requests != [] {
      CountMonotone(requests[1..], now, window, wider);
    }
  }

  predicate NoneBetween(requests: seq<int>, earlier: int, later: int) {
    forall i | 0 <= i < |requests| :: !(earlier <= requests[i] < later)
  }

  /** The totals that are reported for three and six hours. */
  function ReportedTotals(ipv4: seq<int>, tor: seq<int>, now: int): (int, int) {
    (CountWithin(ipv4, now, 3 * HOUR) + CountWithin(tor, now, 6 * HOUR),
     CountWithin(ipv4, now, 6 * HOUR) + CountWithin(tor, now, 3 * HOUR))
  }

  /** They add Tor's counts crosswise: the first is never too small, the second never too
      large, they err by the same amount, and are right exactly if no Tor request is between
      three and six hours old. */
  lemma {:induction false} CrossedTotals(ipv4: seq<int>, tor: seq<int>, now: int)
    ensures var (three, six) := ReportedTotals(ipv4, tor, now);
      var (true3, true6) := (CountWithin(ipv4, now, 3 * HOUR) + CountWithin(tor, now, 3 * HOUR),
                             CountWithin(ipv4, now, 6 * HOUR) + CountWithin(tor, now, 6 * HOUR));
      && three - true3 == true6 - six >= 0
      && (three == true3 <==> NoneBetween(tor, now - 6 * HOUR, now - 3 * HOUR))
  {
    CountMonotone(tor, now, 3 * HOUR, 6 * HOUR);
    SameCounts(tor, now - 3 * HOUR, now - 6 * HOUR);
  }

  lemma {:induction false} SameCounts(requests: seq<int>, later: int, earlier: int)
    requires earlier <= later
    ensures CountFrom(requests, later) <= CountFrom(requests, earlier)
    ensures CountFrom(requests, later) == CountFrom(requests, earlier) <==> NoneBetween(requests, earlier, later)
  {
    if requests != [] {
      SameCounts(requests[1..], later, earlier);
      if NoneBetween(requests[1..], earlier, later) {
        assert forall i | 1 <= i < |requests| :: requests[i] == requests[1..][i - 1];
      }
    }
  }
}
