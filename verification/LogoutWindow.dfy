// The window of recent logouts that decides whether a session is purged.
module LogoutWindow {

  const WINDOW_SECS: int := 600
  const THRESHOLD: nat := 3

  /** The times within the window before `now`, oldest first. */
  function Recent(times: seq<int>, now: int): seq<int> {
    if times == [] then []
    else
      var n := |times| - 1;
      if now - times[n] < WINDOW_SECS then Recent(times[..n], now) + [times[n]] else Recent(times[..n], now)
  }

  class History {
    var kept: seq<int>

    constructor ()
      ensures kept == []
    {
      kept := [];
    }

    /** Drops what is out of the window, adds this logout, and answers whether the threshold is reached. */
    method RecordLogoutAndShouldPurge(now: int) returns (purge: bool)
      modifies this
      ensures kept == Recent(old(kept), now) + [now]
      ensures purge <==> |kept| >= THRESHOLD
    {
      var still := [];
      for i := 0 to |kept|
        invariant kept == old(kept) && still == Recent(kept[..i], now)
      {
        assert kept[..i + 1][..i] == kept[..i];
        if now - kept[i] < WINDOW_SECS {
          still := still + [kept[i]];
        }
      }
      assert kept[..|kept|] == kept;
      kept := still + [now];
      purge := |kept| >= THRESHOLD;
    }
  }

  // ---- What the history holds after a run of logouts ----

  function KeptAfter(logouts: seq<int>): seq<int> {
    if logouts == [] then []
    else
      var n := |logouts| - 1;
      Recent(KeptAfter(logouts[..n]), logouts[n]) + [logouts[n]]
  }

  /** No later reading of the clock found logout `i` out of the window. */
  predicate Survives(t: seq<int>, i: nat)
    requires i < |t|
  {
    forall j :: i < j < |t| ==> t[j] - t[i] < WINDOW_SECS
  }

  /** The surviving ones among the first `m` logouts, oldest first. */
  function Survivors(t: seq<int>, m: nat): seq<int>
    requires m <= |t|
  {
    if m == 0 then [] else Survivors(t, m - 1) + (if Survives(t, m - 1) then [t[m - 1]] else [])
  }

  /** One more logout filters the survivors once more. */
  lemma {:induction false} SurvivorsFiltered(t: seq<int>, now: int, m: nat)
    requires m <= |t|
    ensures Recent(Survivors(t, m), now) == Survivors(t + [now], m)
  {
    if m > 0 {
      SurvivorsFiltered(t, now, m - 1);
      SurvivesOneMore(t, now, m - 1);
      if Survives(t, m - 1) {
        var r := Survivors(t, m - 1);
        assert (r + [t[m - 1]])[..|r|] == r;
      } else {
        assert Survivors(t, m) == Survivors(t, m - 1);
      }
      assert (t + [now])[m - 1] == t[m - 1];
    }
  }

  lemma SurvivesOneMore(t: seq<int>, now: int, i: nat)
    requires i < |t|
    ensures Survives(t + [now], i) <==> Survives(t, i) && now - t[i] < WINDOW_SECS
  {
    var all := t + [now];
    assert all[|t|] == now;
    assert forall j :: 0 <= j < |t| ==> all[j] == t[j];
  }

  /** Whatever the clock does, the history is exactly the logouts that no later
      reading found out of the window, in order. */
  lemma {:induction false} HistoryIsSurvivors(t: seq<int>)
    ensures KeptAfter(t) == Survivors(t, |t|)
  {
    if t != [] {
      var n := |t| - 1;
      HistoryIsSurvivors(t[..n]);
      SurvivorsFiltered(t[..n], t[n], n);
      assert t[..n] + [t[n]] == t;
      assert Survives(t, n);
    }
  }

  /** Whatever the clock does, the purge is ordered iff two earlier logouts
      survive beside this one. */
  lemma PurgeIffThreeSurvive(t: seq<int>)
    requires t != []
    ensures |KeptAfter(t)| >= THRESHOLD <==>
      exists i, j :: 0 <= i < j < |t| - 1 && Survives(t, i) && Survives(t, j)
  {
    HistoryIsSurvivors(t);
    assert Survives(t, |t| - 1);
    CountSurvivors(t, |t| - 1);
  }

  lemma {:induction false} CountSurvivors(t: seq<int>, m: nat)
    requires m <= |t|
    ensures |Survivors(t, m)| >= 1 <==> exists i :: 0 <= i < m && Survives(t, i)
    ensures |Survivors(t, m)| >= 2 <==> exists i, j :: 0 <= i < j < m && Survives(t, i) && Survives(t, j)
  {
    if m > 0 {
      CountSurvivors(t, m - 1);
    }
  }

  // ---- When the history is the whole record cut to the window ----

  predicate InWindow(t: seq<int>, i: nat)
    requires i < |t|
  {
    t[|t| - 1] - t[i] < WINDOW_SECS
  }

  /** Every entry in the last window survived every later reading. */
  ghost predicate NothingForgotten(t: seq<int>, m: nat)
    requires m <= |t|
  {
    forall i :: 0 <= i < m && InWindow(t, i) ==> Survives(t, i)
  }

  lemma {:induction false} SurvivorsOrWindow(t: seq<int>, m: nat)
    requires t != [] && m <= |t|
    ensures |Survivors(t, m)| <= |Recent(t[..m], t[|t| - 1])|
    ensures |Survivors(t, m)| == |Recent(t[..m], t[|t| - 1])| <==> NothingForgotten(t, m)
    ensures NothingForgotten(t, m) ==> Survivors(t, m) == Recent(t[..m], t[|t| - 1])
  {
    if m > 0 {
      SurvivorsOrWindow(t, m - 1);
      assert t[..m][..m - 1] == t[..m - 1];
      assert Survives(t, m - 1) ==> InWindow(t, m - 1);
      assert NothingForgotten(t, m) <==> NothingForgotten(t, m - 1) && (InWindow(t, m - 1) ==> Survives(t, m - 1));
    }
  }

  /** The history is the whole record cut to the window if and only if each entry
      inside the last window survived every later reading. */
  lemma HistoryIsWindowIff(t: seq<int>)
    requires t != []
    ensures KeptAfter(t) == Recent(t, t[|t| - 1]) <==> NothingForgotten(t, |t|)
  {
    HistoryIsSurvivors(t);
    SurvivorsOrWindow(t, |t|);
    assert t[..|t|] == t;
  }

  predicate NonDecreasing(times: seq<int>) {
    forall i, j :: 0 <= i < j < |times| ==> times[i] <= times[j]
  }

  /** With a clock that never goes back nothing is forgotten, and the purge is
      ordered iff the third latest logout, this one included, is less than ten
      minutes old. */
  lemma SteadyClock(t: seq<int>)
    requires t != [] && NonDecreasing(t)
    ensures KeptAfter(t) == Recent(t, t[|t| - 1])
    ensures |KeptAfter(t)| >= THRESHOLD <==> |t| >= 3 && t[|t| - 1] - t[|t| - 3] < WINDOW_SECS
  {
    var n := |t|;
    forall i | 0 <= i < n
      ensures Survives(t, i) <==> InWindow(t, i)
    {
      assert Survives(t, i) && i < n - 1 ==> t[n - 1] - t[i] < WINDOW_SECS;
    }
    HistoryIsWindowIff(t);
    PurgeIffThreeSurvive(t);
    if n >= 3 && InWindow(t, n - 3) {
      assert Survives(t, n - 3) && Survives(t, n - 2);
    }
  }

  lemma {:induction false} RecentKeepsAll(times: seq<int>, now: int)
    requires forall i :: 0 <= i < |times| ==> now - times[i] < WINDOW_SECS
    ensures Recent(times, now) == times
  {
    if times != [] {
      var n := |times| - 1;
      RecentKeepsAll(times[..n], now);
      assert times[..n] + [times[n]] == times;
    }
  }

  /** With a clock set back, logouts within the window may have been forgotten:
      four are in it, and no purge is ordered. */
  lemma ClockSetBack()
    ensures |KeptAfter([0, 1, 700, 2])| < THRESHOLD && Recent([0, 1, 700, 2], 2) == [0, 1, 700, 2]
  {
    var t := [0, 1, 700, 2];
    RecentKeepsAll(t, 2);
    PurgeIffThreeSurvive(t);
    assert t[2] - t[0] == 700 && t[2] - t[1] == 699;
    assert !Survives(t, 0) && !Survives(t, 1);
  }
}
