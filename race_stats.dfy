/**
 * The race-statistics card: the summary computed over a user's race records
 * and the component state around it (fetch on sign-in, stats only for
 * non-empty data). Distances and paces are reals; the `toFixed` rounding is
 * not modelled.
 */
module RaceStats {
  import opened Wrappers

  /** A race record; `date` is an integer key that orders as the race date does. */
  datatype RaceRecord = RaceRecord(date: int, finishTime: int, distance: real, pace: real, name: string)

  datatype Stats = Stats(totalRaces: nat, totalDistance: real, bestPace: real, avgDistance: real)

  /** The initial `useState` value. */
  const NoStats := Stats(0, 0.0, 0.0, 0.0)

  /** `reduce((sum, race) => sum + race.distance, 0)`, folding from the left. */
  function TotalDistance(s: seq<RaceRecord>): real
  {
    if s == [] then 0.0 else TotalDistance(s[..|s| - 1]) + s[|s| - 1].distance
  }

  function Min(a: real, b: real): real
  {
    if a <= b then a else b
  }

  /** `Math.min(...records.map(r => r.pace))` over a non-empty sequence: the least pace, which some record has. */
  function BestPace(s: seq<RaceRecord>): (p: real)
    requires |s| > 0
    ensures forall i :: 0 <= i < |s| ==> p <= s[i].pace
    ensures exists i :: 0 <= i < |s| && p == s[i].pace
  {
    if |s| == 1 then s[0].pace
    else
      var init := s[..|s| - 1];
      assert forall i :: 0 <= i < |init| ==> init[i] == s[i];
      Min(BestPace(init), s[|s| - 1].pace)
  }

  /**
   * calculateStats: the number of records, the sum of their distances, the
   * least pace and the mean distance. Called only for non-empty data, so the
   * mean has no division by zero.
   */
  function CalculateStats(data: seq<RaceRecord>): (st: Stats)
    requires |data| > 0
    ensures st.totalRaces == |data|
    ensures st.totalDistance == TotalDistance(data)
    ensures st.avgDistance * (|data| as real) == st.totalDistance
    ensures forall i :: 0 <= i < |data| ==> st.bestPace <= data[i].pace
    ensures exists i :: 0 <= i < |data| && st.bestPace == data[i].pace
  {
    var total := TotalDistance(data);
    Stats(|data|, total, BestPace(data), total / (|data| as real))
  }

  // ---------------------------------------------------------------------------
  // The summary does not depend on the order of the records

  lemma {:induction false} TotalDistanceConcat(a: seq<RaceRecord>, b: seq<RaceRecord>)
    ensures TotalDistance(a + b) == TotalDistance(a) + TotalDistance(b)
  {
    if b != [] {
      var b' := b[..|b| - 1];
      assert (a + b)[..|a + b| - 1] == a + b';
      TotalDistanceConcat(a, b');
    } else {
      assert a + b == a;
    }
  }

  /** Taking record k out of the sequence takes its distance out of the total. */
  lemma TotalDistanceRemove(b: seq<RaceRecord>, k: nat)
    requires k < |b|
    ensures TotalDistance(b) == TotalDistance(b[..k] + b[k + 1..]) + b[k].distance
  {
    assert b == b[..k] + [b[k]] + b[k + 1..];
    TotalDistanceConcat(b[..k] + [b[k]], b[k + 1..]);
    TotalDistanceConcat(b[..k], [b[k]]);
    TotalDistanceConcat(b[..k], b[k + 1..]);
    assert [b[k]][..0] == [];
  }

  lemma MultisetRemove(a: seq<RaceRecord>, b: seq<RaceRecord>, k: nat)
    requires |a| > 0 && k < |b| && multiset(a) == multiset(b) && b[k] == a[|a| - 1]
    ensures multiset(a[..|a| - 1]) == multiset(b[..k] + b[k + 1..])
  {
    var x := a[|a| - 1];
    assert a == a[..|a| - 1] + [x];
    assert multiset(a) == multiset(a[..|a| - 1]) + multiset{x};
    assert b == b[..k] + [x] + b[k + 1..];
    assert multiset(b) == multiset(b[..k]) + multiset{x} + multiset(b[k + 1..]);
    assert multiset(b[..k] + b[k + 1..]) == multiset(b[..k]) + multiset(b[k + 1..]);
    assert multiset(a[..|a| - 1]) == multiset(a) - multiset{x};
    assert multiset(b[..k] + b[k + 1..]) == multiset(b) - multiset{x};
  }

  /** Reordering the records leaves the total distance unchanged. */
  lemma {:induction false} TotalDistancePermutation(a: seq<RaceRecord>, b: seq<RaceRecord>)
    requires multiset(a) == multiset(b)
    ensures TotalDistance(a) == TotalDistance(b)
  {
    if a == [] {
      assert |b| == |multiset(b)| == 0;
    } else {
      var x := a[|a| - 1];
      assert x in multiset(b);
      var k :| 0 <= k < |b| && b[k] == x;
      MultisetRemove(a, b, k);
      TotalDistancePermutation(a[..|a| - 1], b[..k] + b[k + 1..]);
      TotalDistanceRemove(b, k);
    }
  }

  /** Reordering the records leaves the best pace unchanged. */
  lemma BestPacePermutation(a: seq<RaceRecord>, b: seq<RaceRecord>)
    requires |a| > 0 && multiset(a) == multiset(b)
    ensures |b| > 0 && BestPace(a) == BestPace(b)
  {
    assert |b| == |multiset(b)| == |multiset(a)| == |a|;
    var i :| 0 <= i < |a| && BestPace(a) == a[i].pace;
    var j :| 0 <= j < |b| && BestPace(b) == b[j].pace;
    assert a[i] in multiset(b) && b[j] in multiset(a);
    var i' :| 0 <= i' < |b| && b[i'] == a[i];
    var j' :| 0 <= j' < |a| && a[j'] == b[j];
    assert BestPace(b) <= b[i'].pace == BestPace(a);
    assert BestPace(a) <= a[j'].pace == BestPace(b);
  }

  /** Two orderings of the same records give the same summary. */
  lemma StatsPermutation(a: seq<RaceRecord>, b: seq<RaceRecord>)
    requires |a| > 0 && multiset(a) == multiset(b)
    ensures |b| > 0 && CalculateStats(a) == CalculateStats(b)
  {
    BestPacePermutation(a, b);
    TotalDistancePermutation(a, b);
    assert |b| == |multiset(b)| == |multiset(a)| == |a|;
  }

  // ---------------------------------------------------------------------------
  // The statistics page component

  /** The answer to the `race_records_…` request: an error, or data (possibly none). */
  datatype FetchResponse = FetchResponse(failed: bool, data: Option<seq<RaceRecord>>)

  /** What the component renders, in the order of its early returns. */
  datatype Screen = SignInPrompt | Spinner | NoRaceData | Dashboard(stats: Stats, records: seq<RaceRecord>)

  class RaceChart {
    var user: Option<string>
    var loading: bool
    var raceData: seq<RaceRecord>
    var stats: Stats
    /** The user ids of the requests sent for race records, oldest first. */
    var requests: seq<string>
    var errorToasts: nat

    constructor (u: Option<string>)
      ensures user == u && loading && raceData == [] && stats == NoStats && requests == [] && errorToasts == 0
    {
      user := u;
      loading := true;
      raceData := [];
      stats := NoStats;
      requests := [];
      errorToasts := 0;
    }

    /** `user` changes and the effect on it runs: records are requested only for a signed-in user. */
    method UserChanged(u: Option<string>, response: FetchResponse)
      modifies this
      ensures user == u && stats == old(stats)
      ensures u.None? ==> loading == old(loading) && raceData == old(raceData)
                          && requests == old(requests) && errorToasts == old(errorToasts)
      ensures u.Some? ==> requests == old(requests) + [u.value] && !loading
      ensures u.Some? ==> raceData == if !response.failed && response.data.Some? then response.data.value
                                      else old(raceData)
      ensures errorToasts == old(errorToasts) + if u.Some? && response.failed then 1 else 0
    {
      user := u;
      if u.Some? {
        requests := requests + [u.value];
        if response.failed {
          errorToasts := errorToasts + 1;
        } else if response.data.Some? {
          raceData := response.data.value;
        }
        loading := false;
      }
    }

    /** The effect on `raceData`: the stats are recomputed only when there is data. */
    method RaceDataChanged()
      modifies this`stats
      ensures |raceData| > 0 ==> stats == CalculateStats(raceData)
      ensures |raceData| == 0 ==> stats == old(stats)
    {
      if |raceData| > 0 {
        stats := CalculateStats(raceData);
      }
    }

    /** The rendered screen: the summary cards appear only for a signed-in user with data. */
    function View(): (s: Screen)
      reads this
      ensures s.Dashboard? ==> user.Some? && !loading && |raceData| > 0 && s.records == raceData
      ensures s == SignInPrompt <==> user.None?
      ensures user.Some? && loading ==> s == Spinner
      ensures user.Some? && !loading && |raceData| == 0 ==> s == NoRaceData
      ensures user.Some? && !loading && |raceData| > 0 ==> s == Dashboard(stats, raceData)
    {
      if user.None? then SignInPrompt
      else if loading then Spinner
      else if |raceData| == 0 then NoRaceData
      else Dashboard(stats, raceData)
    }
  }
}
