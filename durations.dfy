/** The duration resolver `getAvailableTimeSlots` of src/pages/Book.jsx. Durations are
    counted in half hours (1 is 0.5 h, 6 is 3 h), so the hour arithmetic of the source
    becomes integer arithmetic on minutes. */
module Durations {
  import opened Wrappers
  import opened Slots

  /** The catalogue [0.5, 1, 1.5, 2, 2.5, 3] in half hours. */
  const Catalogue: seq<nat> := [1, 2, 3, 4, 5, 6]

  /** The entries of `durations`, in order, that fit in `spare` minutes (0.5 h per unit). */
  function Fitting(durations: seq<nat>, spare: int): (r: seq<nat>)
    ensures |r| <= |durations|
    ensures forall d :: d in r <==> d in durations && 30 * d <= spare
  {
    if durations == [] then []
    else if 30 * durations[0] <= spare then [durations[0]] + Fitting(durations[1..], spare)
    else Fitting(durations[1..], spare)
  }

  /** `getAvailableTimeSlots(date, time)`: the catalogue entries that end no later than the
      closing time when starting at `time`; an unreadable time gives no durations. */
  function AvailableDurations(time: string): seq<nat> {
    match ParseClock(time)
    case None => []
    case Some(start) => Fitting(Catalogue, ClosingMinutes - start)
  }

  /** How many catalogue entries fit in `spare` minutes. */
  function FitCount(spare: int): (n: nat)
    ensures n <= |Catalogue|
  {
    if spare < 0 then 0 else if spare / 30 < 6 then spare / 30 else 6
  }

  predicate Ascending(s: seq<nat>) {
    forall i, j :: 0 <= i < j < |s| ==> s[i] < s[j]
  }

  /** Over an ascending list, the entries that fit are a prefix of it. */
  lemma {:induction false} FittingAscendingIsPrefix(durations: seq<nat>, spare: int)
    requires Ascending(durations)
    ensures exists n :: 0 <= n <= |durations| && Fitting(durations, spare) == durations[..n]
  {
    if durations == [] {
      assert Fitting(durations, spare) == durations[..0];
    } else if 30 * durations[0] <= spare {
      FittingAscendingIsPrefix(durations[1..], spare);
      var n :| 0 <= n <= |durations[1..]| && Fitting(durations[1..], spare) == durations[1..][..n];
      assert Fitting(durations, spare) == durations[..n + 1];
    } else {
      forall k | 0 <= k < |durations| ensures 30 * durations[k] > spare {
        if k > 0 { assert durations[0] < durations[k]; }
      }
      FittingNone(durations[1..], spare);
      assert Fitting(durations, spare) == durations[..0];
    }
  }

  lemma {:induction false} FittingNone(durations: seq<nat>, spare: int)
    requires forall k :: 0 <= k < |durations| ==> 30 * durations[k] > spare
    ensures Fitting(durations, spare) == []
  {
    if durations != [] {
      FittingNone(durations[1..], spare);
    }
  }

  /** The result is exactly the first FitCount entries of the catalogue. */
  lemma CatalogueFitting(spare: int)
    ensures Fitting(Catalogue, spare) == Catalogue[..FitCount(spare)]
  {
    assert Ascending(Catalogue);
    FittingAscendingIsPrefix(Catalogue, spare);
    var n :| 0 <= n <= 6 && Fitting(Catalogue, spare) == Catalogue[..n];
    var r := Fitting(Catalogue, spare);
    if n < 6 {
      assert Catalogue[n] !in r;
      assert 30 * Catalogue[n] > spare;
    }
    if n > 0 {
      assert Catalogue[n - 1] in r;
    }
  }

  /** The resolver keeps catalogue order and keeps exactly the durations that end by the closing time. */
  lemma AvailableDurationsMeaning(time: string, d: nat)
    requires ParseClock(time).Some?
    ensures d in AvailableDurations(time) <==>
      d in Catalogue && ParseClock(time).value + 30 * d <= ClosingMinutes
    ensures AvailableDurations(time) == Catalogue[..FitCount(ClosingMinutes - ParseClock(time).value)]
  {
    CatalogueFitting(ClosingMinutes - ParseClock(time).value);
  }

  /** Never more than the six catalogue entries. */
  lemma AvailableDurationsBounded(time: string)
    ensures |AvailableDurations(time)| <= 6
    ensures forall d :: d in AvailableDurations(time) ==> d in Catalogue
  {
  }

  /** A later start offers a prefix of what an earlier start offers. */
  lemma AvailableDurationsMonotone(earlier: string, later: string)
    requires ParseClock(earlier).Some? && ParseClock(later).Some?
    requires ParseClock(earlier).value <= ParseClock(later).value
    ensures AvailableDurations(later) <= AvailableDurations(earlier)
  {
    AvailableDurationsMeaning(earlier, 0);
    AvailableDurationsMeaning(later, 0);
    var a := FitCount(ClosingMinutes - ParseClock(earlier).value);
    var b := FitCount(ClosingMinutes - ParseClock(later).value);
    assert b <= a;
    assert Catalogue[..b] == Catalogue[..a][..b];
  }

  /** 22:30 leaves half an hour. */
  lemma LateStartExample()
    ensures AvailableDurations("22:30") == [1]
  {
    AvailableDurationsMeaning("22:30", 0);
  }

  /** A start at the closing time leaves nothing. */
  lemma ClosingStartExample()
    ensures AvailableDurations("23:00") == []
  {
    AvailableDurationsMeaning("23:00", 0);
  }

  /** Any start up to 20:00 gets the whole catalogue. */
  lemma EarlyStartFullCatalogue(time: string)
    requires ParseClock(time).Some? && ParseClock(time).value <= 20 * 60
    ensures AvailableDurations(time) == Catalogue
  {
    AvailableDurationsMeaning(time, 0);
  }
}
