/**
 * The cases of index.test.js, replayed on the model: each method builds the
 * flag days a test builds and states what the test expects of the lookup.
 */
module Scenarios {
  import opened Optional
  import opened Dates
  import opened FlagDays
  import opened Lookups

  /** A one-off day matches its own date only; a recurring one also matches a later year. */
  method MatchesCases() returns (same: bool, other: bool, later: bool, laterOneOff: bool)
    ensures same && !other && later && !laterOneOff
  {
    var d := new FlagDay(Date(2018, 1, 1), "Day 1");
    var once := new FlagDay(Date(2018, 1, 1), "Day 1", false);
    same := d.Matches(Date(2018, 1, 1));
    other := d.Matches(Date(2018, 1, 2));
    later := d.Matches(Date(2019, 1, 1));
    laterOneOff := once.Matches(Date(2019, 1, 1));
  }

  /** `with({ recurring: false, name: 'Day 2' })` returns a new entity with those two fields. */
  method WithCase() returns (original: FlagDay, copy: FlagDay)
    ensures original != copy
    ensures copy.Data() == FlagDayData(Date(2018, 1, 1), "Day 2", false, DanishFlag)
    ensures original.Data() == FlagDayData(Date(2018, 1, 1), "Day 1", true, DanishFlag)
  {
    original := new FlagDay(Date(2018, 1, 1), "Day 1", true);
    copy := original.With(Overrides(None, Some("Day 2"), Some(false), None));
  }

  /** getFlagDay: a recurring entry is found a year later; a one-off one is not. */
  method GetFlagDayCases() returns (recurringHit: FlagDay?, oneOffMiss: FlagDay?, days: seq<FlagDay>)
    ensures |days| == 1 && recurringHit == days[0] && oneOffMiss == null
  {
    var d := new FlagDay(Date(2018, 1, 1), "Day 1", true);
    days := [d];
    FirstIndexIs(days, MatchesDay(Date(2019, 1, 1)), 0);
    recurringHit := GetFlagDay(Date(2019, 1, 1), days);
    var once := new FlagDay(Date(2018, 1, 1), "Day 1", false);
    oneOffMiss := GetFlagDay(Date(2019, 1, 1), [once]);
  }

  /** getNextFlagDay returns the very entry that lies after the query. */
  method NextAfterCase() returns (r: FlagDay?, days: seq<FlagDay>)
    ensures |days| == 1 && r == days[0]
  {
    var d := new FlagDay(Date(2018, 3, 3), "Day 1", false);
    days := [d];
    EarliestIs(days, AnchorAfter(Date(2018, 2, 2)), 0);
    r := GetNextFlagDay(Date(2018, 2, 2), days);
  }

  /** getPreviousFlagDay returns the very entry that lies before the query. */
  method PreviousBeforeCase() returns (r: FlagDay?, days: seq<FlagDay>)
    ensures |days| == 1 && r == days[0]
  {
    var d := new FlagDay(Date(2018, 1, 1), "Day 1", false);
    days := [d];
    LastIndexIs(days, AnchorBefore(Date(2018, 2, 2)), 0);
    r := GetPreviousFlagDay(Date(2018, 2, 2), days);
  }

  /** The five entries of the fallback tests: days 1 to 5 of a month, days 2 and 4 recurring. */
  method FiveDays(month: int) returns (days: seq<FlagDay>)
    ensures |days| == 5 && forall i :: 0 <= i < 5 ==> fresh(days[i])
    ensures days[0].Data() == FlagDayData(Date(2018, month, 1), "Day 1", false, DanishFlag)
    ensures days[1].Data() == FlagDayData(Date(2018, month, 2), "Day 2", true, DanishFlag)
    ensures days[2].Data() == FlagDayData(Date(2018, month, 3), "Day 3", false, DanishFlag)
    ensures days[3].Data() == FlagDayData(Date(2018, month, 4), "Day 4", true, DanishFlag)
    ensures days[4].Data() == FlagDayData(Date(2018, month, 5), "Day 5", false, DanishFlag)
  {
    var d1 := new FlagDay(Date(2018, month, 1), "Day 1", false);
    var d2 := new FlagDay(Date(2018, month, 2), "Day 2", true);
    var d3 := new FlagDay(Date(2018, month, 3), "Day 3", false);
    var d4 := new FlagDay(Date(2018, month, 4), "Day 4", true);
    var d5 := new FlagDay(Date(2018, month, 5), "Day 5", false);
    days := [d1, d2, d3, d4, d5];
  }

  /**
   * getNextFlagDay with nothing after the query: the first recurring entry, a
   * year later; the entry in the caller's list has moved with it.
   */
  method NextFallbackCase() returns (r: FlagDay?, days: seq<FlagDay>)
    ensures r != null && r.Data() == FlagDayData(Date(2019, 1, 2), "Day 2", true, DanishFlag)
    ensures |days| == 5 && days[1].anchor == Date(2019, 1, 2) && days[3].anchor == Date(2018, 1, 4)
  {
    days := FiveDays(1);
    var q := Date(2018, 2, 2);
    assert EarliestWhere(days, AnchorAfter(q)) == null by {
      assert forall j :: 0 <= j < |days| ==> !Holds(AnchorAfter(q), days[j]);
    }
    assert EarliestWhere(days, Recurs) == days[1] by {
      EarliestIs(days, Recurs, 1);
    }
    r := GetNextFlagDay(q, days);
  }

  /**
   * getPreviousFlagDay with nothing before the query: the last recurring
   * entry, a year earlier, moved in the caller's list as well.
   */
  method PreviousFallbackCase() returns (r: FlagDay?, days: seq<FlagDay>)
    ensures r != null && r.Data() == FlagDayData(Date(2017, 2, 4), "Day 4", true, DanishFlag)
    ensures |days| == 5 && days[3].anchor == Date(2017, 2, 4) && days[1].anchor == Date(2018, 2, 2)
  {
    days := FiveDays(2);
    var q := Date(2018, 1, 1);
    assert LastWhere(days, AnchorBefore(q)) == null by {
      assert forall j :: 0 <= j < |days| ==> !Holds(AnchorBefore(q), days[j]);
    }
    assert LastWhere(days, Recurs) == days[3] by {
      LastIndexIs(days, Recurs, 3);
    }
    r := GetPreviousFlagDay(q, days);
  }

  /** Both traversals return none for an empty list or for a one-off day on the wrong side. */
  method EmptyCases() returns (a: FlagDay?, b: FlagDay?, c: FlagDay?, e: FlagDay?)
    ensures a == null && b == null && c == null && e == null
  {
    a := GetNextFlagDay(Date(2018, 1, 1), []);
    b := GetPreviousFlagDay(Date(2018, 1, 1), []);
    var early := new FlagDay(Date(2018, 1, 1), "Day 1", false);
    c := GetNextFlagDay(Date(2018, 2, 2), [early]);
    var late := new FlagDay(Date(2018, 2, 2), "Day 1", false);
    e := GetPreviousFlagDay(Date(2018, 1, 1), [late]);
  }
}
