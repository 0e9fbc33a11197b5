/**
 * The default catalog of index.js: the Danish official flag days, recurring
 * from 2018, followed by the one-off days of 2018, sorted by `compare`.
 */
module Catalog {
  import opened Dates
  import opened FlagDays
  import opened Lookups

  const EuropeanFlag: string := "\U{1F1EA}\U{1F1FA}"
  const UnitedNationsFlag: string := "\U{1F1FA}\U{1F1F3}"
  const RainbowFlag: string := "\U{1F3F3}\U{FE0F}\U{200D}\U{1F308}"

  /** A recurring entry of 2018 with the default emoji. */
  function Yearly(month: int, day: int, name: string): FlagDayData {
    FlagDayData(Date(2018, month, day), name, true, DanishFlag)
  }

  /** A one-off entry of 2018. */
  function Once(month: int, day: int, name: string, emoji: string): FlagDayData {
    FlagDayData(Date(2018, month, day), name, false, emoji)
  }

  /** The constructor arguments of the catalog, in the order they are written. */
  const Literals: seq<FlagDayData> := [
    Yearly(1, 1, "Nytårsdag"),
    Yearly(2, 5, "Kronprinsesse Marys fødselsdag"),
    Yearly(2, 6, "Prinsesse Maries fødselsdag"),
    Yearly(3, 23, "Nordens dag"),
    Yearly(4, 9, "Danmarks besættelse 1940"),
    Yearly(4, 16, "Dronning Margrethes fødselsdag"),
    Yearly(4, 29, "Prinsesse Benediktes fødselsdag"),
    Yearly(5, 1, "Arbejdernes kampdag"),
    Yearly(5, 4, "Danmarks Befrielsesdag"),
    Yearly(5, 5, "Danmarks befrielse 1945"),
    Yearly(5, 6, "Børnehjælpsdagen"),
    FlagDayData(Date(2018, 5, 9), "Europadag", true, EuropeanFlag),
    Yearly(5, 26, "Kronprins Frederiks fødselsdag"),
    Yearly(6, 5, "Grundlovsdag"),
    Yearly(6, 7, "Prins Joachims fødselsdag"),
    Yearly(6, 15, "Valdemarsdag og Genforeningsdag"),
    Yearly(9, 5, "Danmarks Udsendte"),
    FlagDayData(Date(2018, 10, 24), "FN-dag", true, UnitedNationsFlag),
    Yearly(12, 25, "Juledag"),
    Once(3, 30, "Langfredag", DanishFlag),
    Once(4, 1, "Påskedag", DanishFlag),
    Once(8, 13, "Copenhagen Pride", RainbowFlag),
    Once(8, 14, "Copenhagen Pride", RainbowFlag),
    Once(8, 15, "Copenhagen Pride", RainbowFlag),
    Once(8, 16, "Copenhagen Pride", RainbowFlag),
    Once(8, 17, "Copenhagen Pride", RainbowFlag),
    Once(8, 18, "Copenhagen Pride", RainbowFlag),
    Once(8, 19, "Copenhagen Pride", RainbowFlag)
  ]

  /** The catalog has 28 entries, the first 19 recurring and the last 9 one-off. */
  lemma LiteralsShape()
    ensures |Literals| == 28
    ensures forall i :: 0 <= i < 19 ==> Literals[i].recurring
    ensures forall i :: 19 <= i < |Literals| ==> !Literals[i].recurring
  {
  }

  /** Every catalog anchor is a valid day of 2018, and none is a 29 February. */
  lemma LiteralsAreDaysOf2018()
    ensures forall i :: 0 <= i < |Literals| ==>
      Valid(Literals[i].anchor) && Literals[i].anchor.year == 2018 &&
      !(Literals[i].anchor.month == 2 && Literals[i].anchor.day == 29)
  {
    assert !IsLeapYear(2018);
  }

  /**
   * `flagDays`: one fresh entity per literal, then sorted by `compare`.
   * `built` is the list as written, before the sort.
   */
  method DefaultCatalog() returns (days: seq<FlagDay>, ghost built: seq<FlagDay>)
    ensures |built| == |Literals|
    ensures forall i :: 0 <= i < |built| ==> fresh(built[i]) && built[i].Data() == Literals[i]
    ensures Sorted(days) && multiset(days) == multiset(built)
  {
    var written: seq<FlagDay> := [];
    for i := 0 to |Literals|
      invariant |written| == i
      invariant forall j :: 0 <= j < i ==> fresh(written[j]) && written[j].Data() == Literals[j]
    {
      var f := Literals[i];
      var d := new FlagDay(f.anchor, f.name, f.recurring, f.emoji);
      written := written + [d];
    }
    days := Sort(written);
    built := written;
    SortIsSortedPermutation(built);
  }
}
