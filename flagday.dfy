/**
 * The `FlagDay` entity of index.js: an anchor day, a name, an emoji and a
 * `recurring` flag. The anchor is a mutable field because the traversal
 * fallbacks shift the stored start of a recurring entry in place; the other
 * three fields are never written after construction.
 */
module FlagDays {
  import opened Optional
  import opened Dates

  /** The Danish flag, the constructor's default emoji. */
  const DanishFlag: string := "\U{1F1E9}\U{1F1F0}"

  /** The four fields of an entity, as plain values (also the constructor's arguments). */
  datatype FlagDayData = FlagDayData(anchor: Date, name: string, recurring: bool, emoji: string)

  /**
   * The options object of `with`: a `None` field is an absent (`undefined`) key.
   * A date override is a day and is therefore never falsy.
   */
  datatype Overrides = Overrides(date: Option<Date>, name: Option<string>, recurring: Option<bool>, emoji: Option<string>)

  const NoOverrides := Overrides(None, None, None, None)

  /** `options.x || this.x` for a string field: the empty string is falsy and is ignored. */
  function OrText(option: Option<string>, current: string): string {
    if option.Some? && option.value != "" then option.value else current
  }

  /**
   * The field values `with` hands to the constructor. `recurring` is taken
   * whenever it is given, even when false; name and emoji only when truthy;
   * a missing date keeps the anchor.
   */
  function Override(f: FlagDayData, o: Overrides): (r: FlagDayData)
    ensures r.anchor == f.anchor || o.date == Some(r.anchor)
    ensures o.date.Some? ==> r.anchor == o.date.value
    ensures r.name == f.name || (o.name == Some(r.name) && r.name != "")
    ensures o.name.Some? && o.name.value != "" ==> r.name == o.name.value
    ensures r.recurring == f.recurring || o.recurring == Some(r.recurring)
    ensures o.recurring.Some? ==> r.recurring == o.recurring.value
    ensures r.emoji == f.emoji || (o.emoji == Some(r.emoji) && r.emoji != "")
    ensures o.emoji.Some? && o.emoji.value != "" ==> r.emoji == o.emoji.value
  {
    FlagDayData(
      if o.date.Some? then o.date.value else f.anchor,
      OrText(o.name, f.name),
      if o.recurring.Some? then o.recurring.value else f.recurring,
      OrText(o.emoji, f.emoji))
  }

  class FlagDay {
    var anchor: Date
    const name: string
    const recurring: bool
    const emoji: string

    constructor(date: Date, name: string, recurring: bool := true, emoji: string := DanishFlag)
      ensures Data() == FlagDayData(date, name, recurring, emoji)
    {
      this.anchor := date;
      this.name := name;
      this.recurring := recurring;
      this.emoji := emoji;
    }

    function Data(): FlagDayData
      reads this
    {
      FlagDayData(anchor, name, recurring, emoji)
    }

    /**
     * Whether `q` is this flag day. A one-off day matches only its own anchor.
     * A recurring day (moment-recur's yearly rule) matches the anchor's month
     * and day in every year from the anchor's year on; that years before the
     * anchor are excluded is the library's range check, taken here as given.
     */
    predicate Matches(q: Date)
      reads this
      ensures q == anchor ==> Matches(q)
      ensures Matches(q) ==> q.month == anchor.month && q.day == anchor.day && !Before(q, anchor)
      ensures Matches(q) && q.year == anchor.year ==> q == anchor
    {
      if recurring then q.month == anchor.month && q.day == anchor.day && !Before(q, anchor)
      else q == anchor
    }

    /** A new entity with the given overrides applied; this one is left as it was. */
    method With(o: Overrides) returns (r: FlagDay)
      ensures fresh(r)
      ensures r.Data() == Override(old(Data()), o)
      ensures Data() == old(Data())
    {
      var f := Override(Data(), o);
      r := new FlagDay(f.anchor, f.name, f.recurring, f.emoji);
    }

    /**
     * -1, 0 or 1 as a's anchor is before, the same day as, or after b's. The
     * anchor is the start of a recurrence, so a later start year sorts later
     * whatever the day of the year.
     */
    static function Compare(a: FlagDay, b: FlagDay): (r: int)
      reads a, b
      ensures r == -1 <==> Before(a.anchor, b.anchor)
      ensures r == 1 <==> Before(b.anchor, a.anchor)
      ensures r == 0 <==> a.anchor == b.anchor
    {
      if Before(a.anchor, b.anchor) then -1
      else if Before(b.anchor, a.anchor) then 1
      else 0
    }
  }

  /** A one-off day matches exactly its anchor. */
  lemma OneOffMatchesOnlyItsDay(d: FlagDay, q: Date)
    requires !d.recurring
    ensures d.Matches(q) <==> q == d.anchor
    ensures q.year != d.anchor.year ==> !d.Matches(q)
  {
  }

  /** A recurring day matches its month and day in the anchor year and every later one. */
  lemma RecurringMatchesEveryLaterYear(d: FlagDay, n: nat)
    requires d.recurring
    ensures d.Matches(Date(d.anchor.year + n, d.anchor.month, d.anchor.day))
  {
  }

  /** A recurring day never matches another month or day, nor a year before its anchor. */
  lemma RecurringMatchesOnlyItsDay(d: FlagDay, q: Date)
    requires d.recurring
    requires q.month != d.anchor.month || q.day != d.anchor.day || q.year < d.anchor.year
    ensures !d.Matches(q)
  {
  }

  /** No flag day matches a day before its anchor. */
  lemma NoMatchBeforeAnchor(d: FlagDay, q: Date)
    requires Before(q, d.anchor)
    ensures !d.Matches(q)
  {
  }

  /** Both argument orders agree: compare(a, b) == -compare(b, a). */
  lemma CompareAntisymmetric(a: FlagDay, b: FlagDay)
    ensures FlagDay.Compare(a, b) == -FlagDay.Compare(b, a)
  {
  }

  /** A later anchor year compares later even when its day of the year is earlier. */
  lemma CompareYearFirst(a: FlagDay, b: FlagDay)
    requires a.anchor.year > b.anchor.year
    ensures FlagDay.Compare(a, b) == 1 && FlagDay.Compare(b, a) == -1
  {
  }

  /** compare is a total preorder: transitive on "not after". */
  lemma CompareTransitive(a: FlagDay, b: FlagDay, c: FlagDay)
    requires FlagDay.Compare(a, b) <= 0 && FlagDay.Compare(b, c) <= 0
    ensures FlagDay.Compare(a, c) <= 0
  {
  }

  /** `with()` without options copies every field. */
  lemma OverrideNothingIsCopy(f: FlagDayData)
    ensures Override(f, NoOverrides) == f
  {
  }

  /** Overrides are idempotent: applying the same options twice is applying them once. */
  lemma OverrideIdempotent(f: FlagDayData, o: Overrides)
    ensures Override(Override(f, o), o) == Override(f, o)
  {
  }

  /** `recurring: false` takes effect, while an empty name or emoji leaves the original. */
  lemma OverrideRecurringFalseButNotFalsyText(f: FlagDayData, n: string, e: string)
    ensures Override(f, Overrides(None, Some(n), Some(false), Some(e))).recurring == false
    ensures Override(f, Overrides(None, Some(""), None, Some(""))) == f
    ensures n != "" ==> Override(f, Overrides(None, Some(n), None, None)).name == n
  {
  }
}
