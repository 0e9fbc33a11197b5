/**
 * The three lookups of index.js over a list of flag days, and the stable sort
 * by `compare` that getNextFlagDay applies to its copy of the list.
 */
module Lookups {
  import opened Optional
  import opened Dates
  import opened FlagDays

  /** The tests the lookups' loops apply to one entry. */
  datatype Test =
    | MatchesDay(q: Date)    // entry.matches(q)
    | AnchorAfter(q: Date)   // the anchor isAfter q
    | AnchorBefore(q: Date)  // the anchor isBefore q
    | Recurs                 // a recurring entry (one with a recurrence start)

  predicate Holds(t: Test, d: FlagDay)
    reads d
  {
    match t
    case MatchesDay(q) => d.Matches(q)
    case AnchorAfter(q) => Before(q, d.anchor)
    case AnchorBefore(q) => Before(d.anchor, q)
    case Recurs => d.recurring
  }

  /** The entry at an optional index, or null (the JavaScript `undefined`). */
  function Element(s: seq<FlagDay>, k: Option<nat>): FlagDay?
    requires k.Some? ==> k.value < |s|
  {
    if k.Some? then s[k.value] else null
  }

  /** The least index below n whose entry passes `t`. */
  function FirstBelow(s: seq<FlagDay>, t: Test, n: nat): (k: Option<nat>)
    requires n <= |s|
    reads s
    ensures k.Some? ==> k.value < n && Holds(t, s[k.value])
    ensures k.Some? ==> forall j :: 0 <= j < k.value ==> !Holds(t, s[j])
    ensures k.None? <==> forall j :: 0 <= j < n ==> !Holds(t, s[j])
  {
    if n == 0 then None
    else
      var k := FirstBelow(s, t, n - 1);
      if k.Some? then k
      else if Holds(t, s[n - 1]) then Some(n - 1)
      else None
  }

  /** The greatest index below n whose entry passes `t`. */
  function LastBelow(s: seq<FlagDay>, t: Test, n: nat): (k: Option<nat>)
    requires n <= |s|
    reads s
    ensures k.Some? ==> k.value < n && Holds(t, s[k.value])
    ensures k.Some? ==> forall j :: k.value < j < n ==> !Holds(t, s[j])
    ensures k.None? <==> forall j :: 0 <= j < n ==> !Holds(t, s[j])
  {
    if n == 0 then None
    else if Holds(t, s[n - 1]) then Some(n - 1)
    else LastBelow(s, t, n - 1)
  }

  /**
   * Among the entries below n that pass `t`, the index of one with the
   * earliest anchor; of several with that anchor, the one listed first.
   */
  function EarliestBelow(s: seq<FlagDay>, t: Test, n: nat): (k: Option<nat>)
    requires n <= |s|
    reads s
    ensures k.Some? ==> k.value < n && Holds(t, s[k.value])
    ensures k.Some? ==> forall j :: 0 <= j < n && Holds(t, s[j]) ==> !Before(s[j].anchor, s[k.value].anchor)
    ensures k.Some? ==> forall j :: 0 <= j < k.value && Holds(t, s[j]) ==> Before(s[k.value].anchor, s[j].anchor)
    ensures k.None? <==> forall j :: 0 <= j < n ==> !Holds(t, s[j])
  {
    if n == 0 then None
    else
      var b := EarliestBelow(s, t, n - 1);
      var x := s[n - 1];
      if !Holds(t, x) then b
      else if b.Some? && !Before(x.anchor, s[b.value].anchor) then b
      else Some(n - 1)
  }

  function FirstIndex(s: seq<FlagDay>, t: Test): Option<nat>
    reads s
  {
    FirstBelow(s, t, |s|)
  }

  /** The first entry of the list that passes `t`, or null. */
  function FirstWhere(s: seq<FlagDay>, t: Test): FlagDay?
    reads s
  {
    Element(s, FirstBelow(s, t, |s|))
  }

  /** The last entry of the list that passes `t`, or null. */
  function LastWhere(s: seq<FlagDay>, t: Test): FlagDay?
    reads s
  {
    Element(s, LastBelow(s, t, |s|))
  }

  /** The passing entry with the earliest anchor, first listed among equals, or null. */
  function EarliestWhere(s: seq<FlagDay>, t: Test): FlagDay?
    reads s
  {
    Element(s, EarliestBelow(s, t, |s|))
  }

  /** Non-decreasing by `compare`: no entry's anchor is before an earlier entry's. */
  predicate Sorted(s: seq<FlagDay>)
    reads s
  {
    forall i, j :: 0 <= i < j < |s| ==> !Before(s[j].anchor, s[i].anchor)
  }

  /**
   * Stable insertion of `x` into a sorted list: it goes before the first entry
   * whose anchor is after its own, so after every entry that compares equal.
   */
  function Insert(s: seq<FlagDay>, x: FlagDay): (r: seq<FlagDay>)
    reads s, x
    ensures |r| == |s| + 1
    ensures multiset(r) == multiset(s) + multiset{x}
  {
    if |s| == 0 then [x]
    else if Before(x.anchor, s[0].anchor) then [x] + s
    else
      assert s == [s[0]] + s[1..];
      [s[0]] + Insert(s[1..], x)
  }

  /** The first n entries, stably sorted by anchor: insertion of each entry in turn. */
  function SortPrefix(s: seq<FlagDay>, n: nat): (r: seq<FlagDay>)
    requires n <= |s|
    reads s
    ensures |r| == n
    ensures multiset(r) == multiset(s[..n])
  {
    if n == 0 then []
    else
      var p := SortPrefix(s, n - 1);
      assert s[..n] == s[..n - 1] + [s[n - 1]];
      assert forall i :: 0 <= i < |p| ==> p[i] in multiset(p) && p[i] in multiset(s[..n - 1]) && p[i] in s;
      Insert(p, s[n - 1])
  }

  /**
   * `list.slice().sort(FlagDay.compare)`: a stable sort by anchor (the
   * ECMAScript sort is stable) of a copy of the list.
   */
  function Sort(s: seq<FlagDay>): (r: seq<FlagDay>)
    reads s
    ensures |r| == |s|
    ensures multiset(r) == multiset(s)
  {
    assert s[..|s|] == s;
    SortPrefix(s, |s|)
  }

  /** No entry of s sorts before h. */
  predicate NoneBefore(h: FlagDay, s: seq<FlagDay>)
    reads h, s
  {
    forall k :: 0 <= k < |s| ==> !Before(s[k].anchor, h.anchor)
  }

  lemma SortedCons(h: FlagDay, s: seq<FlagDay>)
    requires Sorted(s) && NoneBefore(h, s)
    ensures Sorted([h] + s)
  {
    var r := [h] + s;
    forall i, j | 0 <= i < j < |r| ensures !Before(r[j].anchor, r[i].anchor) {
      assert r[j] == s[j - 1];
      if i > 0 { assert r[i] == s[i - 1]; }
    }
  }

  lemma SortedTail(s: seq<FlagDay>)
    requires Sorted(s) && |s| > 0
    ensures Sorted(s[1..]) && NoneBefore(s[0], s[1..])
  {
  }

  /** A lower bound of the list and of x is a lower bound of the insertion. */
  lemma {:induction false} InsertKeepsBound(h: FlagDay, s: seq<FlagDay>, x: FlagDay)
    requires NoneBefore(h, s) && !Before(x.anchor, h.anchor)
    ensures NoneBefore(h, Insert(s, x))
  {
    if |s| > 0 && !Before(x.anchor, s[0].anchor) {
      InsertKeepsBound(h, s[1..], x);
    }
  }

  lemma {:induction false} InsertKeepsSorted(s: seq<FlagDay>, x: FlagDay)
    requires Sorted(s)
    ensures Sorted(Insert(s, x))
  {
    if |s| == 0 {
    } else if Before(x.anchor, s[0].anchor) {
      forall k | 0 <= k < |s| ensures !Before(s[k].anchor, x.anchor) {
        BeforeIsStrictTotalOrder(s[k].anchor, x.anchor, s[0].anchor);
      }
      SortedCons(x, s);
    } else {
      SortedTail(s);
      InsertKeepsSorted(s[1..], x);
      BeforeIsStrictTotalOrder(x.anchor, s[0].anchor, x.anchor);
      InsertKeepsBound(s[0], s[1..], x);
      SortedCons(s[0], Insert(s[1..], x));
    }
  }

  lemma {:induction false} SortPrefixIsSorted(s: seq<FlagDay>, n: nat)
    requires n <= |s|
    ensures Sorted(SortPrefix(s, n))
  {
    if n > 0 {
      SortPrefixIsSorted(s, n - 1);
      InsertKeepsSorted(SortPrefix(s, n - 1), s[n - 1]);
    }
  }

  /** The sorted copy is ordered by `compare` and is a permutation of the list. */
  lemma SortIsSortedPermutation(s: seq<FlagDay>)
    ensures Sorted(Sort(s))
    ensures multiset(Sort(s)) == multiset(s) && |Sort(s)| == |s|
  {
    SortPrefixIsSorted(s, |s|);
    assert s[..|s|] == s;
    assert |multiset(Sort(s))| == |multiset(s)|;
  }

  /** Every entry of the sorted copy is an entry of the list. */
  lemma SortKeepsEntries(s: seq<FlagDay>, i: nat)
    requires i < |Sort(s)|
    ensures Sort(s)[i] in s
  {
    SortIsSortedPermutation(s);
    assert Sort(s)[i] in multiset(Sort(s));
  }

  /** An entry that no entry of the list sorts after is appended at the end. */
  lemma {:induction false} InsertAtEnd(s: seq<FlagDay>, x: FlagDay)
    requires forall k :: 0 <= k < |s| ==> !Before(x.anchor, s[k].anchor)
    ensures Insert(s, x) == s + [x]
  {
    if |s| > 0 {
      InsertAtEnd(s[1..], x);
      assert s == [s[0]] + s[1..];
    }
  }

  lemma SortedLastIsLatest(s: seq<FlagDay>, n: nat)
    requires Sorted(s) && 0 < n <= |s|
    ensures forall k :: 0 <= k < n - 1 ==> !Before(s[n - 1].anchor, s[k].anchor)
  {
  }

  /** One step of sorting a prefix already in order: the next entry goes at the end. */
  lemma SortPrefixStep(s: seq<FlagDay>, n: nat)
    requires 0 < n <= |s|
    requires forall k :: 0 <= k < n - 1 ==> SortPrefix(s, n - 1)[k] == s[k]
    requires forall k :: 0 <= k < n - 1 ==> !Before(s[n - 1].anchor, s[k].anchor)
    ensures forall k :: 0 <= k < n ==> SortPrefix(s, n)[k] == s[k]
  {
    var p := SortPrefix(s, n - 1);
    forall k | 0 <= k < |p| ensures !Before(s[n - 1].anchor, p[k].anchor) {
      assert p[k] == s[k];
    }
    InsertAtEnd(p, s[n - 1]);
    assert SortPrefix(s, n) == p + [s[n - 1]];
  }

  lemma {:induction false} SortPrefixOfSorted(s: seq<FlagDay>, n: nat)
    requires Sorted(s) && n <= |s|
    ensures forall k :: 0 <= k < n ==> SortPrefix(s, n)[k] == s[k]
  {
    if n > 0 {
      SortPrefixOfSorted(s, n - 1);
      SortedLastIsLatest(s, n);
      SortPrefixStep(s, n);
    }
  }

  /** Sorting an already sorted list (such as the default catalog) leaves it as it is. */
  lemma SortOfSortedIsIdentity(s: seq<FlagDay>)
    requires Sorted(s)
    ensures Sort(s) == s
  {
    SortPrefixOfSorted(s, |s|);
  }

  /** The characterisation in FirstIndex's contract pins the index down. */
  lemma FirstIndexIs(s: seq<FlagDay>, t: Test, k: nat)
    requires k < |s| && Holds(t, s[k])
    requires forall j :: 0 <= j < k ==> !Holds(t, s[j])
    ensures FirstIndex(s, t) == Some(k)
  {
  }

  lemma FirstIndexConcatLeft(u: seq<FlagDay>, v: seq<FlagDay>, t: Test)
    requires FirstIndex(u, t).Some?
    ensures FirstIndex(u + v, t) == FirstIndex(u, t)
  {
    var k := FirstIndex(u, t).value;
    forall j | 0 <= j <= k ensures (u + v)[j] == u[j] {
    }
    FirstIndexIs(u + v, t, k);
  }

  /** No entry of u, nor any of the first k of v, passes: then none of the first |u| + k of u + v does. */
  lemma NonePassConcat(u: seq<FlagDay>, v: seq<FlagDay>, t: Test, k: nat)
    requires forall j :: 0 <= j < |u| ==> !Holds(t, u[j])
    requires k <= |v| && forall j :: 0 <= j < k ==> !Holds(t, v[j])
    ensures forall j :: 0 <= j < |u| + k ==> !Holds(t, (u + v)[j])
  {
    var w := u + v;
    forall j | 0 <= j < |u| + k ensures !Holds(t, w[j]) {
      if j < |u| { assert w[j] == u[j]; } else { assert w[j] == v[j - |u|]; }
    }
  }

  lemma FirstIndexConcatRight(u: seq<FlagDay>, v: seq<FlagDay>, t: Test)
    requires FirstIndex(u, t).None?
    ensures FirstIndex(u + v, t) == if FirstIndex(v, t).Some? then Some(|u| + FirstIndex(v, t).value) else None
  {
    var kv := FirstIndex(v, t);
    if kv.Some? {
      NonePassConcat(u, v, t, kv.value);
      assert (u + v)[|u| + kv.value] == v[kv.value];
      FirstIndexIs(u + v, t, |u| + kv.value);
    } else {
      NonePassConcat(u, v, t, |v|);
    }
  }

  /** The first entry of u + v that passes `t` is u's, if u has one, and otherwise v's. */
  lemma FirstWhereConcat(u: seq<FlagDay>, v: seq<FlagDay>, t: Test)
    ensures FirstWhere(u + v, t) == if FirstIndex(u, t).Some? then FirstWhere(u, t) else FirstWhere(v, t)
  {
    if FirstIndex(u, t).Some? {
      FirstIndexConcatLeft(u, v, t);
      assert (u + v)[FirstIndex(u, t).value] == u[FirstIndex(u, t).value];
    } else {
      FirstIndexConcatRight(u, v, t);
      if FirstIndex(v, t).Some? {
        assert (u + v)[|u| + FirstIndex(v, t).value] == v[FirstIndex(v, t).value];
      }
    }
  }

  lemma FirstWhereCons(h: FlagDay, s: seq<FlagDay>, t: Test)
    ensures FirstWhere([h] + s, t) == if Holds(t, h) then h else FirstWhere(s, t)
  {
    FirstWhereConcat([h], s, t);
    assert FirstWhere([h], t) == (if Holds(t, h) then h else null);
  }

  /**
   * Inserting x into a sorted list: the first entry that passes `t` becomes x
   * exactly when x passes and sorts strictly before the list's own first
   * passing entry.
   */
  lemma {:induction false} InsertFirstWhere(s: seq<FlagDay>, x: FlagDay, t: Test)
    requires Sorted(s)
    ensures FirstWhere(Insert(s, x), t) ==
      var f := FirstWhere(s, t);
      if Holds(t, x) && (f == null || Before(x.anchor, f.anchor)) then x else f
  {
    if |s| == 0 {
      assert FirstWhere([x], t) == (if Holds(t, x) then x else null);
    } else if Before(x.anchor, s[0].anchor) {
      FirstWhereCons(x, s, t);
      var k := FirstIndex(s, t);
      if k.Some? {
        assert k.value > 0 ==> !Before(s[k.value].anchor, s[0].anchor);
        BeforeIsStrictTotalOrder(x.anchor, s[0].anchor, s[k.value].anchor);
      }
    } else {
      SortedTail(s);
      InsertFirstWhere(s[1..], x, t);
      FirstWhereCons(s[0], Insert(s[1..], x), t);
      assert s == [s[0]] + s[1..];
      FirstWhereCons(s[0], s[1..], t);
    }
  }

  /** One more entry for EarliestBelow: it wins when it passes and sorts strictly before the current winner. */
  lemma EarliestStep(s: seq<FlagDay>, t: Test, n: nat, f: FlagDay?)
    requires 0 < n <= |s| && f == Element(s, EarliestBelow(s, t, n - 1))
    ensures Element(s, EarliestBelow(s, t, n)) ==
      if Holds(t, s[n - 1]) && (f == null || Before(s[n - 1].anchor, f.anchor)) then s[n - 1] else f
  {
  }

  /** One more entry for the sorted prefix: it is the first to pass when it passes and sorts first. */
  lemma SortPrefixFirstStep(s: seq<FlagDay>, t: Test, n: nat)
    requires 0 < n <= |s|
    ensures FirstWhere(SortPrefix(s, n), t) ==
      var f := FirstWhere(SortPrefix(s, n - 1), t);
      if Holds(t, s[n - 1]) && (f == null || Before(s[n - 1].anchor, f.anchor)) then s[n - 1] else f
  {
    SortPrefixIsSorted(s, n - 1);
    InsertFirstWhere(SortPrefix(s, n - 1), s[n - 1], t);
  }

  lemma {:induction false} SortPrefixFirstIsEarliest(s: seq<FlagDay>, t: Test, n: nat)
    requires n <= |s|
    ensures FirstWhere(SortPrefix(s, n), t) == Element(s, EarliestBelow(s, t, n))
  {
    if n > 0 {
      SortPrefixFirstIsEarliest(s, t, n - 1);
      EarliestStep(s, t, n, FirstWhere(SortPrefix(s, n - 1), t));
      SortPrefixFirstStep(s, t, n);
    }
  }

  /**
   * Scanning the stably sorted copy for the first entry that passes `t` finds
   * the entry with the earliest anchor among those that pass, and of several
   * with that anchor the one the caller listed first.
   */
  lemma SortFirstIsEarliest(s: seq<FlagDay>, t: Test)
    ensures FirstWhere(Sort(s), t) == EarliestWhere(s, t)
  {
    SortPrefixFirstIsEarliest(s, t, |s|);
  }

  /**
   * getFlagDay: the first entry, in list order, that matches `q`; null when
   * the list is empty or nothing matches.
   */
  method GetFlagDay(q: Date, days: seq<FlagDay>) returns (r: FlagDay?)
    ensures r == FirstWhere(days, MatchesDay(q))
  {
    for i := 0 to |days|
      invariant forall j :: 0 <= j < i ==> !Holds(MatchesDay(q), days[j])
    {
      if days[i].Matches(q) {
        return days[i];
      }
    }
    return null;
  }

  /** The characterisation in EarliestBelow's contract pins the index down. */
  lemma EarliestIs(s: seq<FlagDay>, t: Test, k: nat)
    requires k < |s| && Holds(t, s[k])
    requires forall j :: 0 <= j < |s| && Holds(t, s[j]) ==> !Before(s[j].anchor, s[k].anchor)
    requires forall j :: 0 <= j < k && Holds(t, s[j]) ==> Before(s[k].anchor, s[j].anchor)
    ensures EarliestBelow(s, t, |s|) == Some(k)
  {
    var i := EarliestBelow(s, t, |s|).value;
    BeforeIsStrictTotalOrder(s[i].anchor, s[k].anchor, s[k].anchor);
  }

  /** The characterisation in LastBelow's contract pins the index down. */
  lemma LastIndexIs(s: seq<FlagDay>, t: Test, k: nat)
    requires k < |s| && Holds(t, s[k])
    requires forall j :: k < j < |s| ==> !Holds(t, s[j])
    ensures LastBelow(s, t, |s|) == Some(k)
  {
  }

  /**
   * getNextFlagDay: scan the sorted copy for the first entry whose anchor is
   * after `q`; failing that, take the first recurring entry of the sorted
   * copy, move its own anchor a year later (moment's `add` works in place on
   * the entry the caller's list holds) and return a fresh flag day with that
   * anchor; null when the list has no recurring entry either.
   */
  method GetNextFlagDay(q: Date, days: seq<FlagDay>) returns (r: FlagDay?)
    modifies days
    ensures old(EarliestWhere(days, AnchorAfter(q))) != null ==>
      r == old(EarliestWhere(days, AnchorAfter(q))) &&
      forall d :: d in days ==> d.anchor == old(d.anchor)
    ensures old(EarliestWhere(days, AnchorAfter(q))) == null && old(EarliestWhere(days, Recurs)) != null ==>
      var e := old(EarliestWhere(days, Recurs));
      e.anchor == AddYears(old(e.anchor), 1) &&
      (forall d :: d in days && d != e ==> d.anchor == old(d.anchor)) &&
      r != null && fresh(r) && r.Data() == e.Data()
    ensures old(EarliestWhere(days, AnchorAfter(q))) == null && old(EarliestWhere(days, Recurs)) == null ==>
      r == null && forall d :: d in days ==> d.anchor == old(d.anchor)
  {
    var sorted := Sort(days);
    for i := 0 to |sorted|
      invariant forall j :: 0 <= j < i ==> !Holds(AnchorAfter(q), sorted[j])
    {
      if Before(q, sorted[i].anchor) {
        FirstIndexIs(sorted, AnchorAfter(q), i);
        SortFirstIsEarliest(days, AnchorAfter(q));
        return sorted[i];
      }
    }
    SortFirstIsEarliest(days, AnchorAfter(q));
    for i := 0 to |sorted|
      invariant forall j :: 0 <= j < i ==> !Holds(Recurs, sorted[j])
    {
      var e := sorted[i];
      if e.recurring {
        FirstIndexIs(sorted, Recurs, i);
        SortFirstIsEarliest(days, Recurs);
        SortKeepsEntries(days, i);
        e.anchor := AddYears(e.anchor, 1);
        r := e.With(Overrides(Some(e.anchor), None, None, None));
        return;
      }
    }
    SortFirstIsEarliest(days, Recurs);
    return null;
  }

  /**
   * getPreviousFlagDay: scan the list as given, from the back, for the last
   * entry whose anchor is before `q`; failing that, take the last recurring
   * entry, move its own anchor a year earlier (in place, as moment's
   * `subtract` does) and return a fresh flag day with that anchor; null when
   * the list has no recurring entry either.
   */
  method GetPreviousFlagDay(q: Date, days: seq<FlagDay>) returns (r: FlagDay?)
    modifies days
    ensures old(LastWhere(days, AnchorBefore(q))) != null ==>
      r == old(LastWhere(days, AnchorBefore(q))) &&
      forall d :: d in days ==> d.anchor == old(d.anchor)
    ensures old(LastWhere(days, AnchorBefore(q))) == null && old(LastWhere(days, Recurs)) != null ==>
      var e := old(LastWhere(days, Recurs));
      e.anchor == AddYears(old(e.anchor), -1) &&
      (forall d :: d in days && d != e ==> d.anchor == old(d.anchor)) &&
      r != null && fresh(r) && r.Data() == e.Data()
    ensures old(LastWhere(days, AnchorBefore(q))) == null && old(LastWhere(days, Recurs)) == null ==>
      r == null && forall d :: d in days ==> d.anchor == old(d.anchor)
  {
    var i := |days| - 1;
    while i >= 0
      invariant -1 <= i < |days|
      invariant forall j :: i < j < |days| ==> !Holds(AnchorBefore(q), days[j])
    {
      if Before(days[i].anchor, q) {
        LastIndexIs(days, AnchorBefore(q), i);
        return days[i];
      }
      i := i - 1;
    }
    i := |days| - 1;
    while i >= 0
      invariant -1 <= i < |days|
      invariant forall j :: i < j < |days| ==> !Holds(Recurs, days[j])
    {
      var e := days[i];
      if e.recurring {
        LastIndexIs(days, Recurs, i);
        e.anchor := AddYears(e.anchor, -1);
        r := e.With(Overrides(Some(e.anchor), None, None, None));
        return;
      }
      i := i - 1;
    }
    return null;
  }
}
