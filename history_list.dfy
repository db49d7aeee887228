/**
 * Today's history list: the entries whose ISO (UTC) date is today's,
 * newest first, and the "No entries today" branch when there are none.
 */
module HistoryList {
  import opened Entries
  import opened Clock
  import opened Stats

  /** Ordered by timestamp, newest first. */
  predicate NewestFirst(s: seq<Entry>)
  {
    forall i, j :: 0 <= i < j < |s| ==> s[i].timestamp >= s[j].timestamp
  }

  function HasTimestamp(t: int): Entry -> bool
  {
    (e: Entry) => e.timestamp == t
  }

  /** Inserts `x` before the first element that is not newer than it, so
      that `x` stays ahead of the entries it preceded with equal timestamps. */
  function InsertNewest(x: Entry, s: seq<Entry>): (r: seq<Entry>)
    ensures |r| == |s| + 1
  {
    if s == [] then [x]
    else if s[0].timestamp <= x.timestamp then [x] + s
    else [s[0]] + InsertNewest(x, s[1..])
  }

  /** Insertion adds `x` and keeps every other entry. */
  lemma {:induction false} InsertNewestPermutes(x: Entry, s: seq<Entry>)
    ensures multiset(InsertNewest(x, s)) == multiset(s) + multiset{x}
  {
    if s != [] && s[0].timestamp > x.timestamp {
      InsertNewestPermutes(x, s[1..]);
      assert s == [s[0]] + s[1..];
    }
  }

  lemma {:induction false} InsertNewestSorted(x: Entry, s: seq<Entry>)
    requires NewestFirst(s)
    ensures NewestFirst(InsertNewest(x, s))
  {
    if s != [] && s[0].timestamp > x.timestamp {
      var rest := InsertNewest(x, s[1..]);
      InsertNewestSorted(x, s[1..]);
      InsertNewestPermutes(x, s[1..]);
      forall j | 0 <= j < |rest| ensures s[0].timestamp >= rest[j].timestamp {
        assert rest[j] in multiset(rest);
        if rest[j] != x {
          assert rest[j] in s[1..];
        }
      }
      assert InsertNewest(x, s) == [s[0]] + rest;
    }
  }

  /** `.sort((a, b) => b.timestamp - a.timestamp)`: a stable sort, newest first. */
  function SortNewestFirst(s: seq<Entry>): (r: seq<Entry>)
    ensures multiset(r) == multiset(s)
    ensures NewestFirst(r)
  {
    if s == [] then [] else
      assert s == [s[0]] + s[1..];
      InsertNewestSorted(s[0], SortNewestFirst(s[1..]));
      InsertNewestPermutes(s[0], SortNewestFirst(s[1..]));
      InsertNewest(s[0], SortNewestFirst(s[1..]))
  }

  lemma FilterCons(a: Entry, s: seq<Entry>, p: Entry -> bool)
    ensures Filter([a] + s, p) == if p(a) then [a] + Filter(s, p) else Filter(s, p)
  {
    assert ([a] + s)[1..] == s;
    if !p(a) {
      assert [] + Filter(s, p) == Filter(s, p);
    }
  }

  /** Among entries with one timestamp, insertion puts `x` first, as if prepended. */
  lemma {:induction false} InsertNewestStable(x: Entry, s: seq<Entry>, t: int)
    ensures Filter(InsertNewest(x, s), HasTimestamp(t)) == Filter([x] + s, HasTimestamp(t))
  {
    var p := HasTimestamp(t);
    if s == [] {
      assert [x] + s == [x];
    } else if s[0].timestamp > x.timestamp {
      InsertNewestStable(x, s[1..], t);
      var rest := InsertNewest(x, s[1..]);
      assert s == [s[0]] + s[1..];
      StableStep(x, s[0], s[1..], rest, p);
    }
  }

  /** The inductive step: `y` is newer than `x`, so at most one of them has
      the timestamp `p` selects. */
  lemma StableStep(x: Entry, y: Entry, tail: seq<Entry>, rest: seq<Entry>, p: Entry -> bool)
    requires y.timestamp > x.timestamp
    requires forall e: Entry, f: Entry :: p(e) && p(f) ==> e.timestamp == f.timestamp
    requires Filter(rest, p) == Filter([x] + tail, p)
    ensures Filter([y] + rest, p) == Filter([x] + ([y] + tail), p)
  {
    FilterCons(y, rest, p);
    FilterCons(x, tail, p);
    FilterCons(x, [y] + tail, p);
    FilterCons(y, tail, p);
  }

  /** The sort is stable: entries with equal timestamps keep their relative order. */
  lemma {:induction false} SortNewestFirstStable(s: seq<Entry>, t: int)
    ensures Filter(SortNewestFirst(s), HasTimestamp(t)) == Filter(s, HasTimestamp(t))
  {
    if s != [] {
      SortNewestFirstStable(s[1..], t);
      InsertNewestStable(s[0], SortNewestFirst(s[1..]), t);
      assert ([s[0]] + SortNewestFirst(s[1..]))[1..] == SortNewestFirst(s[1..]);
    }
  }

  /** `todaysEntries`: the entries on now's UTC date, newest first. The input
      list is a value and is left as it was. */
  function TodaysEntries(entries: seq<Entry>, now: int): (r: seq<Entry>)
    ensures forall i :: 0 <= i < |r| ==> UtcDate(r[i].timestamp) == UtcDate(now)
    ensures forall i :: 0 <= i < |entries| && UtcDate(entries[i].timestamp) == UtcDate(now) ==> entries[i] in r
    ensures NewestFirst(r)
    ensures multiset(r) == multiset(Filter(entries, OnUtcDate(UtcDate(now))))
  {
    SortedFilterMembers(entries, OnUtcDate(UtcDate(now)));
    SortNewestFirst(Filter(entries, OnUtcDate(UtcDate(now))))
  }

  /** Sorting the kept entries keeps exactly them. */
  lemma SortedFilterMembers(s: seq<Entry>, p: Entry -> bool)
    ensures var r := SortNewestFirst(Filter(s, p));
      && (forall i :: 0 <= i < |r| ==> p(r[i]))
      && (forall i :: 0 <= i < |s| && p(s[i]) ==> s[i] in r)
  {
    var f := Filter(s, p);
    var r := SortNewestFirst(f);
    forall i | 0 <= i < |r| ensures p(r[i]) {
      assert r[i] in multiset(f);
    }
    forall i | 0 <= i < |s| && p(s[i]) ensures s[i] in r {
      assert s[i] in multiset(r);
    }
  }

  /** Entries of today with equal timestamps are listed in insertion order. */
  lemma TodaysEntriesStable(entries: seq<Entry>, now: int, t: int)
    ensures Filter(TodaysEntries(entries, now), HasTimestamp(t))
         == Filter(Filter(entries, OnUtcDate(UtcDate(now))), HasTimestamp(t))
  {
    SortNewestFirstStable(Filter(entries, OnUtcDate(UtcDate(now))), t);
  }

  /** What the component renders. */
  datatype HistoryView = NoEntriesToday | TodaysHistory(list: seq<Entry>)

  /** The empty-state branch is taken exactly when no entry is on now's UTC date. */
  function History(entries: seq<Entry>, now: int): (v: HistoryView)
    ensures v.NoEntriesToday? <==> forall i :: 0 <= i < |entries| ==> UtcDate(entries[i].timestamp) != UtcDate(now)
    ensures v.TodaysHistory? ==> v.list == TodaysEntries(entries, now) && |v.list| > 0
  {
    var todays := TodaysEntries(entries, now);
    if |todays| == 0 then NoEntriesToday else TodaysHistory(todays)
  }
}
