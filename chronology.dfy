/**
 * Newest-first ordering of time entries, as both entry lists order them with
 * `sort((a, b) => b.timestamp - a.timestamp)`. `Array.prototype.sort` is
 * stable, so the model is a stable insertion sort.
 */
module Chronology {
  import opened Schema

  /** Timestamps never increase from left to right. */
  predicate NewestFirst(s: seq<TimeEntry>) {
    forall i, j :: 0 <= i < j < |s| ==> s[i].timestamp >= s[j].timestamp
  }

  /** Puts `x` in front of the first entry that is not newer than it. */
  function Insert(x: TimeEntry, s: seq<TimeEntry>): seq<TimeEntry> {
    if s == [] || x.timestamp >= s[0].timestamp then [x] + s
    else [s[0]] + Insert(x, s[1..])
  }

  lemma {:induction false} InsertMultiset(x: TimeEntry, s: seq<TimeEntry>)
    ensures multiset(Insert(x, s)) == multiset(s) + multiset{x}
  {
    if !(s == [] || x.timestamp >= s[0].timestamp) {
      InsertMultiset(x, s[1..]);
      assert s == [s[0]] + s[1..];
    }
  }

  lemma {:induction false} InsertElements(x: TimeEntry, s: seq<TimeEntry>)
    ensures |Insert(x, s)| == |s| + 1
    ensures forall e :: e in Insert(x, s) ==> e == x || e in s
  {
    if !(s == [] || x.timestamp >= s[0].timestamp) {
      InsertElements(x, s[1..]);
    }
  }

  lemma {:induction false} InsertSorted(x: TimeEntry, s: seq<TimeEntry>)
    requires NewestFirst(s)
    ensures NewestFirst(Insert(x, s))
  {
    var r := Insert(x, s);
    if s == [] || x.timestamp >= s[0].timestamp {
      forall i, j | 0 <= i < j < |r| ensures r[i].timestamp >= r[j].timestamp {
        if i > 0 { assert r[i] == s[i - 1] && r[j] == s[j - 1]; }
        else if j > 1 { assert s[0].timestamp >= s[j - 1].timestamp; }
      }
    } else {
      var rest := Insert(x, s[1..]);
      assert NewestFirst(s[1..]);
      InsertSorted(x, s[1..]);
      InsertElements(x, s[1..]);
      forall k | 0 <= k < |rest| ensures s[0].timestamp >= rest[k].timestamp {
        assert rest[k] in rest;
        if rest[k] != x {
          var m :| 0 <= m < |s[1..]| && s[1..][m] == rest[k];
          assert s[m + 1] == rest[k];
        }
      }
      forall i, j | 0 <= i < j < |r| ensures r[i].timestamp >= r[j].timestamp {
        assert r[j] == rest[j - 1];
        if i > 0 { assert r[i] == rest[i - 1]; }
      }
    }
  }

  /** `[...entries].sort(newest first)`: a sorted copy; the input is a value and stays as it is. */
  function SortNewestFirst(s: seq<TimeEntry>): seq<TimeEntry> {
    if s == [] then [] else Insert(s[0], SortNewestFirst(s[1..]))
  }

  lemma {:induction false} SortPermutes(s: seq<TimeEntry>)
    ensures multiset(SortNewestFirst(s)) == multiset(s)
  {
    if s != [] {
      SortPermutes(s[1..]);
      InsertMultiset(s[0], SortNewestFirst(s[1..]));
      assert s == [s[0]] + s[1..];
    }
  }

  lemma {:induction false} SortOrders(s: seq<TimeEntry>)
    ensures NewestFirst(SortNewestFirst(s))
  {
    if s != [] {
      SortOrders(s[1..]);
      InsertSorted(s[0], SortNewestFirst(s[1..]));
    }
  }

  /** The sorted list is a permutation of the input, newest first. */
  lemma SortNewestFirstCorrect(s: seq<TimeEntry>)
    ensures multiset(SortNewestFirst(s)) == multiset(s)
    ensures |SortNewestFirst(s)| == |s|
    ensures NewestFirst(SortNewestFirst(s))
  {
    SortPermutes(s);
    SortOrders(s);
    assert |SortNewestFirst(s)| == |multiset(SortNewestFirst(s))|;
  }

  /** A list that is already newest first is left exactly as it is. */
  lemma {:induction false} SortKeepsSorted(s: seq<TimeEntry>)
    requires NewestFirst(s)
    ensures SortNewestFirst(s) == s
  {
    if s != [] {
      assert NewestFirst(s[1..]);
      SortKeepsSorted(s[1..]);
    }
  }

  /**
   * Cutting a newest-first list after `n` entries keeps it newest first, and
   * whatever is cut off is no newer than anything kept.
   */
  lemma PrefixOfNewestFirst(s: seq<TimeEntry>, n: nat)
    requires NewestFirst(s) && n <= |s|
    ensures NewestFirst(s[..n])
    ensures forall e, i :: 0 <= i < n && multiset(s[..n])[e] < multiset(s)[e] ==> e.timestamp <= s[i].timestamp
  {
    assert s == s[..n] + s[n..];
    forall e, i | 0 <= i < n && multiset(s[..n])[e] < multiset(s)[e]
      ensures e.timestamp <= s[i].timestamp
    {
      assert multiset(s) == multiset(s[..n]) + multiset(s[n..]);
      assert e in multiset(s[n..]);
      var k :| 0 <= k < |s[n..]| && s[n..][k] == e;
      assert s[n + k] == e;
    }
  }
}
