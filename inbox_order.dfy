/** The inbox listing of app.js: message summaries as the provider lists
    them, and the newest-first sort `fetchInbox` applies before rendering. */
module InboxOrder {
  import opened Wrappers

  /** One entry of the provider's message list. */
  datatype Summary = Summary(id: int, from: Option<string>, subject: Option<string>, date: string)

  /** The order the comparator puts on date strings: lexicographic by
      character code, a total preorder on all strings. */
  predicate DateLeq(a: string, b: string)
    decreases |a|
  {
    a == [] || (b != [] && (a[0] < b[0] || (a[0] == b[0] && DateLeq(a[1..], b[1..]))))
  }

  lemma {:induction false} DateLeqTotal(a: string, b: string)
    ensures DateLeq(a, b) || DateLeq(b, a)
    decreases |a|
  {
    if a != [] && b != [] && a[0] == b[0] {
      DateLeqTotal(a[1..], b[1..]);
    }
  }

  lemma {:induction false} DateLeqTransitive(a: string, b: string, c: string)
    requires DateLeq(a, b) && DateLeq(b, c)
    ensures DateLeq(a, c)
    decreases |a|
  {
    if a != [] && a[0] == b[0] && b[0] == c[0] {
      DateLeqTransitive(a[1..], b[1..], c[1..]);
    }
  }

  /** Newest first: every message's date is at least that of every message after it. */
  predicate NewestFirst(ms: seq<Summary>) {
    forall i, j :: 0 <= i < j < |ms| ==> DateLeq(ms[j].date, ms[i].date)
  }

  /** The messages carrying date d, in list order. */
  function WithDate(ms: seq<Summary>, d: string): seq<Summary> {
    if ms == [] then []
    else (if ms[0].date == d then [ms[0]] else []) + WithDate(ms[1..], d)
  }

  /** Filtering by date distributes over concatenation. */
  lemma {:induction false} WithDateAppend(a: seq<Summary>, b: seq<Summary>, d: string)
    ensures WithDate(a + b, d) == WithDate(a, d) + WithDate(b, d)
  {
    if a == [] {
      assert a + b == b;
    } else {
      assert (a + b)[0] == a[0] && (a + b)[1..] == a[1..] + b;
      WithDateAppend(a[1..], b, d);
    }
  }

  /** A list with no message of date d filters to nothing. */
  lemma {:induction false} WithDateNone(ms: seq<Summary>, d: string)
    requires forall k :: 0 <= k < |ms| ==> ms[k].date != d
    ensures WithDate(ms, d) == []
  {
    if ms != [] {
      WithDateNone(ms[1..], d);
    }
  }

  /** `arr.sort((a, b) => b.date.localeCompare(a.date))`, as an insertion
      sort: the result is ordered newest first and holds exactly the
      listed messages. Each message goes after every message at least as
      new as it, so the sort is stable, as `Array.prototype.sort` is:
      messages with the same date keep their listed order. */
  method SortNewestFirst(ms: seq<Summary>) returns (sorted: seq<Summary>)
    ensures NewestFirst(sorted)
    ensures multiset(sorted) == multiset(ms)
    ensures forall d :: WithDate(sorted, d) == WithDate(ms, d)
  {
    sorted := [];
    var i := 0;
    while i < |ms|
      invariant 0 <= i <= |ms|
      invariant NewestFirst(sorted)
      invariant multiset(sorted) == multiset(ms[..i])
      invariant forall d :: WithDate(sorted, d) == WithDate(ms[..i], d)
    {
      var m := ms[i];
      var j := 0;
      while j < |sorted| && DateLeq(m.date, sorted[j].date)
        invariant 0 <= j <= |sorted|
        invariant forall k :: 0 <= k < j ==> DateLeq(m.date, sorted[k].date)
      {
        j := j + 1;
      }
      InsertKeepsOrder(sorted, m, j);
      NothingOfDateAfter(sorted, m, j);
      InsertKeepsDateOrder(sorted, ms[..i], m, j);
      assert ms[..i + 1] == ms[..i] + [m];
      assert sorted == sorted[..j] + sorted[j..];
      sorted := sorted[..j] + [m] + sorted[j..];
      i := i + 1;
    }
    assert ms[..|ms|] == ms;
  }

  /** Inserting m at j keeps the order when everything before j is at
      least as new as m and the entry at j (if any) is older. */
  lemma InsertKeepsOrder(s: seq<Summary>, m: Summary, j: nat)
    requires NewestFirst(s) && j <= |s|
    requires forall k :: 0 <= k < j ==> DateLeq(m.date, s[k].date)
    requires j < |s| ==> !DateLeq(m.date, s[j].date)
    ensures NewestFirst(s[..j] + [m] + s[j..])
  {
    var r := s[..j] + [m] + s[j..];
    if j < |s| {
      DateLeqTotal(m.date, s[j].date);
      forall k | j <= k < |s| ensures DateLeq(s[k].date, m.date) {
        if k > j {
          DateLeqTransitive(s[k].date, s[j].date, m.date);
        }
      }
    }
    forall a, b | 0 <= a < b < |r| ensures DateLeq(r[b].date, r[a].date) {
      if a < j && b == j {
      } else if a == j {
        assert r[b] == s[b - 1];
      } else if a < j && b > j {
        assert r[a] == s[a] && r[b] == s[b - 1];
      } else if b < j {
        assert r[a] == s[a] && r[b] == s[b];
      } else {
        assert r[a] == s[a - 1] && r[b] == s[b - 1];
      }
    }
  }

  /** Nothing of m's date comes at or after the first entry older than m. */
  lemma NothingOfDateAfter(s: seq<Summary>, m: Summary, j: nat)
    requires NewestFirst(s) && j <= |s|
    requires j < |s| ==> !DateLeq(m.date, s[j].date)
    ensures WithDate(s[j..], m.date) == []
  {
    var after := s[j..];
    forall k | 0 <= k < |after| ensures after[k].date != m.date {
      DateLeqTotal(m.date, m.date);
      if k > 0 {
        assert after[k] == s[j + k] && DateLeq(s[j + k].date, s[j].date);
      }
    }
    WithDateNone(after, m.date);
  }

  /** Inserting m at j, before every entry of its own date that follows,
      puts m after the entries of its date and changes no other date's list. */
  lemma InsertAtDate(s: seq<Summary>, m: Summary, j: nat, d: string)
    requires j <= |s| && WithDate(s[j..], m.date) == []
    ensures WithDate(s[..j] + [m] + s[j..], d) == WithDate(s, d) + (if m.date == d then [m] else [])
  {
    assert [m][1..] == [];
    WithDateAppend(s[..j] + [m], s[j..], d);
    WithDateAppend(s[..j], [m], d);
    WithDateAppend(s[..j], s[j..], d);
    assert s[..j] + s[j..] == s;
  }

  /** One step of the sort keeps, for every date, the listed order of the
      messages seen so far. */
  lemma InsertKeepsDateOrder(sorted: seq<Summary>, seen: seq<Summary>, m: Summary, j: nat)
    requires j <= |sorted| && WithDate(sorted[j..], m.date) == []
    requires forall d :: WithDate(sorted, d) == WithDate(seen, d)
    ensures forall d :: WithDate(sorted[..j] + [m] + sorted[j..], d) == WithDate(seen + [m], d)
  {
    forall d ensures WithDate(sorted[..j] + [m] + sorted[j..], d) == WithDate(seen + [m], d) {
      InsertAtDate(sorted, m, j, d);
      WithDateAppend(seen, [m], d);
      assert [m][1..] == [];
    }
  }
}
