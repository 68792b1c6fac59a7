/**
 * Main.sortByValue and the report lines: the table's entries listed from the
 * largest total to the smallest, each written as "<key> <total>".
 */
module Report {
  import opened Wrappers
  import opened Numbers

  /** One entry of the sorted map: a folded-stack key and its total. */
  datatype Row = Row(key: string, total: nat)

  /** Totals never increase along the rows. */
  predicate Descending(rows: seq<Row>)
  {
    forall i, j :: 0 <= i < j < |rows| ==> rows[i].total >= rows[j].total
  }

  predicate DistinctKeys(rows: seq<Row>)
  {
    forall i, j :: 0 <= i < j < |rows| ==> rows[i].key != rows[j].key
  }

  /** The rows hold the key-total pairs of `m`, each once, none added and none changed. */
  predicate SameEntries(rows: seq<Row>, m: map<string, nat>)
  {
    && DistinctKeys(rows)
    && (forall i :: 0 <= i < |rows| ==> rows[i].key in m && m[rows[i].key] == rows[i].total)
    && (forall k :: k in m ==> Row(k, m[k]) in rows)
  }

  /** What sortByValue promises of its result. */
  predicate IsReportOf(rows: seq<Row>, m: map<string, nat>)
  {
    SameEntries(rows, m) && Descending(rows)
  }

  /** One line of the output file: key + " " + total. */
  function RenderRow(row: Row): string
  {
    row.key + " " + DecimalText(row.total)
  }

  /** A line starts with its key and a space, and the rest reads back as its total. */
  lemma RenderRowReadsBack(row: Row)
    requires row.total <= LongMax
    ensures var line := RenderRow(row);
      |line| > |row.key| && line[..|row.key|] == row.key && line[|row.key|] == ' '
      && ParseLong(line[|row.key| + 1..]) == Some(row.total)
  {
    var line := RenderRow(row);
    assert line[|row.key| + 1..] == DecimalText(row.total);
    ParseDecimal(row.total);
  }

  /** With distinct keys, a row occurs at most once. */
  lemma {:induction false} DistinctKeysCount(rows: seq<Row>, x: Row)
    requires DistinctKeys(rows)
    ensures multiset(rows)[x] <= 1
  {
    if rows != [] {
      var last := rows[|rows| - 1];
      var init := rows[..|rows| - 1];
      assert rows == init + [last];
      DistinctKeysCount(init, x);
      if x == last {
        assert x !in init;
      }
    }
  }

  /** Reordering rows that hold the pairs of a map keeps them the pairs of that map. */
  lemma PermutationKeepsEntries(l: seq<Row>, r: seq<Row>, m: map<string, nat>)
    requires SameEntries(l, m) && multiset(l) == multiset(r)
    ensures SameEntries(r, m)
  {
    forall i | 0 <= i < |r|
      ensures r[i].key in m && m[r[i].key] == r[i].total
    {
      assert r[i] in multiset(l);
    }
    forall k | k in m
      ensures Row(k, m[k]) in r
    {
      assert Row(k, m[k]) in multiset(r);
    }
    forall i, j | 0 <= i < j < |r|
      ensures r[i].key != r[j].key
    {
      if r[i].key == r[j].key {
        var x := r[i];
        assert r[j] == x;
        assert r == r[..j] + r[j..];
        assert x in r[..j] && x in r[j..];
        assert multiset(r)[x] == multiset(r[..j])[x] + multiset(r[j..])[x];
        DistinctKeysCount(l, x);
        assert false;
      }
    }
  }

  /** Rows holding the pairs of a map are as many as its keys. */
  lemma {:induction false} ReportLength(rows: seq<Row>, m: map<string, nat>)
    requires SameEntries(rows, m)
    ensures |rows| == |m|
  {
    if rows == [] {
      assert m.Keys == {};
    } else {
      var init, last := rows[..|rows| - 1], rows[|rows| - 1];
      var rest := m - {last.key};
      forall k | k in rest
        ensures Row(k, rest[k]) in init
      {
        assert Row(k, m[k]) in rows;
        assert rows == init + [last];
      }
      forall i | 0 <= i < |init|
        ensures init[i].key in rest
      {
        assert rows[i] == init[i];
      }
      ReportLength(init, rest);
    }
  }

  /** Totals of distinct keys differ: ties cannot occur. */
  predicate DistinctTotals(m: map<string, nat>)
  {
    forall k1, k2 :: k1 in m && k2 in m && k1 != k2 ==> m[k1] != m[k2]
  }

  /** The first row of a report holds the largest total of the map. */
  lemma ReportHeadMax(rows: seq<Row>, m: map<string, nat>)
    requires IsReportOf(rows, m) && rows != []
    ensures rows[0].key in m
    ensures forall k :: k in m ==> m[k] <= rows[0].total
  {
    forall k | k in m
      ensures m[k] <= rows[0].total
    {
      var i :| 0 <= i < |rows| && rows[i] == Row(k, m[k]);
      if i > 0 {
        assert rows[0].total >= rows[i].total;
      }
    }
  }

  /** Dropping the first row of a report leaves a report of the map without its key. */
  lemma ReportTail(rows: seq<Row>, m: map<string, nat>)
    requires IsReportOf(rows, m) && rows != []
    ensures IsReportOf(rows[1..], m - {rows[0].key})
  {
    var rest, tail := m - {rows[0].key}, rows[1..];
    forall i | 0 <= i < |tail|
      ensures tail[i].key in rest && rest[tail[i].key] == tail[i].total
    {
      assert tail[i] == rows[i + 1];
    }
    forall k | k in rest
      ensures Row(k, rest[k]) in tail
    {
      var i :| 0 <= i < |rows| && rows[i] == Row(k, m[k]);
      assert i != 0;
      assert tail[i - 1] == rows[i];
    }
    forall i, j | 0 <= i < j < |tail|
      ensures tail[i].key != tail[j].key && tail[i].total >= tail[j].total
    {
      assert tail[i] == rows[i + 1] && tail[j] == rows[j + 1];
    }
  }

  /** When no two totals tie, two reports of one map start with the same row. */
  lemma ReportsShareHead(r1: seq<Row>, r2: seq<Row>, m: map<string, nat>)
    requires DistinctTotals(m)
    requires IsReportOf(r1, m) && IsReportOf(r2, m) && r1 != [] && r2 != []
    ensures r1[0] == r2[0]
  {
    ReportHeadMax(r1, m);
    ReportHeadMax(r2, m);
    assert r1[0].total == r2[0].total;
  }

  /** When no two totals tie, a map has exactly one report: the sorted output is determined. */
  lemma {:induction false} ReportUnique(r1: seq<Row>, r2: seq<Row>, m: map<string, nat>)
    requires DistinctTotals(m)
    requires IsReportOf(r1, m) && IsReportOf(r2, m)
    ensures r1 == r2
    decreases |r1|
  {
    ReportLength(r1, m);
    ReportLength(r2, m);
    if r1 != [] {
      ReportsShareHead(r1, r2, m);
      ReportTail(r1, m);
      ReportTail(r2, m);
      ReportUnique(r1[1..], r2[1..], m - {r1[0].key});
      SameHeadAndTail(r1, r2);
    }
  }

  lemma SameHeadAndTail<T>(a: seq<T>, b: seq<T>)
    requires a != [] && b != [] && a[0] == b[0] && a[1..] == b[1..]
    ensures a == b
  {
    assert a == [a[0]] + a[1..] && b == [b[0]] + b[1..];
  }

  /** new LinkedList<>(m.entrySet()): every entry once, in whatever order the map yields them. */
  method Entries(m: map<string, nat>) returns (l: seq<Row>)
    ensures SameEntries(l, m)
    ensures |l| == |m|
  {
    l := [];
    var rest := m.Keys;
    while rest != {}
      invariant rest <= m.Keys
      invariant |l| + |rest| == |m|
      invariant DistinctKeys(l)
      invariant forall i :: 0 <= i < |l| ==> l[i].key in m && m[l[i].key] == l[i].total && l[i].key !in rest
      invariant forall k :: k in m && k !in rest ==> Row(k, m[k]) in l
      decreases rest
    {
      var k :| k in rest;
      l := l + [Row(k, m[k])];
      rest := rest - {k};
    }
  }

  /**
   * Halfway through moving s[j] (which started at i) to its place: every
   * other pair in s[..i + 1] is in order, and s[j] is larger than all after it.
   */
  ghost predicate Inserting(s: seq<Row>, j: nat, i: nat)
  {
    && j <= i < |s|
    && (forall p, q :: 0 <= p < q <= i && p != j && q != j ==> s[p].total >= s[q].total)
    && (forall q :: j < q <= i ==> s[j].total > s[q].total)
  }

  /** s with the rows at j - 1 and j exchanged. */
  function Swap(s: seq<Row>, j: nat): (r: seq<Row>)
    requires 0 < j < |s|
    ensures |r| == |s| && multiset(r) == multiset(s)
  {
    s[j - 1 := s[j]][j := s[j - 1]]
  }

  lemma InsertingStart(s: seq<Row>, i: nat)
    requires i < |s| && Descending(s[..i])
    ensures Inserting(s, i, i)
  {
    assert forall p :: 0 <= p < i ==> s[..i][p] == s[p];
  }

  lemma InsertingSwap(s: seq<Row>, j: nat, i: nat)
    requires Inserting(s, j, i) && 0 < j && s[j - 1].total < s[j].total
    ensures Inserting(Swap(s, j), j - 1, i)
    ensures Swap(s, j)[i + 1..] == s[i + 1..]
  {
  }

  lemma InsertingDone(s: seq<Row>, j: nat, i: nat)
    requires Inserting(s, j, i) && (j == 0 || s[j - 1].total >= s[j].total)
    ensures Descending(s[..i + 1])
  {
    forall p, q | 0 <= p < q <= i
      ensures s[p].total >= s[q].total
    {
      if q == j && p < j - 1 {
        assert s[p].total >= s[j - 1].total;
      }
    }
  }

  /**
   * Moves a[i] left past every smaller total; a[..i] is sorted before and
   * a[..i + 1] after.
   */
  method InsertAt(a: array<Row>, i: nat)
    requires i < a.Length && Descending(a[..i])
    modifies a
    ensures Descending(a[..i + 1])
    ensures multiset(a[..]) == multiset(old(a[..]))
    ensures a[i + 1..] == old(a[i + 1..])
  {
    var j: nat := i;
    InsertingStart(a[..], i);
    while j > 0 && a[j - 1].total < a[j].total
      invariant Inserting(a[..], j, i)
      invariant multiset(a[..]) == multiset(old(a[..]))
      invariant a[i + 1..] == old(a[i + 1..])
    {
      ghost var s := a[..];
      InsertingSwap(s, j, i);
      a[j - 1], a[j] := a[j], a[j - 1];
      assert a[..] == Swap(s, j);
      j := j - 1;
    }
    InsertingDone(a[..], j, i);
  }

  /** Collections.sort with a comparator on totals, largest first. */
  method SortRows(a: array<Row>)
    modifies a
    ensures Descending(a[..])
    ensures multiset(a[..]) == multiset(old(a[..]))
  {
    var i := 0;
    while i < a.Length
      invariant 0 <= i <= a.Length
      invariant Descending(a[..i])
      invariant multiset(a[..]) == multiset(old(a[..]))
    {
      InsertAt(a, i);
      i := i + 1;
    }
    assert a[..i] == a[..];
  }

  /**
   * sortByValue: the entries sorted by total, largest first, then copied in
   * that order into a LinkedHashMap, here the sequence of its entries.
   */
  method SortByValue(m: map<string, nat>) returns (rows: seq<Row>)
    ensures IsReportOf(rows, m)
    ensures |rows| == |m|
  {
    var l := Entries(m);
    var a := new Row[|l|];
    forall k | 0 <= k < |l| {
      a[k] := l[k];
    }
    assert a[..] == l;
    SortRows(a);
    rows := a[..];
    PermutationKeepsEntries(l, rows, m);
  }
}
