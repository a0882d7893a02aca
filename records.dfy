/**
 * The uploaded table and the choice of the record that is scored: the company
 * selector offers each distinct company once, the rows of the chosen company
 * are sorted by year, and the last of them is the "latest" record.
 *
 * The table's sort is not stable, so among several rows that share the
 * largest year the dashboard does not fix which one comes last. The model sorts
 * with one concrete sort, but every property of the chosen record is proved
 * for every year-sorted ordering (PossibleChoiceIffLatest).
 */
module Records {
  import opened Wrappers

  /** One row of the spreadsheet: a company in one fiscal year, with the columns that are interpreted. */
  datatype Record = Record(company: string, year: int, f: real, c: real, o: real, zone: string)

  /** A non-empty sequence holds its first row and the rows of its tail. */
  lemma HeadTailMultiset(s: seq<Record>)
    requires |s| > 0
    ensures multiset(s) == multiset{s[0]} + multiset(s[1..])
  {
    assert s == [s[0]] + s[1..];
  }

  /** The rows of `company`, in table order (the boolean mask `Company == company`). */
  function Filter(rows: seq<Record>, company: string): (r: seq<Record>)
    ensures forall x :: multiset(r)[x] == if x.company == company then multiset(rows)[x] else 0
  {
    if rows == [] then []
    else
      HeadTailMultiset(rows);
      var rest := Filter(rows[1..], company);
      if rows[0].company == company then [rows[0]] + rest else rest
  }

  /** A row is kept by Filter exactly when it is in the table and belongs to `company`. */
  lemma FilterMembership(rows: seq<Record>, company: string, x: Record)
    ensures x in Filter(rows, company) <==> x in rows && x.company == company
  {
    assert x in Filter(rows, company) <==> x in multiset(Filter(rows, company));
    assert x in rows <==> x in multiset(rows);
  }

  /**
   * The company selector's choices: each company of the table once, in order
   * of first appearance, so the first row's company is the one selected by default.
   */
  function Companies(rows: seq<Record>): (cs: seq<string>)
    ensures forall i :: 0 <= i < |rows| ==> rows[i].company in cs
    ensures forall c :: c in cs ==> exists i :: 0 <= i < |rows| && rows[i].company == c
    ensures forall i, j :: 0 <= i < j < |cs| ==> cs[i] != cs[j]
    ensures |rows| > 0 ==> |cs| > 0 && cs[0] == rows[0].company
  {
    if rows == [] then []
    else
      var init := Companies(rows[..|rows| - 1]);
      var c := rows[|rows| - 1].company;
      if c in init then init else init + [c]
  }

  /** Rows in ascending order of year. */
  predicate SortedByYear(s: seq<Record>) {
    forall i, j :: 0 <= i < j < |s| ==> s[i].year <= s[j].year
  }

  /** A row no later than the head of a year-sorted sequence can go in front of it. */
  lemma PrependKeepsSorted(a: Record, t: seq<Record>)
    requires SortedByYear(t)
    requires |t| > 0 ==> a.year <= t[0].year
    ensures SortedByYear([a] + t)
  {
    var u := [a] + t;
    forall i, j | 0 <= i < j < |u| ensures u[i].year <= u[j].year {
      if i == 0 && j > 1 {
        assert t[0].year <= t[j - 1].year;
      }
    }
  }

  /** Puts `x` in front of the first row of `s` that is not earlier than it. */
  function Insert(x: Record, s: seq<Record>): (r: seq<Record>)
    ensures |r| == |s| + 1
  {
    if s == [] || x.year <= s[0].year then [x] + s
    else [s[0]] + Insert(x, s[1..])
  }

  /** Insert adds exactly one occurrence of `x` and keeps every other row. */
  lemma {:induction false} InsertPermutes(x: Record, s: seq<Record>)
    ensures multiset(Insert(x, s)) == multiset(s) + multiset{x}
  {
    if !(s == [] || x.year <= s[0].year) {
      InsertPermutes(x, s[1..]);
      HeadTailMultiset(s);
    }
  }

  /** Insert keeps a year-sorted sequence sorted. */
  lemma {:induction false} InsertSorted(x: Record, s: seq<Record>)
    requires SortedByYear(s)
    ensures SortedByYear(Insert(x, s))
  {
    if s == [] || x.year <= s[0].year {
      PrependKeepsSorted(x, s);
    } else {
      var tail := s[1..];
      assert SortedByYear(tail) by {
        forall i, j | 0 <= i < j < |tail| ensures tail[i].year <= tail[j].year {
          assert tail[i] == s[i + 1] && tail[j] == s[j + 1];
        }
      }
      InsertSorted(x, tail);
      var rest := Insert(x, tail);
      assert s[0].year <= rest[0].year by {
        if tail != [] && x.year > tail[0].year {
          assert rest[0] == tail[0] == s[1];
        }
      }
      PrependKeepsSorted(s[0], rest);
    }
  }

  /** Taking out the row at `i` takes out one occurrence of it. */
  lemma RemoveAtMultiset(s: seq<Record>, i: nat)
    requires i < |s|
    ensures multiset(s) == multiset(s[..i] + s[i + 1..]) + multiset{s[i]}
  {
    assert s == s[..i] + [s[i]] + s[i + 1..];
  }

  /** One sort of the rows by year (the table's own sort is not required to be this one). */
  function SortByYear(s: seq<Record>): (r: seq<Record>)
    ensures SortedByYear(r)
    ensures multiset(r) == multiset(s)
  {
    if s == [] then []
    else
      var rest := SortByYear(s[1..]);
      InsertSorted(s[0], rest);
      InsertPermutes(s[0], rest);
      HeadTailMultiset(s);
      Insert(s[0], rest)
  }

  /** `r` is a row of `company` with the largest year among that company's rows. */
  predicate IsLatest(rows: seq<Record>, company: string, r: Record) {
    && r in rows
    && r.company == company
    && forall x :: x in rows && x.company == company ==> x.year <= r.year
  }

  /**
   * `r` is a record the dashboard may pick: the last row of some year-sorted
   * ordering of the company's rows.
   */
  ghost predicate PossibleChoice(rows: seq<Record>, company: string, r: Record) {
    exists t :: SortedByYear(t) && multiset(t) == multiset(Filter(rows, company))
                && |t| > 0 && t[|t| - 1] == r
  }

  /** Two sequences with the same rows, counted with repetition, have the same members. */
  lemma SameMembers(a: seq<Record>, b: seq<Record>)
    requires multiset(a) == multiset(b)
    ensures forall y :: y in a <==> y in b
  {
    forall y ensures y in a <==> y in b {
      assert y in a <==> y in multiset(a);
      assert y in b <==> y in multiset(b);
    }
  }

  /** In a year-sorted sequence no row is later than the last one. */
  lemma LastOfSortedIsMax(t: seq<Record>)
    requires SortedByYear(t) && |t| > 0
    ensures forall y :: y in t ==> y.year <= t[|t| - 1].year
  {
    forall y | y in t ensures y.year <= t[|t| - 1].year {
      var k :| 0 <= k < |t| && t[k] == y;
      if k < |t| - 1 {
        assert t[k].year <= t[|t| - 1].year;
      }
    }
  }

  /** The last row of any year-sorted ordering of the company's rows is a latest record. */
  lemma LastOfSortedIsLatest(rows: seq<Record>, company: string, t: seq<Record>)
    requires SortedByYear(t) && |t| > 0
    requires multiset(t) == multiset(Filter(rows, company))
    ensures IsLatest(rows, company, t[|t| - 1])
  {
    var last := t[|t| - 1];
    SameMembers(t, Filter(rows, company));
    LastOfSortedIsMax(t);
    FilterMembership(rows, company, last);
    forall x | x in rows && x.company == company
      ensures x.year <= last.year
    {
      FilterMembership(rows, company, x);
    }
  }

  /** Appending a row no earlier than every row of a year-sorted sequence keeps it sorted. */
  lemma AppendKeepsSorted(t: seq<Record>, a: Record)
    requires SortedByYear(t)
    requires forall y :: y in t ==> y.year <= a.year
    ensures SortedByYear(t + [a])
  {
    var u := t + [a];
    forall i, j | 0 <= i < j < |u| ensures u[i].year <= u[j].year {
      assert u[i] == t[i];
      if j < |t| {
        assert u[j] == t[j];
      } else {
        assert t[i] in t;
      }
    }
  }

  /** A sorted ordering of the other rows, followed by a row no earlier than all of them. */
  lemma AppendToSortedRest(s: seq<Record>, i: nat, sorted: seq<Record>)
    requires i < |s|
    requires forall y :: y in s ==> y.year <= s[i].year
    requires SortedByYear(sorted) && multiset(sorted) == multiset(s[..i] + s[i + 1..])
    ensures SortedByYear(sorted + [s[i]]) && multiset(sorted + [s[i]]) == multiset(s)
  {
    var others := s[..i] + s[i + 1..];
    SameMembers(sorted, others);
    forall y | y in sorted ensures y.year <= s[i].year {
      assert y in s[..i] || y in s[i + 1..];
    }
    AppendKeepsSorted(sorted, s[i]);
    RemoveAtMultiset(s, i);
  }

  /** A row no earlier than every row of `s` is last in some year-sorted ordering of `s`. */
  lemma LastOfSomeOrdering(s: seq<Record>, i: nat)
    requires i < |s|
    requires forall y :: y in s ==> y.year <= s[i].year
    ensures exists t :: SortedByYear(t) && multiset(t) == multiset(s) && |t| > 0 && t[|t| - 1] == s[i]
  {
    var sorted := SortByYear(s[..i] + s[i + 1..]);
    AppendToSortedRest(s, i, sorted);
    var t := sorted + [s[i]];
    assert t[|t| - 1] == s[i];
  }

  /** Every latest record is the last row of some year-sorted ordering. */
  lemma LatestIsReachable(rows: seq<Record>, company: string, r: Record)
    requires IsLatest(rows, company, r)
    ensures PossibleChoice(rows, company, r)
  {
    var s := Filter(rows, company);
    FilterMembership(rows, company, r);
    var i :| 0 <= i < |s| && s[i] == r;
    forall y | y in s ensures y.year <= r.year {
      FilterMembership(rows, company, y);
    }
    LastOfSomeOrdering(s, i);
  }

  /** The records the dashboard may score are exactly the latest records of the company. */
  lemma PossibleChoiceIffLatest(rows: seq<Record>, company: string, r: Record)
    ensures PossibleChoice(rows, company, r) <==> IsLatest(rows, company, r)
  {
    if PossibleChoice(rows, company, r) {
      var t :| SortedByYear(t) && multiset(t) == multiset(Filter(rows, company))
                && |t| > 0 && t[|t| - 1] == r;
      LastOfSortedIsLatest(rows, company, t);
    }
    if IsLatest(rows, company, r) {
      LatestIsReachable(rows, company, r);
    }
  }

  /** Two latest records of one company share their year: ties differ only in the other columns. */
  lemma LatestYearsAgree(rows: seq<Record>, company: string, r1: Record, r2: Record)
    requires IsLatest(rows, company, r1) && IsLatest(rows, company, r2)
    ensures r1.year == r2.year
  {
  }

  /**
   * The record that is scored: filter to the company, sort by year, take the
   * last row. None when the company has no rows (where the dashboard's
   * last-row lookup would fail).
   */
  function LatestRecord(rows: seq<Record>, company: string): (r: Option<Record>)
    ensures r.None? <==> forall x :: x in rows ==> x.company != company
    ensures r.Some? ==> IsLatest(rows, company, r.value)
  {
    var mine := Filter(rows, company);
    var sorted := SortByYear(mine);
    if |sorted| == 0 then
      assert forall x :: x in rows ==> x.company != company by {
        forall x | x in rows ensures x.company != company {
          FilterMembership(rows, company, x);
          assert multiset(sorted) == multiset{};
        }
      }
      None
    else
      LastOfSortedIsLatest(rows, company, sorted);
      Some(sorted[|sorted| - 1])
  }

  /** Every company the selector offers has a record to score. */
  lemma SelectableCompanyHasLatest(rows: seq<Record>, company: string)
    requires company in Companies(rows)
    ensures LatestRecord(rows, company).Some?
  {
    var i :| 0 <= i < |rows| && rows[i].company == company;
    assert rows[i] in rows;
  }
}
