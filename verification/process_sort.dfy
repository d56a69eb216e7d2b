/**
  Column sorting of the process table (`handleSort` and `sortedProcesses` in
  `components/ProcessMonitor.tsx`). The table is sorted with
  `Array.prototype.sort`, which is stable, under a three-way comparator; the
  model is a stable insertion sort under the same comparator.
 */
module ProcessSort {
  import opened Types
  import opened ProcessTable

  /** The four clickable column headers. */
  datatype SortField = Pid | Name | Cpu | Memory

  datatype Direction = Asc | Desc

  datatype SortState = SortState(field: SortField, direction: Direction)

  /** The table opens sorted by CPU load, highest first. */
  const InitialSort: SortState := SortState(Cpu, Desc)

  function Flip(d: Direction): Direction {
    if d == Asc then Desc else Asc
  }

  /**
    `handleSort(field)`: re-clicking the current column flips the direction,
    clicking another column selects it sorted descending.
   */
  function HandleSort(s: SortState, field: SortField): (r: SortState)
    ensures r.field == field
    ensures s.field == field ==> r.direction != s.direction
    ensures s.field != field ==> r.direction == Desc
  {
    if s.field == field then s.(direction := Flip(s.direction)) else SortState(field, Desc)
  }

  /** Clicking the same header twice restores the original order. */
  lemma HandleSortTwice(s: SortState)
    ensures HandleSort(HandleSort(s, s.field), s.field) == s
  {
  }

  /**
    Three-way comparison of strings by code point, the stand-in for the
    locale-aware `localeCompare` of the name column.
   */
  function LexCompare(a: string, b: string): (c: int)
    ensures -1 <= c <= 1
    ensures c == 0 <==> a == b
  {
    if a == [] then (if b == [] then 0 else -1)
    else if b == [] then 1
    else if a[0] < b[0] then -1
    else if a[0] > b[0] then 1
    else
      assert a == [a[0]] + a[1..] && b == [b[0]] + b[1..];
      LexCompare(a[1..], b[1..])
  }

  lemma {:induction false} LexCompareAntisymmetric(a: string, b: string)
    ensures LexCompare(b, a) == -LexCompare(a, b)
  {
    if a != [] && b != [] && a[0] == b[0] {
      LexCompareAntisymmetric(a[1..], b[1..]);
    }
  }

  lemma {:induction false} LexCompareTransitive(a: string, b: string, c: string)
    requires LexCompare(a, b) <= 0 && LexCompare(b, c) <= 0
    ensures LexCompare(a, c) <= 0
  {
    if a != [] && b != [] && c != [] && a[0] == b[0] == c[0] {
      LexCompareTransitive(a[1..], b[1..], c[1..]);
    }
  }

  /** The value a numeric column sorts on. */
  function Key(p: SystemProcess, field: SortField): int
    requires field != Name
  {
    match field
    case Pid => p.pid
    case Cpu => p.cpuTenths
    case Memory => p.memory
  }

  /** The comparator handed to `sort`: negative when `a` belongs above `b`. */
  function Compare(a: SystemProcess, b: SystemProcess, s: SortState): int {
    if s.field == Name then
      if s.direction == Asc then LexCompare(a.name, b.name) else LexCompare(b.name, a.name)
    else
      var x, y := Key(a, s.field), Key(b, s.field);
      if x < y then (if s.direction == Asc then -1 else 1)
      else if x > y then (if s.direction == Asc then 1 else -1)
      else 0
  }

  /** The descending comparator is the ascending one negated. */
  lemma CompareDescNegatesAsc(a: SystemProcess, b: SystemProcess, field: SortField)
    ensures Compare(a, b, SortState(field, Desc)) == -Compare(a, b, SortState(field, Asc))
  {
    if field == Name {
      LexCompareAntisymmetric(a.name, b.name);
    }
  }

  /** Swapping the arguments negates the comparator. */
  lemma CompareAntisymmetric(a: SystemProcess, b: SystemProcess, s: SortState)
    ensures Compare(b, a, s) == -Compare(a, b, s)
  {
    if s.field == Name {
      LexCompareAntisymmetric(a.name, b.name);
    }
  }

  /** "Not after" is transitive, so the comparator is a consistent total preorder. */
  lemma CompareTransitive(a: SystemProcess, b: SystemProcess, c: SystemProcess, s: SortState)
    requires Compare(a, b, s) <= 0 && Compare(b, c, s) <= 0
    ensures Compare(a, c, s) <= 0
  {
    if s.field == Name {
      if s.direction == Asc {
        LexCompareTransitive(a.name, b.name, c.name);
      } else {
        LexCompareTransitive(c.name, b.name, a.name);
      }
    }
  }

  /** Every row is placed no later than every row after it. */
  ghost predicate Sorted(rows: seq<SystemProcess>, s: SortState) {
    forall i, j :: 0 <= i < j < |rows| ==> Compare(rows[i], rows[j], s) <= 0
  }

  /** `h` may be placed in front of every row of `rows`. */
  ghost predicate NotAfterAny(h: SystemProcess, rows: seq<SystemProcess>, s: SortState) {
    forall y :: y in rows ==> Compare(h, y, s) <= 0
  }

  lemma SortedCons(h: SystemProcess, rows: seq<SystemProcess>, s: SortState)
    requires NotAfterAny(h, rows, s) && Sorted(rows, s)
    ensures Sorted([h] + rows, s)
  {
    var r := [h] + rows;
    forall i, j | 0 <= i < j < |r|
      ensures Compare(r[i], r[j], s) <= 0
    {
      if i == 0 {
        assert r[j] == rows[j - 1];
      } else {
        assert r[i] == rows[i - 1] && r[j] == rows[j - 1];
      }
    }
  }

  /** Puts `x` in front of the first row it does not sort after. */
  function Insert(x: SystemProcess, rows: seq<SystemProcess>, s: SortState): (r: seq<SystemProcess>)
    ensures |r| == |rows| + 1
    ensures multiset(r) == multiset(rows) + multiset{x}
  {
    if rows == [] then [x]
    else if Compare(x, rows[0], s) <= 0 then [x] + rows
    else
      assert rows == [rows[0]] + rows[1..];
      [rows[0]] + Insert(x, rows[1..], s)
  }

  lemma {:induction false} InsertSorted(x: SystemProcess, rows: seq<SystemProcess>, s: SortState)
    requires Sorted(rows, s)
    ensures Sorted(Insert(x, rows, s), s)
  {
    if rows == [] {
    } else if Compare(x, rows[0], s) <= 0 {
      forall y | y in rows
        ensures Compare(x, y, s) <= 0
      {
        var k :| 0 <= k < |rows| && rows[k] == y;
        if k > 0 {
          CompareTransitive(x, rows[0], y, s);
        }
      }
      SortedCons(x, rows, s);
    } else {
      var tail := rows[1..];
      assert Sorted(tail, s) by {
        forall i, j | 0 <= i < j < |tail|
          ensures Compare(tail[i], tail[j], s) <= 0
        {
          assert tail[i] == rows[i + 1] && tail[j] == rows[j + 1];
        }
      }
      InsertSorted(x, tail, s);
      var rest := Insert(x, tail, s);
      CompareAntisymmetric(x, rows[0], s);
      forall y | y in rest
        ensures Compare(rows[0], y, s) <= 0
      {
        assert y in multiset(rest);
        if y != x {
          assert y in multiset(tail);
          var k :| 0 <= k < |tail| && tail[k] == y;
          assert rows[k + 1] == y;
        }
      }
      SortedCons(rows[0], rest, s);
    }
  }

  /** `[...rows].sort(cmp)`: a stable sort under the column comparator. */
  function Sort(rows: seq<SystemProcess>, s: SortState): (r: seq<SystemProcess>)
    ensures |r| == |rows|
    ensures multiset(r) == multiset(rows)
    ensures Sorted(r, s)
  {
    if rows == [] then []
    else
      assert rows == [rows[0]] + rows[1..];
      var rest := Sort(rows[1..], s);
      InsertSorted(rows[0], rest, s);
      Insert(rows[0], rest, s)
  }

  /** On a numeric column the sorted table is ordered by that column, up or down as selected. */
  lemma SortOrdersNumericColumn(rows: seq<SystemProcess>, s: SortState, i: int, j: int)
    requires s.field != Name
    requires 0 <= i < j < |rows|
    ensures s.direction == Asc ==> Key(Sort(rows, s)[i], s.field) <= Key(Sort(rows, s)[j], s.field)
    ensures s.direction == Desc ==> Key(Sort(rows, s)[i], s.field) >= Key(Sort(rows, s)[j], s.field)
  {
    var r := Sort(rows, s);
    assert Compare(r[i], r[j], s) <= 0;
  }

  /** The rows that tie with `k` under the comparator. */
  function TiesWith(k: SystemProcess, s: SortState): SystemProcess -> bool {
    p => Compare(p, k, s) == 0
  }

  /** Two rows that tie with the same row tie with each other. */
  lemma TiesAreEquivalent(a: SystemProcess, b: SystemProcess, k: SystemProcess, s: SortState)
    requires Compare(a, k, s) == 0 && Compare(b, k, s) == 0
    ensures Compare(a, b, s) == 0
  {
    CompareAntisymmetric(b, k, s);
    CompareAntisymmetric(a, k, s);
    CompareTransitive(a, k, b, s);
    CompareTransitive(b, k, a, s);
    CompareAntisymmetric(a, b, s);
  }

  lemma {:induction false} InsertKeepsTieOrder(x: SystemProcess, rows: seq<SystemProcess>, k: SystemProcess, s: SortState)
    ensures Where(Insert(x, rows, s), TiesWith(k, s))
         == Where([x], TiesWith(k, s)) + Where(rows, TiesWith(k, s))
  {
    var tie := TiesWith(k, s);
    if rows == [] {
      assert Where(rows, tie) == [];
      assert [x] + rows == [x];
    } else if Compare(x, rows[0], s) <= 0 {
      WhereAppend([x], rows, tie);
    } else {
      var tail := rows[1..];
      InsertKeepsTieOrder(x, tail, k, s);
      WhereAppend([rows[0]], Insert(x, tail, s), tie);
      WhereAppend([rows[0]], tail, tie);
      assert [rows[0]] + tail == rows;
      if tie(x) && tie(rows[0]) {
        TiesAreEquivalent(x, rows[0], k, s);
      }
      assert Where([rows[0]], tie) + Where([x], tie) == Where([x], tie) + Where([rows[0]], tie) by {
        if tie(x) {
          assert Where([rows[0]], tie) == [];
        } else {
          assert Where([x], tie) == [];
        }
      }
    }
  }

  /**
    The sort is stable: the rows that tie with any given row appear in the
    sorted table in the same relative order as in the input.
   */
  lemma {:induction false} SortIsStable(rows: seq<SystemProcess>, k: SystemProcess, s: SortState)
    ensures Where(Sort(rows, s), TiesWith(k, s)) == Where(rows, TiesWith(k, s))
  {
    if rows != [] {
      var tie, rest := TiesWith(k, s), Sort(rows[1..], s);
      assert Sort(rows, s) == Insert(rows[0], rest, s);
      SortIsStable(rows[1..], k, s);
      InsertKeepsTieOrder(rows[0], rest, k, s);
      WhereAppend([rows[0]], rows[1..], tie);
      assert [rows[0]] + rows[1..] == rows;
    }
  }

  function Reverse(rows: seq<SystemProcess>): (r: seq<SystemProcess>)
    ensures |r| == |rows|
    ensures forall i :: 0 <= i < |rows| ==> r[i] == rows[|rows| - 1 - i]
  {
    if rows == [] then [] else Reverse(rows[1..]) + [rows[0]]
  }

  lemma {:induction false} ReversePermutes(rows: seq<SystemProcess>)
    ensures multiset(Reverse(rows)) == multiset(rows)
  {
    if rows != [] {
      ReversePermutes(rows[1..]);
      assert rows == [rows[0]] + rows[1..];
    }
  }

  /** Read backwards, a table sorted ascending is sorted descending. */
  lemma ReverseOfAscIsDesc(rows: seq<SystemProcess>, field: SortField)
    requires Sorted(rows, SortState(field, Asc))
    ensures Sorted(Reverse(rows), SortState(field, Desc))
  {
    var r := Reverse(rows);
    var n := |rows|;
    forall i, j | 0 <= i < j < n
      ensures Compare(r[i], r[j], SortState(field, Desc)) <= 0
    {
      assert Compare(rows[n - 1 - j], rows[n - 1 - i], SortState(field, Asc)) <= 0;
      CompareDescNegatesAsc(r[i], r[j], field);
      CompareAntisymmetric(r[i], r[j], SortState(field, Asc));
    }
  }

  /** No two different rows tie under the comparator. */
  ghost predicate NoTies(rows: seq<SystemProcess>, s: SortState) {
    forall p, q :: p in rows && q in rows && p != q ==> Compare(p, q, s) != 0
  }

  lemma SortedTail(a: seq<SystemProcess>, s: SortState)
    requires a != [] && Sorted(a, s)
    ensures Sorted(a[1..], s)
  {
    forall i, j | 0 <= i < j < |a[1..]|
      ensures Compare(a[1..][i], a[1..][j], s) <= 0
    {
      assert a[1..][i] == a[i + 1] && a[1..][j] == a[j + 1];
    }
  }

  /** The first row of a sorted table is placed no later than any row of it. */
  lemma SortedHeadFirst(a: seq<SystemProcess>, y: SystemProcess, s: SortState)
    requires a != [] && Sorted(a, s) && y in a
    ensures Compare(a[0], y, s) <= 0
  {
    var k :| 0 <= k < |a| && a[k] == y;
    if k == 0 {
      CompareAntisymmetric(y, y, s);
    }
  }

  lemma HeadsAgree(a: seq<SystemProcess>, b: seq<SystemProcess>, s: SortState)
    requires a != [] && Sorted(a, s) && Sorted(b, s)
    requires multiset(a) == multiset(b)
    requires NoTies(a, s)
    ensures b != [] && a[0] == b[0]
  {
    assert a[0] in multiset(b);
    assert b[0] in multiset(a);
    SortedHeadFirst(a, b[0], s);
    SortedHeadFirst(b, a[0], s);
    CompareAntisymmetric(a[0], b[0], s);
  }

  /** Dropping equal heads from two permutations of each other leaves permutations of each other. */
  lemma TailsPermute(a: seq<SystemProcess>, b: seq<SystemProcess>)
    requires a != [] && b != [] && a[0] == b[0]
    requires multiset(a) == multiset(b)
    ensures multiset(a[1..]) == multiset(b[1..])
  {
    assert a == [a[0]] + a[1..] && b == [b[0]] + b[1..];
    assert multiset(a) == multiset{a[0]} + multiset(a[1..]);
    assert multiset(b) == multiset{b[0]} + multiset(b[1..]);
    assert multiset(a[1..]) == multiset(a) - multiset{a[0]};
    assert multiset(b[1..]) == multiset(b) - multiset{b[0]};
  }

  lemma NoTiesTail(a: seq<SystemProcess>, s: SortState)
    requires a != [] && NoTies(a, s)
    ensures NoTies(a[1..], s)
  {
    forall p | p in a[1..]
      ensures p in a
    {
    }
  }

  /** Without ties there is only one sorted arrangement of a table. */
  lemma {:induction false} SortedIsUnique(a: seq<SystemProcess>, b: seq<SystemProcess>, s: SortState)
    requires Sorted(a, s) && Sorted(b, s)
    requires multiset(a) == multiset(b)
    requires NoTies(a, s)
    ensures a == b
    decreases |a|
  {
    if a == [] {
      assert |b| == |multiset(b)| == 0;
    } else {
      HeadsAgree(a, b, s);
      TailsPermute(a, b);
      NoTiesTail(a, s);
      SortedTail(a, s);
      SortedTail(b, s);
      SortedIsUnique(a[1..], b[1..], s);
      assert a == [a[0]] + a[1..] && b == [b[0]] + b[1..];
    }
  }

  /** A column without ties ascending has none descending, in any arrangement of the same rows. */
  lemma NoTiesEitherWay(rows: seq<SystemProcess>, other: seq<SystemProcess>, field: SortField)
    requires NoTies(rows, SortState(field, Asc))
    requires multiset(other) == multiset(rows)
    ensures NoTies(other, SortState(field, Desc))
  {
    forall p, q | p in other && q in other && p != q
      ensures Compare(p, q, SortState(field, Desc)) != 0
    {
      assert p in multiset(rows) && q in multiset(rows);
      CompareDescNegatesAsc(p, q, field);
    }
  }

  /**
    When no two rows tie on the column, clicking the header again shows the
    same rows in exactly the reverse order.
   */
  lemma SortDescReversesAsc(rows: seq<SystemProcess>, field: SortField)
    requires NoTies(rows, SortState(field, Asc))
    ensures Sort(rows, SortState(field, Desc)) == Reverse(Sort(rows, SortState(field, Asc)))
  {
    var asc, desc := SortState(field, Asc), SortState(field, Desc);
    var up := Sort(rows, asc);
    ReverseOfAscIsDesc(up, field);
    ReversePermutes(up);
    var down := Sort(rows, desc);
    NoTiesEitherWay(rows, down, field);
    SortedIsUnique(down, Reverse(up), desc);
  }

  /**
    With a tie the reversal fails: two rows with equal CPU load keep their
    input order in both directions, because the sort is stable.
   */
  lemma TiedRowsDoNotReverse()
    ensures var a := SystemProcess(1000, "a", 5, 10, false, Running);
            var b := SystemProcess(1050, "b", 5, 10, false, Running);
            && Sort([a, b], SortState(Cpu, Asc)) == [a, b]
            && Sort([a, b], SortState(Cpu, Desc)) == [a, b]
            && Reverse([a, b]) == [b, a] != [a, b]
  {
    var a := SystemProcess(1000, "a", 5, 10, false, Running);
    var b := SystemProcess(1050, "b", 5, 10, false, Running);
    assert [a, b][1..] == [b];
    assert [b][1..] == [];
  }
}
