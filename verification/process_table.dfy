/**
  The process table of the process monitor (`components/ProcessMonitor.tsx`):
  the 25-row initial generator, the two-second perturbation tick and the
  search filter. Random draws arrive as `Unit` arguments.
 */
module ProcessTable {
  import opened Types
  import opened Draws
  import opened Text

  /** The name pool rows are drawn from, cyclically by row index. */
  const Names: seq<string> := [
    "system_server", "com.android.systemui", "zygote64", "kworker/u16:3",
    "logd", "adbd", "surfaceflinger", "com.google.android.gms",
    "com.whatsapp", "com.instagram.android", "mm_camera_daemon",
    "netd", "vold", "rild", "audioserver", "com.unknown.miner", "jdwp"
  ]

  /** The name of the one row the generator marks as hidden. */
  const MinerName: string := "com.unknown.miner"

  const StatusOptions: seq<ProcessStatus> := [Running, Background, Suspended]

  /** Number of rows the generator produces. */
  const RowCount: nat := 25

  /** Index of the row the generator hides from the standard APIs. */
  const HiddenIndex: nat := 15

  /** The four `Math.random()` results one generated row consumes, in call order. */
  datatype RowDraw = RowDraw(pid: Unit, cpu: Unit, memory: Unit, status: Unit)

  /** The two `Math.random()` results one row consumes on each tick. */
  datatype TickDraw = TickDraw(cpu: Unit, memory: Unit)

  /** `names[i % names.length] || \`process_${i}\``: the fallback fires only on an empty pool name. */
  function RowName(i: nat): (name: string)
    ensures name == Names[i % |Names|]
  {
    var pooled := Names[i % |Names|];
    if pooled != "" then pooled else "process_" + NatToString(i)
  }

  /** Row `i` of the initial table. */
  function GenerateRow(i: nat, d: RowDraw): (p: SystemProcess)
    ensures 1000 + 50 * i <= p.pid < 1000 + 50 * i + 20
    ensures p.name == Names[i % |Names|]
    ensures p.isHidden <==> i == HiddenIndex
    ensures 0 <= p.cpuTenths <= (if i % 5 == 0 then 150 else 20)
    ensures 10 <= p.memory < 310
  {
    SystemProcess(
      pid := 1000 + i * 50 + Pick(d.pid, 20),
      name := RowName(i),
      cpuTenths := ToFixed1(d.cpu * (if i % 5 == 0 then 15.0 else 2.0)),
      memory := Pick(d.memory, 300) + 10,
      isHidden := i == HiddenIndex,
      status := StatusOptions[Pick(d.status, |StatusOptions|)])
  }

  /** `generateProcesses()`: one row per draw record, 25 in all. */
  function Generate(draws: seq<RowDraw>): (rows: seq<SystemProcess>)
    requires |draws| == RowCount
    ensures |rows| == RowCount
    ensures forall i :: 0 <= i < |rows| ==> 1000 + 50 * i <= rows[i].pid < 1000 + 50 * i + 20
    ensures forall i :: 0 <= i < |rows| ==> rows[i].name == Names[i % |Names|]
    ensures forall i :: 0 <= i < |rows| ==> (rows[i].isHidden <==> i == HiddenIndex)
    ensures forall i :: 0 <= i < |rows| ==> 0 <= rows[i].cpuTenths <= (if i % 5 == 0 then 150 else 20)
    ensures forall i :: 0 <= i < |rows| ==> 10 <= rows[i].memory < 310
    ensures forall i :: 0 <= i < |rows| ==> rows[i] == GenerateRow(i, draws[i])
  {
    seq(RowCount, i requires 0 <= i < RowCount => GenerateRow(i, draws[i]))
  }

  /** Generated pids grow strictly with the row index, so no two rows share a pid. */
  lemma GeneratedPidsIncrease(draws: seq<RowDraw>, i: int, j: int)
    requires |draws| == RowCount
    requires 0 <= i < j < RowCount
    ensures Generate(draws)[i].pid < Generate(draws)[j].pid
  {
    var rows := Generate(draws);
    assert rows[i].pid < 1000 + 50 * i + 20;
    assert 1000 + 50 * j <= rows[j].pid;
  }

  /** Exactly one generated row is hidden, row 15, and it carries the miner's name. */
  lemma GeneratedHiddenRow(draws: seq<RowDraw>)
    requires |draws| == RowCount
    ensures Generate(draws)[HiddenIndex].isHidden
    ensures Generate(draws)[HiddenIndex].name == MinerName
    ensures forall i :: 0 <= i < RowCount && i != HiddenIndex ==> !Generate(draws)[i].isHidden
  {
  }

  /**
    `Math.floor((r - 0.5) * 10)`: the memory step, between -5 and 4 MB. The
    step is not symmetric about zero: a draw below 0.1 gives -5, and no draw
    gives +5.
   */
  function MemoryDelta(r: Unit): (d: int)
    ensures -5 <= d <= 4
  {
    ((r - 0.5) * 10.0).Floor
  }

  /** One row on one tick: CPU moves by at most one percent, memory by -5..4 MB, both clamped. */
  function TickRow(p: SystemProcess, d: TickDraw): (q: SystemProcess)
    ensures q.pid == p.pid && q.name == p.name && q.isHidden == p.isHidden && q.status == p.status
    ensures 0 <= q.cpuTenths && p.cpuTenths - 10 <= q.cpuTenths
    ensures q.cpuTenths <= if p.cpuTenths + 10 < 0 then 0 else p.cpuTenths + 10
    ensures 10 <= q.memory && p.memory - 5 <= q.memory
    ensures q.memory <= if p.memory + 4 < 10 then 10 else p.memory + 4
  {
    var cpu := ToFixed1(p.cpuTenths as real / 10.0 + (d.cpu - 0.5) * 2.0);
    var memory := p.memory + MemoryDelta(d.memory);
    p.(cpuTenths := if cpu < 0 then 0 else cpu,
       memory := if memory < 10 then 10 else memory)
  }

  /** The interval body: a paused table stays as it is; otherwise every row is perturbed. */
  function Tick(rows: seq<SystemProcess>, paused: bool, draws: seq<TickDraw>): (next: seq<SystemProcess>)
    requires |draws| == |rows|
    ensures paused ==> next == rows
    ensures SameRows(rows, next)
    ensures !paused ==> Clamped(next)
    ensures Clamped(rows) ==> Clamped(next)
    ensures !paused ==> forall i :: 0 <= i < |rows| ==> next[i] == TickRow(rows[i], draws[i])
  {
    if paused then
      rows
    else
      seq(|rows|, i requires 0 <= i < |rows| => TickRow(rows[i], draws[i]))
  }

  /** Every row satisfies the tick's clamps: CPU load not negative, memory at least 10 MB. */
  ghost predicate Clamped(rows: seq<SystemProcess>) {
    forall i :: 0 <= i < |rows| ==> 0 <= rows[i].cpuTenths && 10 <= rows[i].memory
  }

  /** Two tables list the same processes in the same order, whatever their load figures. */
  ghost predicate SameRows(a: seq<SystemProcess>, b: seq<SystemProcess>) {
    && |a| == |b|
    && forall i :: 0 <= i < |a| ==>
         a[i].pid == b[i].pid && a[i].name == b[i].name &&
         a[i].isHidden == b[i].isHidden && a[i].status == b[i].status
  }

  /** Generated rows already satisfy the tick's clamps. */
  lemma GeneratedClamped(draws: seq<RowDraw>)
    requires |draws| == RowCount
    ensures Clamped(Generate(draws))
  {
  }

  /** One firing of the interval: whether the table was paused, and the draws for each row. */
  datatype Round = Round(paused: bool, draws: seq<TickDraw>)

  /** The table after a series of interval firings. */
  function RunTicks(rows: seq<SystemProcess>, rounds: seq<Round>): (final: seq<SystemProcess>)
    requires forall k :: 0 <= k < |rounds| ==> |rounds[k].draws| == |rows|
    ensures SameRows(rows, final)
    ensures Clamped(rows) ==> Clamped(final)
    ensures (exists k :: 0 <= k < |rounds| && !rounds[k].paused) ==> Clamped(final)
    decreases |rounds|
  {
    if rounds == [] then rows
    else
      var next := Tick(rows, rounds[0].paused, rounds[0].draws);
      assert forall k :: 0 <= k < |rounds[1..]| ==> |rounds[1..][k].draws| == |next|;
      var final := RunTicks(next, rounds[1..]);
      assert (exists k :: 0 <= k < |rounds[1..]| && !rounds[1..][k].paused) ==> Clamped(final);
      assert (exists k :: 0 <= k < |rounds| && !rounds[k].paused) ==> Clamped(final) by {
        if exists k :: 0 <= k < |rounds| && !rounds[k].paused {
          var k :| 0 <= k < |rounds| && !rounds[k].paused;
          if k > 0 {
            assert !rounds[1..][k - 1].paused;
          }
        }
      }
      final
  }

  /** `xs` lists some of the elements of `ys`, in the order they appear there. */
  predicate IsSubsequence<T(==)>(xs: seq<T>, ys: seq<T>)
    decreases |ys|
  {
    xs == [] ||
    (ys != [] && ((xs[0] == ys[0] && IsSubsequence(xs[1..], ys[1..])) || IsSubsequence(xs, ys[1..])))
  }

  /** `rows.filter(keep)` */
  function Where(rows: seq<SystemProcess>, keep: SystemProcess -> bool): (kept: seq<SystemProcess>)
    ensures |kept| <= |rows|
  {
    if rows == [] then []
    else (if keep(rows[0]) then [rows[0]] else []) + Where(rows[1..], keep)
  }

  /** Filtering keeps exactly the rows `keep` accepts, each as often as before, in their original order. */
  lemma {:induction false} WhereSpec(rows: seq<SystemProcess>, keep: SystemProcess -> bool)
    ensures IsSubsequence(Where(rows, keep), rows)
    ensures forall p :: p in Where(rows, keep) <==> p in rows && keep(p)
    ensures forall p :: multiset(Where(rows, keep))[p] == if keep(p) then multiset(rows)[p] else 0
  {
    if rows != [] {
      WhereSpec(rows[1..], keep);
      assert rows == [rows[0]] + rows[1..];
      var rest := Where(rows[1..], keep);
      var kept := Where(rows, keep);
      if keep(rows[0]) {
        assert kept[0] == rows[0] && kept[1..] == rest;
      } else {
        assert kept == rest;
      }
    }
  }

  /** Filtering distributes over concatenation. */
  lemma {:induction false} WhereAppend(a: seq<SystemProcess>, b: seq<SystemProcess>, keep: SystemProcess -> bool)
    ensures Where(a + b, keep) == Where(a, keep) + Where(b, keep)
  {
    if a == [] {
      assert a + b == b;
    } else {
      var ab := a + b;
      assert ab[0] == a[0] && ab[1..] == a[1..] + b;
      WhereAppend(a[1..], b, keep);
      var head := if keep(a[0]) then [a[0]] else [];
      assert Where(ab, keep) == head + Where(a[1..] + b, keep);
      assert Where(a, keep) == head + Where(a[1..], keep);
    }
  }

  /** A filter that accepts every row keeps the table as it is. */
  lemma {:induction false} WhereAll(rows: seq<SystemProcess>, keep: SystemProcess -> bool)
    requires forall p :: p in rows ==> keep(p)
    ensures Where(rows, keep) == rows
  {
    if rows != [] {
      WhereAll(rows[1..], keep);
    }
  }

  /** The search box test: the lower-cased name contains the lower-cased query, or the decimal pid contains the query. */
  predicate MatchesQuery(p: SystemProcess, query: string) {
    Contains(ToLower(p.name), ToLower(query)) || Contains(IntToString(p.pid), query)
  }

  /** `filteredProcesses`: the rows the search query matches, in table order. */
  function Search(rows: seq<SystemProcess>, query: string): (shown: seq<SystemProcess>)
    ensures IsSubsequence(shown, rows)
    ensures forall p :: p in shown <==> p in rows && MatchesQuery(p, query)
    ensures forall p :: multiset(shown)[p] == if MatchesQuery(p, query) then multiset(rows)[p] else 0
  {
    WhereSpec(rows, p => MatchesQuery(p, query));
    Where(rows, p => MatchesQuery(p, query))
  }

  /** An empty search box shows every row. */
  lemma SearchEmptyShowsAll(rows: seq<SystemProcess>)
    ensures Search(rows, "") == rows
  {
    forall p | p in rows
      ensures MatchesQuery(p, "")
    {
      ContainsEmpty(ToLower(p.name));
    }
    WhereAll(rows, p => MatchesQuery(p, ""));
  }

  /** A pid is found by typing any part of its decimal form. */
  lemma SearchFindsPid(rows: seq<SystemProcess>, p: SystemProcess, before: string, typed: string, after: string)
    requires p in rows
    requires IntToString(p.pid) == before + typed + after
    ensures p in Search(rows, typed)
  {
    ContainsInfix(before, typed, after);
  }
}
