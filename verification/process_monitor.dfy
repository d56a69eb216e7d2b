/**
  The process monitor panel as a whole (`components/ProcessMonitor.tsx`): the
  row table, the sort header, the pause button, the search box and the detail
  modal, each user action a function from one panel state to the next. The
  two-second timer and the random draws are arguments: the timer becomes a
  `Tick` the caller applies, and every draw is a `Unit` value.
 */
module ProcessMonitor {
  import opened Types
  import ProcessTable
  import ProcessSort
  import ProcessDetails

  /** The component's state hooks. */
  datatype Monitor = Monitor(
    processes: seq<SystemProcess>,
    sort: ProcessSort.SortState,
    paused: bool,
    query: string,
    selected: Option<SystemProcess>,
    details: Option<ProcessDetails.ProcessDetails>)

  /** The modal is open exactly when a row is selected and its details were derived. */
  predicate ModalConsistent(m: Monitor) {
    m.selected.Some? <==> m.details.Some?
  }

  /**
    The first render: a fresh table of 25 rows, sorted by CPU load descending,
    running, with an empty search box and no modal.
   */
  function Mount(draws: seq<ProcessTable.RowDraw>): (m: Monitor)
    requires |draws| == ProcessTable.RowCount
    ensures ModalConsistent(m) && m.selected.None?
    ensures |m.processes| == ProcessTable.RowCount && ProcessTable.Clamped(m.processes)
    ensures m.processes == ProcessTable.Generate(draws)
    ensures m.sort == ProcessSort.SortState(ProcessSort.Cpu, ProcessSort.Desc)
    ensures !m.paused && m.query == ""
  {
    ProcessTable.GeneratedClamped(draws);
    Monitor(ProcessTable.Generate(draws), ProcessSort.InitialSort, false, "", None, None)
  }

  /**
    The pause button. The generating effect depends on the pause flag, so
    flipping it also replaces the table with a freshly generated one.
   */
  function TogglePause(m: Monitor, draws: seq<ProcessTable.RowDraw>): (r: Monitor)
    requires |draws| == ProcessTable.RowCount
    ensures r.paused == !m.paused
    ensures r.processes == ProcessTable.Generate(draws)
    ensures |r.processes| == ProcessTable.RowCount && ProcessTable.Clamped(r.processes)
    ensures r.(processes := m.processes, paused := m.paused) == m
  {
    ProcessTable.GeneratedClamped(draws);
    m.(processes := ProcessTable.Generate(draws), paused := !m.paused)
  }

  /**
    One firing of the two-second timer. The modal keeps the snapshot taken
    when the row was clicked.
   */
  function Tick(m: Monitor, draws: seq<ProcessTable.TickDraw>): (r: Monitor)
    requires |draws| == |m.processes|
    ensures r.processes == ProcessTable.Tick(m.processes, m.paused, draws)
    ensures m.paused ==> r == m
    ensures ProcessTable.SameRows(m.processes, r.processes)
    ensures !m.paused ==> ProcessTable.Clamped(r.processes)
    ensures r.(processes := m.processes) == m
  {
    m.(processes := ProcessTable.Tick(m.processes, m.paused, draws))
  }

  /** Typing in the search box; the clear button sets the empty query. */
  function SetQuery(m: Monitor, query: string): (r: Monitor)
    ensures r.query == query && r.(query := m.query) == m
  {
    m.(query := query)
  }

  /** A click on a column header. */
  function ClickHeader(m: Monitor, field: ProcessSort.SortField): (r: Monitor)
    ensures r.sort.field == field
    ensures r.sort.direction == (if m.sort.field == field then ProcessSort.Flip(m.sort.direction) else ProcessSort.Desc)
    ensures r.(sort := m.sort) == m
  {
    m.(sort := ProcessSort.HandleSort(m.sort, field))
  }

  /** `handleRowClick` (the row itself and its INFO button): open the modal on `p`. */
  function RowClick(m: Monitor, p: SystemProcess, d: ProcessDetails.DetailDraws): (r: Monitor)
    requires |d.hash| == 64
    ensures ModalConsistent(r)
    ensures r.selected == Some(p)
    ensures r.details == Some(ProcessDetails.Derive(p, d))
    ensures r.details.value.riskScore <= 100
    ensures r.(selected := m.selected, details := m.details) == m
  {
    m.(selected := Some(p), details := Some(ProcessDetails.Derive(p, d)))
  }

  /** `closeModal` */
  function CloseModal(m: Monitor): (r: Monitor)
    ensures ModalConsistent(r) && r.selected.None?
    ensures r.(selected := m.selected, details := m.details) == m
  {
    m.(selected := None, details := None)
  }

  /** The filter predicate of a kill: every row whose pid differs. */
  function OtherThan(pid: int): SystemProcess -> bool {
    (q: SystemProcess) => q.pid != pid
  }

  /**
    `handleKillProcess`: drop every row with the pid, and close the modal if
    it shows that pid.
   */
  function Kill(m: Monitor, pid: int): (r: Monitor)
    ensures forall q :: q in r.processes <==> q in m.processes && q.pid != pid
    ensures ProcessTable.IsSubsequence(r.processes, m.processes)
    ensures forall q :: multiset(r.processes)[q] == if q.pid != pid then multiset(m.processes)[q] else 0
    ensures m.selected.Some? && m.selected.value.pid == pid ==> r.selected.None? && r.details.None?
    ensures !(m.selected.Some? && m.selected.value.pid == pid) ==> r.selected == m.selected && r.details == m.details
    ensures ModalConsistent(m) ==> ModalConsistent(r)
    ensures r.sort == m.sort && r.paused == m.paused && r.query == m.query
  {
    ProcessTable.WhereSpec(m.processes, OtherThan(pid));
    var rest := m.(processes := ProcessTable.Where(m.processes, OtherThan(pid)));
    if m.selected.Some? && m.selected.value.pid == pid then CloseModal(rest) else rest
  }

  /**
    The rows on screen: the search result, sorted by the current column and
    direction. The sort is stable, so rows that tie on the column stay in
    table order.
   */
  function Visible(m: Monitor): (shown: seq<SystemProcess>)
    ensures forall q :: q in shown <==> q in m.processes && ProcessTable.MatchesQuery(q, m.query)
    ensures multiset(shown) == multiset(ProcessTable.Search(m.processes, m.query))
    ensures ProcessSort.Sorted(shown, m.sort)
    ensures forall k :: ProcessTable.Where(shown, ProcessSort.TiesWith(k, m.sort))
                     == ProcessTable.Where(ProcessTable.Search(m.processes, m.query), ProcessSort.TiesWith(k, m.sort))
    ensures |shown| <= |m.processes|
  {
    var found := ProcessTable.Search(m.processes, m.query);
    var shown := ProcessSort.Sort(found, m.sort);
    forall k
      ensures ProcessTable.Where(shown, ProcessSort.TiesWith(k, m.sort))
           == ProcessTable.Where(found, ProcessSort.TiesWith(k, m.sort))
    {
      ProcessSort.SortIsStable(found, k, m.sort);
    }
    assert forall q :: q in shown <==> q in found by {
      forall q ensures q in shown <==> q in found {
        assert q in shown <==> q in multiset(shown);
        assert q in found <==> q in multiset(found);
      }
    }
    shown
  }

  /** With an empty search box the screen shows every row, each exactly as often as the table holds it. */
  lemma EmptyQueryShowsAll(m: Monitor)
    requires m.query == ""
    ensures multiset(Visible(m)) == multiset(m.processes)
  {
    ProcessTable.SearchEmptyShowsAll(m.processes);
  }

  /** Applying two filters one after the other does not depend on their order. */
  lemma {:induction false} WhereCommutes(rows: seq<SystemProcess>, k1: SystemProcess -> bool, k2: SystemProcess -> bool)
    ensures ProcessTable.Where(ProcessTable.Where(rows, k1), k2) == ProcessTable.Where(ProcessTable.Where(rows, k2), k1)
  {
    if rows != [] {
      WhereCommutes(rows[1..], k1, k2);
      var x := rows[0];
      var w1 := ProcessTable.Where(rows, k1);
      var w2 := ProcessTable.Where(rows, k2);
      if k1(x) {
        assert w1[0] == x && w1[1..] == ProcessTable.Where(rows[1..], k1);
      } else {
        assert w1 == ProcessTable.Where(rows[1..], k1);
      }
      if k2(x) {
        assert w2[0] == x && w2[1..] == ProcessTable.Where(rows[1..], k2);
      } else {
        assert w2 == ProcessTable.Where(rows[1..], k2);
      }
    }
  }

  /** Killing a pid twice is the same as killing it once. */
  lemma KillIdempotent(m: Monitor, pid: int)
    ensures Kill(Kill(m, pid), pid) == Kill(m, pid)
  {
    var once := Kill(m, pid);
    ProcessTable.WhereAll(once.processes, OtherThan(pid));
  }

  /** Two kills give the same table in either order. */
  lemma KillsCommute(m: Monitor, a: int, b: int)
    ensures Kill(Kill(m, a), b).processes == Kill(Kill(m, b), a).processes
  {
    WhereCommutes(m.processes, OtherThan(a), OtherThan(b));
  }

  /** After a kill, no row with that pid is on screen whatever the query and sort. */
  lemma KilledRowIsGone(m: Monitor, pid: int)
    ensures forall q :: q in Visible(Kill(m, pid)) ==> q.pid != pid
  {
  }

  /** Opening and then closing the modal leaves the panel as a plain close would. */
  lemma ClickThenCloseIsClose(m: Monitor, p: SystemProcess, d: ProcessDetails.DetailDraws)
    requires |d.hash| == 64
    ensures CloseModal(RowClick(m, p, d)) == CloseModal(m)
  {
  }

  /** Terminating from the modal closes it and removes the selected row. */
  lemma TerminateFromModal(m: Monitor)
    requires m.selected.Some?
    ensures Kill(m, m.selected.value.pid).selected.None?
    ensures m.selected.value !in Kill(m, m.selected.value.pid).processes
  {
  }
}
