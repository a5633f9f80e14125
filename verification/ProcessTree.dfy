/**
 The processes a run started, found by widening from the run's own process over one listing of
 the machine (`scripts/run-suite-cost.py`).
 */
module ProcessTree {

  /** One row of the listing. */
  datatype Row = Row(pid: int, parent: int, program: string)

  /** Whether the listing says `child` is a child of `parent`. */
  predicate Child(rows: seq<Row>, parent: int, child: int) {
    exists i :: 0 <= i < |rows| && rows[i].pid == child && rows[i].parent == parent
  }

  /** A chain of children from `root` down to `pid`. */
  predicate Chain(rows: seq<Row>, root: int, pid: int, path: seq<int>) {
    && path != [] && path[0] == root && path[|path| - 1] == pid
    && forall i :: 0 <= i < |path| - 1 ==> Child(rows, path[i], path[i + 1])
  }

  /** A process the run started, itself or through others. */
  ghost predicate Started(rows: seq<Row>, root: int, pid: int) {
    exists path :: Chain(rows, root, pid, path)
  }

  function Pids(rows: seq<Row>): set<int> {
    set i | 0 <= i < |rows| :: rows[i].pid
  }

  /** The processes whose parent is among `of`. */
  function ChildrenOf(rows: seq<Row>, of: set<int>): (children: set<int>)
    ensures children <= Pids(rows)
  {
    set i | 0 <= i < |rows| && rows[i].parent in of :: rows[i].pid
  }

  lemma {:induction false} NoMorePidsThanRows(rows: seq<Row>)
    ensures |Pids(rows)| <= |rows|
  {
    if rows != [] {
      var init, last := rows[..|rows| - 1], rows[|rows| - 1];
      NoMorePidsThanRows(init);
      assert Pids(rows) == Pids(init) + {last.pid} by {
        forall pid | pid in Pids(init) ensures pid in Pids(rows) {
          var i :| 0 <= i < |init| && init[i].pid == pid;
          assert rows[i].pid == pid;
        }
        assert rows[|rows| - 1].pid in Pids(rows);
      }
    }
  }

  lemma {:induction false} Bounded<T>(small: set<T>, large: set<T>)
    requires small <= large
    ensures |small| <= |large|
    ensures |small| == |large| ==> small == large
    decreases large
  {
    if small != large {
      var one :| one in large && one !in small;
      Bounded(small, large - {one});
    }
  }

  /** A child of a started process was started. */
  lemma ChildIsStarted(rows: seq<Row>, root: int, parent: int, child: int)
    requires Started(rows, root, parent) && Child(rows, parent, child)
    ensures Started(rows, root, child)
  {
    var path :| Chain(rows, root, parent, path);
    assert Chain(rows, root, child, path + [child]);
  }

  /** What holds the root and every child of what it holds holds every process started. */
  lemma {:induction false} ClosedHoldsStarted(rows: seq<Row>, root: int, of: set<int>, pid: int, path: seq<int>)
    requires root in of && ChildrenOf(rows, of) <= of && Chain(rows, root, pid, path)
    ensures pid in of
    decreases |path|
  {
    if |path| > 1 {
      var before := path[..|path| - 1];
      ClosedHoldsStarted(rows, root, of, before[|before| - 1], before);
      assert Child(rows, path[|path| - 2], path[|path| - 1]);
      var i :| 0 <= i < |rows| && rows[i].pid == pid && rows[i].parent == path[|path| - 2];
      assert rows[i].pid in ChildrenOf(rows, of);
    }
  }

  /** Widens from the run's process at most once for each row: it holds exactly the processes the run started. */
  method Descendants(rows: seq<Row>, root: int) returns (descendants: set<int>)
    ensures forall pid :: pid in descendants <==> Started(rows, root, pid)
  {
    descendants := {root};
    assert Chain(rows, root, root, [root]);
    NoMorePidsThanRows(rows);
    var closed := false;
    for i := 0 to |rows|
      invariant root in descendants && forall pid | pid in descendants :: Started(rows, root, pid)
      invariant |descendants * Pids(rows)| >= i
    {
      var found := ChildrenOf(rows, descendants);
      if found <= descendants {
        closed := true;
        break;
      }
      ghost var held := descendants * Pids(rows);
      forall pid | pid in found ensures Started(rows, root, pid) {
        var k :| 0 <= k < |rows| && rows[k].parent in descendants && rows[k].pid == pid;
        ChildIsStarted(rows, root, rows[k].parent, pid);
      }
      ghost var another :| another in found && another !in descendants;
      descendants := descendants + found;
      Bounded(held + {another}, descendants * Pids(rows));
    }
    if !closed {
      Bounded(descendants * Pids(rows), Pids(rows));
      assert ChildrenOf(rows, descendants) <= descendants;
    }
    forall pid | Started(rows, root, pid) ensures pid in descendants {
      var path :| Chain(rows, root, pid, path);
      ClosedHoldsStarted(rows, root, descendants, pid, path);
    }
  }
}
