/**
 * The CPU scheduling simulator of the `process` command.  The process list
 * is a parameter here (the program always uses the sample below).  Both
 * implemented policies put the processes in some order and then run them
 * to completion one after the other with the same clock rule: a process
 * starts when the clock reaches its arrival time, runs for its burst, and
 * the clock moves on to its end.
 */
module ProcessScheduling {
  import opened AlgorithmTable

  /** A process of the simulation, as the local `Process` struct holds it. */
  datatype Process = Process(id: int, arrival: int, burst: int, priority: int)

  /** One entry of the execution timeline: process `id` runs from `start` to `end`. */
  datatype Slot = Slot(id: int, start: int, end: int)

  function Max(a: int, b: int): int
  {
    if a < b then b else a
  }

  /**
   * The timeline of running `ps` in order from clock `clock`: each process
   * starts at the later of the clock and its arrival, and the clock becomes
   * its end.
   */
  function Schedule(ps: seq<Process>, clock: int): (r: seq<Slot>)
    ensures |r| == |ps|
  {
    if ps == [] then []
    else
      var start := if ps[0].arrival > clock then ps[0].arrival else clock;
      [Slot(ps[0].id, start, start + ps[0].burst)] + Schedule(ps[1..], start + ps[0].burst)
  }

  /**
   * The clock rule, entry by entry: entry `i` is process `i`, starts at the
   * later of its arrival and the end of the entry before it (the starting
   * clock for the first), and ends one burst later.
   */
  lemma {:induction false} ScheduleEntry(ps: seq<Process>, clock: int, i: nat)
    requires i < |ps|
    ensures var r := Schedule(ps, clock);
      && r[i].id == ps[i].id
      && r[i].start == Max(if i == 0 then clock else r[i - 1].end, ps[i].arrival)
      && r[i].end == r[i].start + ps[i].burst
    decreases i
  {
    var r := Schedule(ps, clock);
    var start := if ps[0].arrival > clock then ps[0].arrival else clock;
    var r' := Schedule(ps[1..], start + ps[0].burst);
    assert r == [Slot(ps[0].id, start, start + ps[0].burst)] + r';
    if i > 0 {
      ScheduleEntry(ps[1..], start + ps[0].burst, i - 1);
      assert ps[1..][i - 1] == ps[i];
      assert r[i] == r'[i - 1];
      if i > 1 {
        assert r[i - 1] == r'[i - 2];
      }
    }
  }

  /** No process starts before it arrives, whatever the bursts. */
  lemma StartNotBeforeArrival(ps: seq<Process>, clock: int, i: nat)
    requires i < |ps|
    ensures Schedule(ps, clock)[i].start >= ps[i].arrival
  {
    ScheduleEntry(ps, clock, i);
  }

  /** With non-negative bursts, no process starts before the starting clock. */
  lemma StartNotBeforeClock(ps: seq<Process>, clock: int, i: nat)
    requires i < |ps|
    requires forall k :: 0 <= k < |ps| ==> ps[k].burst >= 0
    ensures Schedule(ps, clock)[i].start >= clock
  {
    ScheduleEntry(ps, clock, i);
    if i > 0 {
      StartNotBeforeClock(ps, clock, i - 1);
      ScheduleEntry(ps, clock, i - 1);
    }
  }

  /**
   * With non-negative bursts the clock never goes back: an entry ends no
   * earlier than it starts, and every later entry starts no earlier than it
   * ends, so no two entries overlap.
   */
  lemma {:induction false} NoOverlap(ps: seq<Process>, clock: int, i: nat, j: nat)
    requires i < j < |ps|
    requires forall k :: 0 <= k < |ps| ==> ps[k].burst >= 0
    ensures var r := Schedule(ps, clock);
      r[i].start <= r[i].end <= r[j].start <= r[j].end
    decreases j - i
  {
    ScheduleEntry(ps, clock, i);
    ScheduleEntry(ps, clock, j);
    if j > i + 1 {
      NoOverlap(ps, clock, i + 1, j);
      ScheduleEntry(ps, clock, i + 1);
    }
  }

  /** Running the processes in the given order, as the timeline loop does. */
  method RunInOrder(order: seq<Process>) returns (timeline: seq<Slot>)
    ensures timeline == Schedule(order, 0)
  {
    timeline := [];
    var currentTime := 0;
    for i := 0 to |order|
      invariant timeline + Schedule(order[i..], currentTime) == Schedule(order, 0)
    {
      var proc := order[i];
      assert order[i..][1..] == order[i + 1..];
      if proc.arrival > currentTime {
        currentTime := proc.arrival;
      }
      timeline := timeline + [Slot(proc.id, currentTime, currentTime + proc.burst)];
      currentTime := currentTime + proc.burst;
    }
  }

  /** Non-decreasing burst. */
  predicate SortedByBurst(s: seq<Process>)
  {
    forall k, l :: 0 <= k < l < |s| ==> s[k].burst <= s[l].burst
  }

  /** Exchanging two neighbours keeps the same processes. */
  method SwapWithPrevious(a: array<Process>, j: int)
    requires 0 < j < a.Length
    modifies a
    ensures a[..] == old(a[..])[j - 1 := old(a[j])][j := old(a[j - 1])]
    ensures multiset(a[..]) == multiset(old(a[..]))
  {
    ghost var before := a[..];
    a[j - 1], a[j] := a[j], a[j - 1];
    SwapMultiset(before, j);
  }

  lemma SwapMultiset(s: seq<Process>, j: int)
    requires 0 < j < |s|
    ensures multiset(s[j - 1 := s[j]][j := s[j - 1]]) == multiset(s)
  {
    var t := s[j - 1 := s[j]][j := s[j - 1]];
    assert s == s[..j - 1] + [s[j - 1], s[j]] + s[j + 1..];
    assert t == s[..j - 1] + [s[j], s[j - 1]] + s[j + 1..];
  }

  /**
   * Midway through one pass of insertion on the first `i + 1` processes:
   * the one being inserted sits at `j`, the others are in burst order, and
   * everything to the right of `j` has a longer burst.
   */
  predicate Inserting(s: seq<Process>, i: int, j: int)
  {
    && 0 <= j <= i < |s|
    && (forall k, l :: 0 <= k < l <= i && k != j && l != j ==> s[k].burst <= s[l].burst)
    && (forall l :: j < l <= i ==> s[j].burst < s[l].burst)
  }

  /**
   * One pass of insertion: the process at `i` moves left past every
   * process with a longer burst, so the first `i + 1` become sorted; they
   * are the same processes as before, and those after them stay put.
   */
  method InsertAt(a: array<Process>, i: int)
    requires 0 < i < a.Length && SortedByBurst(a[..i])
    modifies a
    ensures SortedByBurst(a[..i + 1])
    ensures multiset(a[..i + 1]) == multiset(old(a[..i + 1]))
    ensures a[i + 1..] == old(a[i + 1..])
    ensures multiset(a[..]) == multiset(old(a[..]))
  {
    ghost var prefix, suffix := a[..i + 1], a[i + 1..];
    var j := i;
    InsertStart(a[..], i);
    while j > 0 && a[j - 1].burst > a[j].burst
      invariant Inserting(a[..], i, j)
      invariant multiset(a[..i + 1]) == multiset(prefix)
      invariant a[i + 1..] == suffix
      decreases j
    {
      ghost var before := a[..];
      SwapWithPrevious(a, j);
      InsertStep(before, a[..], i, j);
      j := j - 1;
    }
    InsertDone(a[..], i, j);
    SplitMultiset(a[..], old(a[..]), i + 1);
  }

  lemma InsertStart(s: seq<Process>, i: int)
    requires 0 < i < |s| && SortedByBurst(s[..i])
    ensures Inserting(s, i, i)
  {
    assert forall k :: 0 <= k < i ==> s[..i][k] == s[k];
  }

  /** Swapping the inserted process with a longer neighbour on its left moves it one place on. */
  lemma InsertStep(before: seq<Process>, after: seq<Process>, i: int, j: int)
    requires Inserting(before, i, j) && j > 0 && before[j - 1].burst > before[j].burst
    requires after == before[j - 1 := before[j]][j := before[j - 1]]
    ensures Inserting(after, i, j - 1)
    ensures multiset(after[..i + 1]) == multiset(before[..i + 1])
    ensures after[i + 1..] == before[i + 1..]
  {
    assert after[..i + 1] == before[..i + 1][j - 1 := before[j]][j := before[j - 1]];
    SwapMultiset(before[..i + 1], j);
  }

  /** A pass that has stopped leaves the first `i + 1` sorted. */
  lemma InsertDone(s: seq<Process>, i: int, j: int)
    requires Inserting(s, i, j) && (j == 0 || s[j - 1].burst <= s[j].burst)
    ensures SortedByBurst(s[..i + 1])
  {
  }

  /** Equal prefix multisets and equal suffixes give equal multisets. */
  lemma SplitMultiset(s: seq<Process>, t: seq<Process>, n: int)
    requires 0 <= n <= |s| && n <= |t|
    requires multiset(s[..n]) == multiset(t[..n]) && s[n..] == t[n..]
    ensures multiset(s) == multiset(t)
  {
    assert s == s[..n] + s[n..];
    assert t == t[..n] + t[n..];
  }

  /**
   * Sorting a copy by burst.  `std::sort` is not stable: only the result
   * being sorted and a permutation is promised, so this insertion sort
   * stands for any algorithm with that contract.
   */
  method SortByBurst(a: array<Process>)
    modifies a
    ensures SortedByBurst(a[..])
    ensures multiset(a[..]) == multiset(old(a[..]))
  {
    if a.Length == 0 {
      return;
    }
    for i := 1 to a.Length
      invariant SortedByBurst(a[..i])
      invariant multiset(a[..]) == multiset(old(a[..]))
    {
      InsertAt(a, i);
    }
    assert a[..a.Length] == a[..];
  }

  /** The SJF order: a copy of the processes sorted by burst. */
  method ShortestJobFirstOrder(procs: seq<Process>) returns (order: seq<Process>)
    ensures SortedByBurst(order)
    ensures multiset(order) == multiset(procs)
  {
    var a := new Process[|procs|](i requires 0 <= i < |procs| => procs[i]);
    assert a[..] == procs;
    SortByBurst(a);
    order := a[..];
  }

  /** No two processes have the same burst. */
  predicate DistinctBursts(s: seq<Process>)
  {
    forall k, l :: 0 <= k < |s| && 0 <= l < |s| && s[k].burst == s[l].burst ==> k == l
  }

  /** Two sorted permutations start with the same process when bursts are distinct. */
  lemma SortedPermutationHead(a: seq<Process>, b: seq<Process>)
    requires |a| > 0 && |b| > 0 && multiset(a) == multiset(b)
    requires SortedByBurst(a) && SortedByBurst(b) && DistinctBursts(a)
    ensures a[0] == b[0]
  {
    assert a[0] in multiset(b);
    var j :| 0 <= j < |b| && b[j] == a[0];
    assert b[0] in multiset(a);
    var k :| 0 <= k < |a| && a[k] == b[0];
    assert b[0].burst <= b[j].burst;
    assert a[0].burst <= a[k].burst;
  }

  /** Dropping the first process keeps the order and the distinct bursts. */
  lemma TailSorted(a: seq<Process>)
    requires |a| > 0 && SortedByBurst(a)
    ensures SortedByBurst(a[1..])
    ensures DistinctBursts(a) ==> DistinctBursts(a[1..])
  {
    assert forall m :: 0 <= m < |a| - 1 ==> a[1..][m] == a[m + 1];
  }

  /** Equal multisets with equal first elements have equal multisets after it. */
  lemma TailMultiset(a: seq<Process>, b: seq<Process>)
    requires |a| > 0 && |b| > 0 && multiset(a) == multiset(b) && a[0] == b[0]
    ensures multiset(a[1..]) == multiset(b[1..])
  {
    assert a == [a[0]] + a[1..];
    assert b == [b[0]] + b[1..];
    assert multiset(a) == multiset{a[0]} + multiset(a[1..]);
    assert multiset(b) == multiset{a[0]} + multiset(b[1..]);
    assert multiset(a[1..]) == multiset(a) - multiset{a[0]};
    assert multiset(b[1..]) == multiset(b) - multiset{a[0]};
  }

  /**
   * When bursts are distinct the order the sort leaves is determined:
   * any two sorted permutations of the same processes are equal.
   */
  lemma {:induction false} SortedPermutationUnique(a: seq<Process>, b: seq<Process>)
    requires multiset(a) == multiset(b)
    requires SortedByBurst(a) && SortedByBurst(b) && DistinctBursts(a)
    ensures a == b
    decreases |a|
  {
    assert |a| == |multiset(a)| == |multiset(b)| == |b|;
    if |a| > 0 {
      SortedPermutationHead(a, b);
      TailMultiset(a, b);
      TailSorted(a);
      assert multiset(a[1..]) == multiset(b[1..]);
      TailSorted(b);
      SortedPermutationUnique(a[1..], b[1..]);
      assert a == [a[0]] + a[1..] && b == [b[0]] + b[1..];
    }
  }

  /** The outcome of the `process` command. */
  datatype ProcessOutcome =
    | ShowTable(listing: Listing)
    | NotImplemented(algorithm: string)
    | Simulated(name: string, order: seq<Process>, timeline: seq<Slot>)

  /** The `process <algorithm>` command, on a given process list. */
  method HandleProcessScheduling(algorithm: string, procs: seq<Process>) returns (out: ProcessOutcome)
    ensures out.ShowTable? <==> algorithm == [] || Lookup(ProcessTable, algorithm).None?
    ensures out.ShowTable? ==> out.listing == ListTable(ProcessTable)
    ensures out.ShowTable? ==> out.listing == LengthError(["  fcfs  " + "First-Come, First-Served"])
    ensures out.NotImplemented? <==> algorithm in {"priority", "rr", "srjf"}
    ensures out.NotImplemented? ==> out.algorithm == algorithm
    ensures algorithm == "fcfs" ==>
      && out.Simulated? && out.name == "First-Come, First-Served"
      && out.order == procs
      && out.timeline == Schedule(out.order, 0)
    ensures algorithm == "sjf" ==>
      && out.Simulated? && out.name == "Shortest Job First"
      && SortedByBurst(out.order) && multiset(out.order) == multiset(procs)
      && out.timeline == Schedule(out.order, 0)
  {
    var found := Lookup(ProcessTable, algorithm);
    ProcessLookup(algorithm);
    ProcessUnimplemented(algorithm);
    if algorithm == [] || found.None? {
      ProcessListingThrows();
      out := ShowTable(ListTable(ProcessTable));
      return;
    }
    var name := found.value;
    if algorithm == "fcfs" {
      var timeline := RunInOrder(procs);
      out := Simulated(name, procs, timeline);
    } else if algorithm == "sjf" {
      var order := ShortestJobFirstOrder(procs);
      var timeline := RunInOrder(order);
      out := Simulated(name, order, timeline);
    } else {
      out := NotImplemented(algorithm);
    }
  }

  /** The processes the program simulates. */
  const SampleProcesses: seq<Process> :=
    [Process(1, 0, 8, 3), Process(2, 1, 4, 1), Process(3, 2, 9, 4), Process(4, 3, 5, 2)]

  /** First-come, first-served on the sample: P1 0-8, P2 8-12, P3 12-21, P4 21-26. */
  lemma FcfsSampleTimeline()
    ensures Schedule(SampleProcesses, 0) == [Slot(1, 0, 8), Slot(2, 8, 12), Slot(3, 12, 21), Slot(4, 21, 26)]
  {
    var procs := SampleProcesses;
    ScheduleEntry(procs, 0, 0);
    ScheduleEntry(procs, 0, 1);
    ScheduleEntry(procs, 0, 2);
    ScheduleEntry(procs, 0, 3);
  }

  /** The SJF order of the sample is P2, P4, P1, P3, whatever sort algorithm is used. */
  lemma SjfSampleOrder(order: seq<Process>)
    requires SortedByBurst(order) && multiset(order) == multiset(SampleProcesses)
    ensures order == [SampleProcesses[1], SampleProcesses[3], SampleProcesses[0], SampleProcesses[2]]
  {
    var procs := SampleProcesses;
    var expected := [procs[1], procs[3], procs[0], procs[2]];
    assert procs == [procs[0], procs[1], procs[2], procs[3]];
    assert multiset(expected) == multiset(procs);
    SortedPermutationUnique(expected, order);
  }

  /** SJF on the sample: P2 1-5, P4 5-10, P1 10-18, P3 18-27. */
  lemma SjfSampleTimeline(order: seq<Process>)
    requires order == [Process(2, 1, 4, 1), Process(4, 3, 5, 2), Process(1, 0, 8, 3), Process(3, 2, 9, 4)]
    ensures Schedule(order, 0) == [Slot(2, 1, 5), Slot(4, 5, 10), Slot(1, 10, 18), Slot(3, 18, 27)]
  {
    ScheduleEntry(order, 0, 0);
    ScheduleEntry(order, 0, 1);
    ScheduleEntry(order, 0, 2);
    ScheduleEntry(order, 0, 3);
  }

  /**
   * Sorting by burst alone leaves the CPU idle while a process is ready:
   * on the sample P1 arrives at 0, but the first process run (P2) cannot
   * start before it arrives at 1.
   */
  lemma SjfSampleIdles(order: seq<Process>)
    requires SortedByBurst(order) && multiset(order) == multiset(SampleProcesses)
    ensures SampleProcesses[0].arrival == 0 && SampleProcesses[0] in order
    ensures Schedule(order, 0)[0].start == 1
  {
    SjfSampleOrder(order);
    SjfSampleTimeline(order);
  }
}
