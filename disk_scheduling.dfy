/**
 * The disk-arm scheduling simulator of the `disk` command.  The request
 * queue and the starting head position are parameters here (the program
 * always uses the sample below).  Both implemented policies build the
 * sequence of head positions it visits, starting at the head, and add up
 * the distance the head travels.
 */
module DiskScheduling {
  import opened AlgorithmTable

  /** `abs` on the difference of two positions. */
  function Abs(x: int): nat
  {
    if x < 0 then -x else x
  }

  /** Total head movement along a visit sequence: the sum of |s[i] - s[i-1]| over consecutive positions. */
  function SeekDistance(s: seq<int>): nat
  {
    if |s| <= 1 then 0 else SeekDistance(s[..|s| - 1]) + Abs(s[|s| - 1] - s[|s| - 2])
  }

  /** The head travels nowhere exactly when it never leaves its first position. */
  lemma {:induction false} SeekDistanceZero(s: seq<int>)
    ensures SeekDistance(s) == 0 <==> forall i :: 0 <= i < |s| ==> s[i] == s[0]
  {
    if |s| > 1 {
      var p := s[..|s| - 1];
      SeekDistanceZero(p);
      assert forall i :: 0 <= i < |p| ==> p[i] == s[i];
    }
  }

  /** The head travels at least the distance between where it starts and where it ends. */
  lemma {:induction false} SeekDistanceAtLeastSpan(s: seq<int>)
    requires |s| > 0
    ensures SeekDistance(s) >= Abs(s[|s| - 1] - s[0])
  {
    if |s| > 1 {
      var p := s[..|s| - 1];
      SeekDistanceAtLeastSpan(p);
      assert p[0] == s[0] && p[|p| - 1] == s[|s| - 2];
    }
  }

  /** Extending a prefix of a visit sequence by one position adds one move. */
  lemma SeekDistancePrefix(s: seq<int>, k: nat)
    requires 0 < k < |s|
    ensures SeekDistance(s[..k + 1]) == SeekDistance(s[..k]) + Abs(s[k - 1] - s[k])
  {
    assert s[..k + 1][..k] == s[..k];
  }

  /** Appending one position adds the distance to it from the previous one. */
  lemma SeekDistanceSnoc(s: seq<int>, x: int)
    requires |s| > 0
    ensures SeekDistance(s + [x]) == SeekDistance(s) + Abs(s[|s| - 1] - x)
  {
    assert (s + [x])[..|s|] == s;
  }

  /** First-come, first-served: the head visits the requests in queue order. */
  method Fcfs(requests: seq<int>, headStart: int) returns (sequence: seq<int>, totalSeek: int)
    ensures sequence == [headStart] + requests
    ensures totalSeek == SeekDistance(sequence)
  {
    var current := headStart;
    sequence := [current];
    totalSeek := 0;
    for i := 0 to |requests|
      invariant sequence == [headStart] + requests[..i]
      invariant current == sequence[|sequence| - 1]
      invariant totalSeek == SeekDistance(sequence)
    {
      var req := requests[i];
      SeekDistanceSnoc(sequence, req);
      totalSeek := totalSeek + Abs(current - req);
      current := req;
      sequence := sequence + [current];
      assert requests[..i + 1] == requests[..i] + [req];
    }
    assert requests[..|requests|] == requests;
  }

  /**
   * `k` is the index `std::min_element` returns when it compares distances
   * from `pos`: a nearest request, and the first of equally near ones.
   */
  predicate IsFirstNearest(pool: seq<int>, pos: int, k: nat)
  {
    && k < |pool|
    && (forall j :: 0 <= j < |pool| ==> Abs(pool[k] - pos) <= Abs(pool[j] - pos))
    && (forall j :: 0 <= j < k ==> Abs(pool[j] - pos) > Abs(pool[k] - pos))
  }

  /** A non-empty pool has a first nearest request. */
  lemma {:induction false} FirstNearestExists(pool: seq<int>, pos: int)
    requires |pool| > 0
    ensures exists k :: IsFirstNearest(pool, pos, k)
  {
    if |pool| == 1 {
      assert IsFirstNearest(pool, pos, 0);
    } else {
      var prefix := pool[..|pool| - 1];
      FirstNearestExists(prefix, pos);
      var m: nat :| IsFirstNearest(prefix, pos, m);
      assert forall j :: 0 <= j < |prefix| ==> prefix[j] == pool[j];
      var last := |pool| - 1;
      if Abs(pool[last] - pos) < Abs(pool[m] - pos) {
        assert IsFirstNearest(pool, pos, last);
      } else {
        assert IsFirstNearest(pool, pos, m);
      }
    }
  }

  /** Being nearest and first among the nearest pins the index down. */
  lemma FirstNearestUnique(pool: seq<int>, pos: int, k: nat, k': nat)
    requires IsFirstNearest(pool, pos, k) && IsFirstNearest(pool, pos, k')
    ensures k == k'
  {
    assert Abs(pool[k] - pos) == Abs(pool[k'] - pos);
  }

  /** The first nearest request of a non-empty pool. */
  ghost function Nearest(pool: seq<int>, pos: int): (k: nat)
    requires |pool| > 0
    ensures IsFirstNearest(pool, pos, k)
  {
    FirstNearestExists(pool, pos);
    var k: nat :| IsFirstNearest(pool, pos, k); k
  }

  /** `remaining.erase(it)`: the same requests with the one at `k` taken out. */
  function RemoveAt(s: seq<int>, k: nat): (r: seq<int>)
    requires k < |s|
    ensures |r| == |s| - 1
  {
    s[..k] + s[k + 1..]
  }

  /** Erasing removes one occurrence of the erased request and nothing else. */
  lemma RemoveAtMultiset(s: seq<int>, k: nat)
    requires k < |s|
    ensures multiset(RemoveAt(s, k)) == multiset(s) - multiset{s[k]}
  {
    assert s == s[..k] + [s[k]] + s[k + 1..];
  }

  /**
   * The order in which shortest-seek-time-first serves `pool` from `pos`:
   * the nearest remaining request (the first of equally near ones), then
   * the rest from there.
   */
  ghost function SstfOrder(pool: seq<int>, pos: int): (r: seq<int>)
    ensures |r| == |pool|
    decreases |pool|
  {
    if pool == [] then []
    else
      var k := Nearest(pool, pos);
      [pool[k]] + SstfOrder(RemoveAt(pool, k), pool[k])
  }

  /** SSTF serves every request exactly once. */
  lemma {:induction false} SstfOrderPermutes(pool: seq<int>, pos: int)
    ensures multiset(SstfOrder(pool, pos)) == multiset(pool)
    decreases |pool|
  {
    if pool != [] {
      var k := Nearest(pool, pos);
      SstfOrderPermutes(RemoveAt(pool, k), pool[k]);
      RemoveAtMultiset(pool, k);
      assert pool[k] in multiset(pool);
    }
  }

  /** One step of the SSTF order: the first nearest request, then the rest from there. */
  lemma SstfStep(pool: seq<int>, pos: int, k: nat)
    requires IsFirstNearest(pool, pos, k)
    ensures SstfOrder(pool, pos) == [pool[k]] + SstfOrder(RemoveAt(pool, k), pool[k])
  {
    FirstNearestUnique(pool, pos, k, Nearest(pool, pos));
  }

  /** The first request served is one no other request is nearer to the head than. */
  lemma SstfFirstIsNearest(pool: seq<int>, pos: int)
    requires |pool| > 0
    ensures var r := SstfOrder(pool, pos);
      forall x :: x in multiset(pool) ==> Abs(r[0] - pos) <= Abs(x - pos)
  {
    var k := Nearest(pool, pos);
    var r := SstfOrder(pool, pos);
    assert r[0] == pool[k];
    forall x | x in multiset(pool) ensures Abs(r[0] - pos) <= Abs(x - pos) {
      var j :| 0 <= j < |pool| && pool[j] == x;
    }
  }

  /** Taking out what was served first and then the next ones is taking out all of them. */
  lemma UnservedAfterFirst(pool: seq<int>, k: nat, r': seq<int>, i: nat)
    requires k < |pool| && 0 < i <= |r'| + 1
    ensures multiset(pool) - multiset(([pool[k]] + r')[..i])
         == multiset(RemoveAt(pool, k)) - multiset(r'[..i - 1])
  {
    RemoveAtMultiset(pool, k);
    assert ([pool[k]] + r')[..i] == [pool[k]] + r'[..i - 1];
  }

  /** `x` is one of `unserved`, and none of `unserved` is nearer to `from`. */
  ghost predicate NearestOf(x: int, from: int, unserved: multiset<int>)
  {
    x in unserved && forall y :: y in unserved ==> Abs(x - from) <= Abs(y - from)
  }

  /**
   * Every step of the SSTF order goes to a request not yet served, and no
   * unserved request is nearer to where the head then is.
   */
  lemma {:induction false} SstfOrderGreedy(pool: seq<int>, pos: int, i: nat)
    requires i < |pool|
    ensures var r := SstfOrder(pool, pos);
      NearestOf(r[i], if i == 0 then pos else r[i - 1], multiset(pool) - multiset(r[..i]))
    decreases |pool|
  {
    var r := SstfOrder(pool, pos);
    if i == 0 {
      assert r[..0] == [];
      SstfFirstIsNearest(pool, pos);
      assert r[0] in multiset(pool);
    } else {
      var k := Nearest(pool, pos);
      var rest := RemoveAt(pool, k);
      var r' := SstfOrder(rest, pool[k]);
      assert r == [pool[k]] + r';
      SstfOrderGreedy(rest, pool[k], i - 1);
      UnservedAfterFirst(pool, k, r', i);
      assert r[i] == r'[i - 1];
      assert r[i - 1] == if i == 1 then pool[k] else r'[i - 2];
    }
  }

  /** The scan `std::min_element` performs over the remaining requests. */
  method FindClosest(remaining: seq<int>, currentPos: int) returns (closest: nat)
    requires |remaining| > 0
    ensures IsFirstNearest(remaining, currentPos, closest)
    ensures closest == Nearest(remaining, currentPos)
  {
    closest := 0;
    for j := 1 to |remaining|
      invariant closest < j
      invariant forall l :: 0 <= l < j ==> Abs(remaining[closest] - currentPos) <= Abs(remaining[l] - currentPos)
      invariant forall l :: 0 <= l < closest ==> Abs(remaining[l] - currentPos) > Abs(remaining[closest] - currentPos)
    {
      if Abs(remaining[j] - currentPos) < Abs(remaining[closest] - currentPos) {
        closest := j;
      }
    }
    FirstNearestUnique(remaining, currentPos, closest, Nearest(remaining, currentPos));
  }

  /**
   * Shortest seek time first, on a working copy of the queue: serve the
   * nearest remaining request and erase it, until none remain.
   */
  method Sstf(requests: seq<int>, headStart: int) returns (sequence: seq<int>, totalSeek: int)
    ensures sequence == [headStart] + SstfOrder(requests, headStart)
    ensures |sequence| == |requests| + 1 && sequence[0] == headStart
    ensures multiset(sequence[1..]) == multiset(requests)
    ensures totalSeek == SeekDistance(sequence)
  {
    var remaining := requests;
    var currentPos := headStart;
    sequence := [currentPos];
    totalSeek := 0;
    while remaining != []
      invariant |sequence| > 0 && currentPos == sequence[|sequence| - 1]
      invariant sequence + SstfOrder(remaining, currentPos) == [headStart] + SstfOrder(requests, headStart)
      invariant totalSeek == SeekDistance(sequence)
      decreases |remaining|
    {
      var closest := FindClosest(remaining, currentPos);
      var next := remaining[closest];
      assert SstfOrder(remaining, currentPos) == [next] + SstfOrder(RemoveAt(remaining, closest), next);
      SeekDistanceSnoc(sequence, next);
      totalSeek := totalSeek + Abs(currentPos - next);
      currentPos := next;
      sequence := sequence + [currentPos];
      remaining := RemoveAt(remaining, closest);
    }
    assert remaining == [];
    assert SstfOrder(remaining, currentPos) == [];
    assert sequence == [headStart] + SstfOrder(requests, headStart);
    assert sequence[1..] == SstfOrder(requests, headStart);
    SstfOrderPermutes(requests, headStart);
  }

  /** The outcome of the `disk` command. */
  datatype DiskOutcome =
    | ShowTable(listing: Listing)
    | NotImplemented(algorithm: string)
    | Simulated(name: string, sequence: seq<int>, totalSeek: int)

  /** The `disk <algorithm>` command, on a given queue and head position. */
  method HandleDiskScheduling(algorithm: string, requests: seq<int>, headStart: int) returns (out: DiskOutcome)
    ensures out.ShowTable? <==> algorithm == [] || Lookup(DiskTable, algorithm).None?
    ensures out.ShowTable? ==> out.listing == ListTable(DiskTable)
    ensures out.NotImplemented? <==> algorithm in {"clook", "cscan", "look", "scan"}
    ensures out.NotImplemented? ==> out.algorithm == algorithm
    ensures algorithm == "fcfs" ==>
      && out.Simulated? && out.name == "First-Come, First-Served"
      && out.sequence == [headStart] + requests
      && out.totalSeek == SeekDistance(out.sequence)
    ensures algorithm == "sstf" ==>
      && out.Simulated? && out.name == "Shortest Seek Time First"
      && out.sequence == [headStart] + SstfOrder(requests, headStart)
      && out.totalSeek == SeekDistance(out.sequence)
  {
    var found := Lookup(DiskTable, algorithm);
    DiskLookup(algorithm);
    DiskUnimplemented(algorithm);
    if algorithm == [] || found.None? {
      DiskListing();
      out := ShowTable(ListTable(DiskTable));
      return;
    }
    var name := found.value;
    if algorithm == "fcfs" {
      var sequence, totalSeek := Fcfs(requests, headStart);
      out := Simulated(name, sequence, totalSeek);
    } else if algorithm == "sstf" {
      var sequence, totalSeek := Sstf(requests, headStart);
      out := Simulated(name, sequence, totalSeek);
    } else {
      out := NotImplemented(algorithm);
    }
  }

  /** The queue and head position the program simulates. */
  const SampleRequests: seq<int> := [98, 183, 37, 122, 14, 124, 65, 67]
  const SampleHead: int := 53

  /** First-come, first-served on the sample moves the head 640 cylinders. */
  lemma FcfsSample()
    ensures SeekDistance([SampleHead] + SampleRequests) == 640
  {
    FcfsSampleDistance([SampleHead] + SampleRequests);
  }

  /** The head movement along the sample queue in arrival order. */
  lemma FcfsSampleDistance(s: seq<int>)
    requires s == [53, 98, 183, 37, 122, 14, 124, 65, 67]
    ensures SeekDistance(s) == 640
  {
    assert |s[..1]| == 1;
    SeekDistancePrefix(s, 1);
    assert SeekDistance(s[..2]) == 45;
    SeekDistancePrefix(s, 2);
    assert SeekDistance(s[..3]) == 130;
    SeekDistancePrefix(s, 3);
    assert SeekDistance(s[..4]) == 276;
    SeekDistancePrefix(s, 4);
    assert SeekDistance(s[..5]) == 361;
    SeekDistancePrefix(s, 5);
    assert SeekDistance(s[..6]) == 469;
    SeekDistancePrefix(s, 6);
    assert SeekDistance(s[..7]) == 579;
    SeekDistancePrefix(s, 7);
    assert SeekDistance(s[..8]) == 638;
    SeekDistancePrefix(s, 8);
    assert s[..9] == s;
  }

  /**
   * Steps of the SSTF order on the sample, one request each; the pools are
   * parameters so that each step is checked on its own.
   */
  lemma SstfSampleStep1(pool: seq<int>)
    requires pool == [98, 183, 37, 122, 14, 124, 65, 67]
    ensures RemoveAt(pool, 6) == [98, 183, 37, 122, 14, 124, 67]
    ensures SstfOrder(pool, 53) == [65] + SstfOrder(RemoveAt(pool, 6), 65)
  {
    SstfStep(pool, 53, 6);
  }

  lemma SstfSampleStep2(pool: seq<int>)
    requires pool == [98, 183, 37, 122, 14, 124, 67]
    ensures RemoveAt(pool, 6) == [98, 183, 37, 122, 14, 124]
    ensures SstfOrder(pool, 65) == [67] + SstfOrder(RemoveAt(pool, 6), 67)
  {
    SstfStep(pool, 65, 6);
  }

  lemma SstfSampleStep3(pool: seq<int>)
    requires pool == [98, 183, 37, 122, 14, 124]
    ensures RemoveAt(pool, 2) == [98, 183, 122, 14, 124]
    ensures SstfOrder(pool, 67) == [37] + SstfOrder(RemoveAt(pool, 2), 37)
  {
    SstfStep(pool, 67, 2);
  }

  lemma SstfSampleStep4(pool: seq<int>)
    requires pool == [98, 183, 122, 14, 124]
    ensures RemoveAt(pool, 3) == [98, 183, 122, 124]
    ensures SstfOrder(pool, 37) == [14] + SstfOrder(RemoveAt(pool, 3), 14)
  {
    SstfStep(pool, 37, 3);
  }

  lemma SstfSampleStep5(pool: seq<int>)
    requires pool == [98, 183, 122, 124]
    ensures RemoveAt(pool, 0) == [183, 122, 124]
    ensures SstfOrder(pool, 14) == [98] + SstfOrder(RemoveAt(pool, 0), 98)
  {
    SstfStep(pool, 14, 0);
  }

  lemma SstfSampleStep6(pool: seq<int>)
    requires pool == [183, 122, 124]
    ensures RemoveAt(pool, 1) == [183, 124]
    ensures SstfOrder(pool, 98) == [122] + SstfOrder(RemoveAt(pool, 1), 122)
  {
    SstfStep(pool, 98, 1);
  }

  lemma SstfSampleStep7(pool: seq<int>)
    requires pool == [183, 124]
    ensures RemoveAt(pool, 1) == [183]
    ensures SstfOrder(pool, 122) == [124] + SstfOrder(RemoveAt(pool, 1), 124)
  {
    SstfStep(pool, 122, 1);
  }

  lemma SstfSampleStep8(pool: seq<int>)
    requires pool == [183]
    ensures RemoveAt(pool, 0) == []
    ensures SstfOrder(pool, 124) == [183] + SstfOrder(RemoveAt(pool, 0), 183)
  {
    SstfStep(pool, 124, 0);
  }

  /** Eight one-request steps ending in the empty pool make the whole order. */
  lemma SampleOrderChain(a0: seq<int>, a1: seq<int>, a2: seq<int>, a3: seq<int>, a4: seq<int>,
                         a5: seq<int>, a6: seq<int>, a7: seq<int>, a8: seq<int>)
    requires a0 == [65] + a1 && a1 == [67] + a2 && a2 == [37] + a3 && a3 == [14] + a4
    requires a4 == [98] + a5 && a5 == [122] + a6 && a6 == [124] + a7 && a7 == [183] + a8 && a8 == []
    ensures a0 == [65, 67, 37, 14, 98, 122, 124, 183]
  {
  }

  /** SSTF on the sample queue from the sample head serves 65, 67, 37, 14, 98, 122, 124, 183 in that order. */
  lemma SstfSampleOrder()
    ensures SstfOrder(SampleRequests, SampleHead) == [65, 67, 37, 14, 98, 122, 124, 183]
  {
    var requests, headStart := SampleRequests, SampleHead;
    SstfSampleStep1(requests);
    var p1 := RemoveAt(requests, 6);
    SstfSampleStep2(p1);
    var p2 := RemoveAt(p1, 6);
    SstfSampleStep3(p2);
    var p3 := RemoveAt(p2, 2);
    SstfSampleStep4(p3);
    var p4 := RemoveAt(p3, 3);
    SstfSampleStep5(p4);
    var p5 := RemoveAt(p4, 0);
    SstfSampleStep6(p5);
    var p6 := RemoveAt(p5, 1);
    SstfSampleStep7(p6);
    var p7 := RemoveAt(p6, 1);
    SstfSampleStep8(p7);
    var p8 := RemoveAt(p7, 0);
    assert SstfOrder(p8, 183) == [];
    SampleOrderChain(SstfOrder(requests, headStart), SstfOrder(p1, 65), SstfOrder(p2, 67), SstfOrder(p3, 37),
      SstfOrder(p4, 14), SstfOrder(p5, 98), SstfOrder(p6, 122), SstfOrder(p7, 124), SstfOrder(p8, 183));
  }

  /** The head movement along the SSTF visit sequence of the sample. */
  lemma SstfSampleDistance(s: seq<int>)
    requires s == [53, 65, 67, 37, 14, 98, 122, 124, 183]
    ensures SeekDistance(s) == 236
  {
    assert |s[..1]| == 1;
    SeekDistancePrefix(s, 1);
    assert SeekDistance(s[..2]) == 12;
    SeekDistancePrefix(s, 2);
    assert SeekDistance(s[..3]) == 14;
    SeekDistancePrefix(s, 3);
    assert SeekDistance(s[..4]) == 44;
    SeekDistancePrefix(s, 4);
    assert SeekDistance(s[..5]) == 67;
    SeekDistancePrefix(s, 5);
    assert SeekDistance(s[..6]) == 151;
    SeekDistancePrefix(s, 6);
    assert SeekDistance(s[..7]) == 175;
    SeekDistancePrefix(s, 7);
    assert SeekDistance(s[..8]) == 177;
    SeekDistancePrefix(s, 8);
    assert s[..9] == s;
  }

  /** SSTF on the sample visits 53, 65, 67, 37, 14, 98, 122, 124, 183 and moves the head 236 cylinders. */
  lemma SstfSample()
    ensures [SampleHead] + SstfOrder(SampleRequests, SampleHead) == [53, 65, 67, 37, 14, 98, 122, 124, 183]
    ensures SeekDistance([SampleHead] + SstfOrder(SampleRequests, SampleHead)) == 236
  {
    SstfSampleOrder();
    VisitedFrom(SampleHead, SstfOrder(SampleRequests, SampleHead));
  }

  lemma VisitedFrom(headStart: int, order: seq<int>)
    requires headStart == 53 && order == [65, 67, 37, 14, 98, 122, 124, 183]
    ensures [headStart] + order == [53, 65, 67, 37, 14, 98, 122, 124, 183]
    ensures SeekDistance([headStart] + order) == 236
  {
    SstfSampleDistance([headStart] + order);
  }

  /** On the sample, SSTF moves the head no further than first-come, first-served (236 against 640). */
  lemma SstfNoWorseOnSample()
    ensures SeekDistance([SampleHead] + SstfOrder(SampleRequests, SampleHead))
         <= SeekDistance([SampleHead] + SampleRequests)
  {
    FcfsSample();
    SstfSample();
  }
}
