/**
 * The algorithm tables of the `disk` and `process` commands: a `std::map`
 * from abbreviation to descriptive name, looked up by the command's first
 * argument, and listed (in the map's key order) when the argument is empty
 * or unknown.  Each listing line pads the abbreviation to column 6 with
 * `string(6 - abbr.length(), ' ')`, where the subtraction is on the unsigned
 * 64-bit `size_t`: an abbreviation longer than 6 characters wraps around and
 * the string constructor throws.
 */
module AlgorithmTable {
  import opened Wrappers

  /**
   * One row of an algorithm table.  The abbreviation is a string an
   * implementation can hold (see `MaxStringSize`).
   */
  datatype Entry = Entry(abbr: HeldString, name: string)

  /** Strict lexicographic order on strings, the order `std::map<string, _>` iterates in. */
  predicate StrictlyBefore(a: string, b: string)
  {
    if a == [] then b != []
    else if b == [] then false
    else if a[0] != b[0] then a[0] < b[0]
    else StrictlyBefore(a[1..], b[1..])
  }

  /** The rows are in strictly increasing key order, as a `std::map` holds them. */
  predicate InMapOrder(t: seq<Entry>)
  {
    forall i :: 0 < i < |t| ==> StrictlyBefore(t[i - 1].abbr, t[i].abbr)
  }

  /** The disk table in iteration order (keys sorted). */
  const DiskTable: seq<Entry> := [
    Entry("clook", "C-LOOK"),
    Entry("cscan", "C-SCAN (Circular SCAN)"),
    Entry("fcfs", "First-Come, First-Served"),
    Entry("look", "LOOK"),
    Entry("scan", "SCAN (Elevator)"),
    Entry("sstf", "Shortest Seek Time First")
  ]

  /** The process table in iteration order (keys sorted). */
  const ProcessTable: seq<Entry> := [
    Entry("fcfs", "First-Come, First-Served"),
    Entry("priority", "Priority Scheduling"),
    Entry("rr", "Round Robin"),
    Entry("sjf", "Shortest Job First"),
    Entry("srjf", "Shortest Remaining Job First")
  ]

  lemma TablesInMapOrder()
    ensures InMapOrder(DiskTable) && InMapOrder(ProcessTable)
  {
    assert StrictlyBefore("clook", "cscan");
    assert StrictlyBefore("cscan", "fcfs");
    assert StrictlyBefore("fcfs", "look");
    assert StrictlyBefore("look", "scan");
    assert StrictlyBefore("scan", "sstf");
    assert StrictlyBefore("fcfs", "priority");
    assert StrictlyBefore("priority", "rr");
    assert StrictlyBefore("rr", "sjf");
    assert StrictlyBefore("sjf", "srjf");
  }

  /** `algorithms.find(abbr)`: the name stored under `abbr`, if any. */
  function Lookup(t: seq<Entry>, abbr: string): (r: Option<string>)
    ensures r.None? <==> forall i :: 0 <= i < |t| ==> t[i].abbr != abbr
    ensures r.Some? ==> exists i :: 0 <= i < |t| && t[i].abbr == abbr && t[i].name == r.value
  {
    if t == [] then None
    else if t[0].abbr == abbr then Some(t[0].name)
    else
      var r := Lookup(t[1..], abbr);
      assert forall i :: 1 <= i < |t| ==> t[i] == t[1..][i - 1];
      r
  }

  /** The disk table knows exactly its six abbreviations. */
  lemma DiskLookup(abbr: string)
    ensures Lookup(DiskTable, abbr).Some? <==> abbr in {"clook", "cscan", "fcfs", "look", "scan", "sstf"}
    ensures abbr == "fcfs" ==> Lookup(DiskTable, abbr) == Some("First-Come, First-Served")
    ensures abbr == "sstf" ==> Lookup(DiskTable, abbr) == Some("Shortest Seek Time First")
  {
    var keys := ["clook", "cscan", "fcfs", "look", "scan", "sstf"];
    assert forall i :: 0 <= i < 6 ==> DiskTable[i].abbr == keys[i];
  }

  /** The disk abbreviations other than "fcfs" and "sstf". */
  lemma DiskUnimplemented(abbr: string)
    ensures Lookup(DiskTable, abbr).Some? && abbr != "fcfs" && abbr != "sstf"
      <==> abbr in {"clook", "cscan", "look", "scan"}
  {
    DiskLookup(abbr);
  }

  /** The process table knows exactly its five abbreviations. */
  lemma ProcessLookup(abbr: string)
    ensures Lookup(ProcessTable, abbr).Some? <==> abbr in {"fcfs", "priority", "rr", "sjf", "srjf"}
    ensures abbr == "fcfs" ==> Lookup(ProcessTable, abbr) == Some("First-Come, First-Served")
    ensures abbr == "sjf" ==> Lookup(ProcessTable, abbr) == Some("Shortest Job First")
  {
    var keys := ["fcfs", "priority", "rr", "sjf", "srjf"];
    assert forall i :: 0 <= i < 5 ==> ProcessTable[i].abbr == keys[i];
  }

  /** The process abbreviations other than "fcfs" and "sjf". */
  lemma ProcessUnimplemented(abbr: string)
    ensures Lookup(ProcessTable, abbr).Some? && abbr != "fcfs" && abbr != "sjf"
      <==> abbr in {"priority", "rr", "srjf"}
  {
    ProcessLookup(abbr);
  }

  /** Number of distinct values of the unsigned 64-bit `size_t`. */
  const SizeModulus: int := 0x1_0000_0000_0000_0000

  /**
   * `basic_string<char>::max_size()` of libstdc++ on a 64-bit target; a
   * request for more characters throws `std::length_error`.  Any bound
   * from 6 up to 2^63 + 2 leads to the same outcomes below: for every
   * length above 6 and up to the bound, the wrapped count 2^64 + 6 - length
   * exceeds the bound.
   */
  const MaxStringSize: int := 0x3FFF_FFFF_FFFF_FFFF

  /** The strings an implementation can hold. */
  type HeldString = s: string | |s| <= MaxStringSize

  /** `6 - abbr.length()` computed in `size_t`. */
  function PadCount(abbr: string): nat
  {
    (6 - |abbr|) % SizeModulus
  }

  /** The padding request can be met exactly when the abbreviation fits the column. */
  lemma PadCountFits(abbr: string)
    requires |abbr| <= MaxStringSize
    ensures PadCount(abbr) <= MaxStringSize <==> |abbr| <= 6
    ensures |abbr| <= 6 ==> PadCount(abbr) == 6 - |abbr|
    ensures |abbr| > 6 ==> PadCount(abbr) == SizeModulus + 6 - |abbr|
  {
    if |abbr| > 6 {
      assert 0 <= SizeModulus + (6 - |abbr|) < SizeModulus;
    }
  }

  function Spaces(n: nat): (r: string)
    ensures |r| == n && forall i :: 0 <= i < n ==> r[i] == ' '
  {
    if n == 0 then "" else Spaces(n - 1) + " "
  }

  /**
   * The listing line of a row whose abbreviation fits the column: two
   * spaces, the abbreviation, spaces up to column 8, then the name.
   */
  function ListingLine(e: Entry): (line: string)
    requires |e.abbr| <= 6
    ensures |line| == 8 + |e.name|
    ensures line[..2] == "  " && line[2..2 + |e.abbr|] == e.abbr
    ensures forall i :: 2 + |e.abbr| <= i < 8 ==> line[i] == ' '
    ensures line[8..] == e.name
  {
    "  " + e.abbr + Spaces(6 - |e.abbr|) + e.name
  }

  /** What the listing loop produces: every line, or the lines printed before the throw. */
  datatype Listing = Listed(lines: seq<string>) | LengthError(printed: seq<string>)

  /** `lines` are the listing lines of the first `|lines|` rows of `t`, each of which fits the column. */
  predicate ListsPrefix(t: seq<Entry>, lines: seq<string>)
  {
    && |lines| <= |t|
    && forall i :: 0 <= i < |lines| ==> |t[i].abbr| <= 6 && lines[i] == ListingLine(t[i])
  }

  lemma ListsPrefixCons(t: seq<Entry>, rest: seq<string>)
    requires |t| > 0 && |t[0].abbr| <= 6 && ListsPrefix(t[1..], rest)
    ensures ListsPrefix(t, [ListingLine(t[0])] + rest)
  {
    var lines := [ListingLine(t[0])] + rest;
    forall i | 0 < i < |lines| ensures |t[i].abbr| <= 6 && lines[i] == ListingLine(t[i]) {
      assert t[i] == t[1..][i - 1];
    }
  }

  /**
   * The listing loop as written: each row's padding is requested with the
   * wrapped count, and the first row whose count exceeds `MaxStringSize`
   * throws after the rows before it were printed.
   */
  function ListTable(t: seq<Entry>): (r: Listing)
    ensures r.Listed? <==> forall i :: 0 <= i < |t| ==> |t[i].abbr| <= 6
    ensures r.Listed? ==> |r.lines| == |t| && ListsPrefix(t, r.lines)
    ensures r.LengthError? ==>
      |r.printed| < |t| && |t[|r.printed|].abbr| > 6 && ListsPrefix(t, r.printed)
  {
    if t == [] then Listed([])
    else
      PadCountFits(t[0].abbr);
      if PadCount(t[0].abbr) > MaxStringSize then LengthError([])
      else
        var line := "  " + t[0].abbr + Spaces(PadCount(t[0].abbr)) + t[0].name;
        assert line == ListingLine(t[0]);
        assert forall i :: 1 <= i < |t| ==> t[i] == t[1..][i - 1];
        var rest := ListTable(t[1..]);
        if rest.Listed? then
          ListsPrefixCons(t, rest.lines);
          Listed([line] + rest.lines)
        else
          ListsPrefixCons(t, rest.printed);
          LengthError([line] + rest.printed)
  }

  /** The padding the listing evidently intends: up to column 6, and one space when the abbreviation is longer. */
  function FixedPadCount(abbr: string): nat
  {
    if |abbr| <= 6 then 6 - |abbr| else 1
  }

  function FixedListingLine(e: Entry): string
  {
    "  " + e.abbr + Spaces(FixedPadCount(e.abbr)) + e.name
  }

  /**
   * The corrected listing: one line per row, never failing; the name
   * starts at column 8, or one space after an abbreviation that is longer.
   */
  function ListTableFixed(t: seq<Entry>): (lines: seq<string>)
    ensures |lines| == |t|
    ensures forall i :: 0 <= i < |t| ==> lines[i] == FixedListingLine(t[i])
  {
    if t == [] then [] else [FixedListingLine(t[0])] + ListTableFixed(t[1..])
  }

  /** Every corrected line keeps the abbreviation and the name apart, and places the name at the column. */
  lemma FixedListingLineLayout(e: Entry)
    ensures var line := FixedListingLine(e);
      var col := if |e.abbr| <= 6 then 8 else |e.abbr| + 3;
      |line| == col + |e.name| && line[..2] == "  " && line[2..2 + |e.abbr|] == e.abbr &&
      (forall i :: 2 + |e.abbr| <= i < col ==> line[i] == ' ') &&
      line[col..] == e.name
  {
    var line := FixedListingLine(e);
    var sp := Spaces(FixedPadCount(e.abbr));
    assert line == "  " + e.abbr + sp + e.name;
    var col := 2 + |e.abbr| + |sp|;
    assert line[..2] == "  ";
    assert line[2..2 + |e.abbr|] == e.abbr;
    assert forall i :: 2 + |e.abbr| <= i < col ==> line[i] == sp[i - 2 - |e.abbr|];
    assert line[col..] == e.name;
  }

  /** The correction changes nothing where the listing as written succeeds. */
  lemma {:induction false} FixedAgreesWhereListed(t: seq<Entry>)
    requires ListTable(t).Listed?
    ensures ListTableFixed(t) == ListTable(t).lines
  {
    var fixed, lines := ListTableFixed(t), ListTable(t).lines;
    forall i | 0 <= i < |t| ensures fixed[i] == lines[i] {
      assert |t[i].abbr| <= 6;
      assert FixedPadCount(t[i].abbr) == 6 - |t[i].abbr|;
    }
  }

  /** A line whose abbreviation and padding are given as one literal. */
  lemma ListingLineOf(e: Entry, head: string)
    requires |e.abbr| <= 6 && |head| == 8
    requires forall i :: 0 <= i < 8 ==> head[i] == ("  " + e.abbr + Spaces(6 - |e.abbr|))[i]
    ensures ListingLine(e) == head + e.name
  {
    assert "  " + e.abbr + Spaces(6 - |e.abbr|) == head;
  }

  lemma ClookLine()
    ensures ListingLine(Entry("clook", "C-LOOK")) == "  clook " + "C-LOOK"
  {
    assert Spaces(1) == " ";
    ListingLineOf(Entry("clook", "C-LOOK"), "  clook ");
  }

  lemma SstfLine()
    ensures ListingLine(Entry("sstf", "Shortest Seek Time First")) == "  sstf  " + "Shortest Seek Time First"
  {
    assert Spaces(2) == "  ";
    ListingLineOf(Entry("sstf", "Shortest Seek Time First"), "  sstf  ");
  }

  lemma FcfsLine()
    ensures ListingLine(Entry("fcfs", "First-Come, First-Served")) == "  fcfs  " + "First-Come, First-Served"
  {
    assert Spaces(2) == "  ";
    ListingLineOf(Entry("fcfs", "First-Come, First-Served"), "  fcfs  ");
  }

  /** The disk table lists completely. */
  lemma DiskListing()
    ensures var r := ListTable(DiskTable);
      && r.Listed? && |r.lines| == 6
      && r.lines[0] == "  clook " + "C-LOOK"
      && r.lines[5] == "  sstf  " + "Shortest Seek Time First"
  {
    assert forall i :: 0 <= i < |DiskTable| ==> |DiskTable[i].abbr| <= 6;
    ClookLine();
    SstfLine();
  }

  /**
   * The process table does not: "fcfs" is printed, then the 8-character
   * "priority" asks for 2^64 - 2 spaces and the constructor throws.
   */
  lemma ProcessListingThrows()
    ensures ListTable(ProcessTable) == LengthError(["  fcfs  " + "First-Come, First-Served"])
  {
    var r := ListTable(ProcessTable);
    assert |ProcessTable[1].abbr| == 8;
    assert |ProcessTable[0].abbr| == 4;
    assert r.LengthError?;
    assert |r.printed| == 1;
    FcfsLine();
  }

  /** The corrected process listing has all five rows. */
  lemma ProcessListingFixed()
    ensures |ListTableFixed(ProcessTable)| == 5
    ensures ListTableFixed(ProcessTable)[1] == "  priority " + "Priority Scheduling"
  {
    var lines := ListTableFixed(ProcessTable);
    assert lines[1] == FixedListingLine(ProcessTable[1]);
    assert FixedPadCount("priority") == 1;
    assert Spaces(1) == " ";
  }
}
