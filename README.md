# CustomArg: the scheduling simulators and the argument metrics

This project models the computational core of `CustomArg.cpp`, a small interactive command shell, in Dafny.

The shell's `disk <algorithm>` command simulates a disk-arm scheduler on a fixed request queue. First-come, first-served (`fcfs`) and shortest seek time first (`sstf`) are implemented. The other recognised names (`clook`, `cscan`, `look`, `scan`) report "not yet implemented". An empty or unknown name lists the table of algorithms.

The `process <algorithm>` command works the same way for CPU scheduling. First-come, first-served (`fcfs`) and non-preemptive shortest job first (`sjf`) are implemented; `priority`, `rr` and `srjf` are recognised but not implemented.

The `analyze <argument>` command reports:

- a word count: the number of spaces plus one;
- whether the argument is a question;
- whether it is emphatic;
- whether it is complex;
- whether it is brief.

The shell rebuilds a command's argument from its tokens by joining them with single spaces.

Modules:

- `Wrappers`: the `Option` type.
- `AlgorithmTable` (`algorithm_table.dfy`): the two `std::map` tables and their lookup. It also holds the listing loop printed for an empty or unknown name. The loop's padding count `6 - abbr.length()` is computed in the unsigned 64-bit `size_t`, as the program does.
- `DiskScheduling` (`disk_scheduling.dfy`): the FCFS and SSTF loops are methods. Each is proved against a specification:
  - `SeekDistance` is the total head movement along a visit sequence;
  - `SstfOrder` is the greedy order that serves the nearest remaining request first, the first of equally near ones, exactly as `std::min_element` picks.
- `ProcessScheduling` (`process_scheduling.dfy`):
  - The timeline loop is a method proved against `Schedule`, the start/end times of running jobs back to back in a given order.
  - SJF's `std::sort` by burst time is an in-place sort of an array, proved to give an order that is sorted by burst and a permutation of the input.
- `ArgumentMetrics` (`argument_metrics.dfy`): the `analyze` metrics as functions. The character classes are those of the "C" locale.
- `Shell` (`shell.dfy`): the argument-joining loop of the `arg` and `analyze` commands, and its round trip with splitting at spaces.

The two dispatchers, `HandleDiskScheduling` and `HandleProcessScheduling`, take the request queue, the head position and the process list as parameters. The program always passes its built-in sample. Lemmas about that sample give the exact results:

- disk FCFS: 640 cylinders;
- disk SSTF: the visit order 53, 65, 67, 37, 14, 98, 122, 124, 183 and 236 cylinders;
- process FCFS and SJF: the exact timelines.

Where the code and its usual description differ, the model follows the code:

- SJF sorts with `std::sort`, which is not stable. The model promises only a permutation sorted by burst; it does not promise that jobs with equal bursts keep their order. `SortedPermutationUnique` shows that the order is unique when no two bursts are equal, which holds for the sample.
- The timeline never starts a job before it has arrived (`StartNotBeforeArrival`). What the non-preemptive, arrival-blind SJF does get wrong is visible on the sample (`SjfSampleIdles`): the CPU idles from 0 to 1 although process 1 arrived at 0.
- The total seek distance is zero not only for an empty queue but whenever every request equals the head position (`SeekDistanceZero`).
- `process` with an unknown name does not list its table. It prints the `fcfs` line and then throws `std::length_error` (see Findings).

## Model

| member | source | states |
|---|---|---|
| AlgorithmTable.TablesInMapOrder | CustomArg.cpp:173-180 | the rows are kept in the strictly increasing key order in which `std::map` iterates (the same is proved for the process table of lines 251-257) |
| AlgorithmTable.Lookup | CustomArg.cpp:182 | `find` fails exactly when no row has the abbreviation; when it succeeds it returns the name of a row with that abbreviation |
| AlgorithmTable.DiskLookup | CustomArg.cpp:173-182 | the disk table finds exactly clook, cscan, fcfs, look, scan and sstf; fcfs and sstf map to their full names |
| AlgorithmTable.DiskUnimplemented | CustomArg.cpp:244-246 | the recognised disk names other than fcfs and sstf are exactly clook, cscan, look and scan |
| AlgorithmTable.ProcessLookup | CustomArg.cpp:251-259 | the process table finds exactly fcfs, priority, rr, sjf and srjf; fcfs and sjf map to their full names |
| AlgorithmTable.ProcessUnimplemented | CustomArg.cpp:335-337 | the recognised process names other than fcfs and sjf are exactly priority, rr and srjf |
| AlgorithmTable.PadCountFits | CustomArg.cpp:185 | the `size_t` count `6 - length` is at most `max_size` exactly when the abbreviation has at most 6 characters; a longer one wraps to 2^64 + 6 - length |
| AlgorithmTable.Spaces | CustomArg.cpp:185 | `string(n, ' ')` is n characters, all spaces |
| AlgorithmTable.ListingLine | CustomArg.cpp:185 | a fitting row prints as two spaces, the abbreviation, spaces up to column 8, and the name from column 8 on |
| AlgorithmTable.ListTable | CustomArg.cpp:184-186 | the listing completes exactly when every abbreviation has at most 6 characters, with one correctly laid out line per row in order; otherwise it throws at the first long abbreviation, after the lines of the rows before it |
| AlgorithmTable.ClookLine | CustomArg.cpp:185 | the clook row prints as "  clook C-LOOK" |
| AlgorithmTable.SstfLine | CustomArg.cpp:185 | the sstf row prints as "  sstf  Shortest Seek Time First" |
| AlgorithmTable.FcfsLine | CustomArg.cpp:185 | the fcfs row prints as "  fcfs  First-Come, First-Served" |
| AlgorithmTable.DiskListing | CustomArg.cpp:182-187 | the disk listing completes with six lines, from clook to sstf |
| AlgorithmTable.ProcessListingThrows | CustomArg.cpp:259-263 | the process listing prints only the fcfs line and then throws, because "priority" is 8 characters long |
| AlgorithmTable.ListTableFixed | CustomArg.cpp:262 | the corrected listing has one line per row, in order, and never fails |
| AlgorithmTable.FixedListingLineLayout | CustomArg.cpp:262 | every corrected line keeps the abbreviation and the name apart: the name starts at column 8, or one space after a longer abbreviation |
| AlgorithmTable.FixedAgreesWhereListed | CustomArg.cpp:185 | wherever the listing as written completes, the corrected listing prints the same lines |
| AlgorithmTable.ProcessListingFixed | CustomArg.cpp:262 | the corrected process listing has all five lines, with "  priority Priority Scheduling" second |
| DiskScheduling.SeekDistanceZero | CustomArg.cpp:201-203 | the head travels nowhere exactly when every visited position equals the first; each move costs the `abs` of the difference of the two positions (`Abs`, also used for the comparison at line 226 and the sum at line 229) |
| DiskScheduling.SeekDistanceAtLeastSpan | CustomArg.cpp:201-203 | the head travels at least the distance from its first position to its last |
| DiskScheduling.SeekDistancePrefix | CustomArg.cpp:202 | extending a prefix of the visit sequence by one position adds the distance of that move |
| DiskScheduling.SeekDistanceSnoc | CustomArg.cpp:202 | appending a position adds the distance from the previous one |
| DiskScheduling.Fcfs | CustomArg.cpp:199-205 | FCFS visits the head and then the requests in queue order; the total is the distance along that sequence |
| DiskScheduling.FirstNearestExists | CustomArg.cpp:224-227 | a non-empty queue has a first nearest request |
| DiskScheduling.FirstNearestUnique | CustomArg.cpp:224-227 | the first nearest request is unique, so `min_element`'s choice is determined |
| DiskScheduling.Nearest | CustomArg.cpp:224-227 | the index chosen is nearest to the head and before every other equally near request |
| DiskScheduling.RemoveAt | CustomArg.cpp:232 | `erase` leaves one request fewer |
| DiskScheduling.RemoveAtMultiset | CustomArg.cpp:232 | erasing removes one occurrence of the element and nothing else |
| DiskScheduling.SstfOrderPermutes | CustomArg.cpp:222-233 | SSTF serves every request exactly once |
| DiskScheduling.SstfStep | CustomArg.cpp:224-232 | SSTF serves the first nearest request, then the rest from that position |
| DiskScheduling.SstfFirstIsNearest | CustomArg.cpp:224-227 | no request is nearer to the head than the first one served |
| DiskScheduling.SstfOrderGreedy | CustomArg.cpp:222-233 | every step goes to a request not yet served, and no unserved request is nearer to the head's current position |
| DiskScheduling.FindClosest | CustomArg.cpp:224-227 | the scan returns the first nearest remaining request |
| DiskScheduling.Sstf | CustomArg.cpp:218-233 | the SSTF loop visits the head and then the requests in the greedy order, a permutation of the queue; the total is the distance along that sequence |
| DiskScheduling.HandleDiskScheduling | CustomArg.cpp:182-246 | the command lists the table exactly for an empty or unknown name; it reports "not implemented" exactly for clook, cscan, look and scan; for fcfs and sstf it simulates with the table's name |
| DiskScheduling.FcfsSample | CustomArg.cpp:193-205 | FCFS on the sample queue from cylinder 53 moves the head 640 cylinders |
| DiskScheduling.SstfSampleOrder | CustomArg.cpp:218-233 | SSTF on the sample serves 65, 67, 37, 14, 98, 122, 124, 183 |
| DiskScheduling.SstfSample | CustomArg.cpp:216-233 | SSTF on the sample visits 53, 65, 67, 37, 14, 98, 122, 124, 183 and moves the head 236 cylinders |
| DiskScheduling.SstfNoWorseOnSample | CustomArg.cpp:193-233 | on the sample, SSTF moves the head no further than FCFS |
| ProcessScheduling.Schedule | CustomArg.cpp:287-296 | the timeline has one slot per process |
| ProcessScheduling.ScheduleEntry | CustomArg.cpp:287-296 | slot i belongs to process i; it starts at its arrival or when the previous slot ends (the clock for the first), whichever is later; it ends a burst later |
| ProcessScheduling.StartNotBeforeArrival | CustomArg.cpp:288-292 | no process starts before it arrives, whatever the bursts |
| ProcessScheduling.StartNotBeforeClock | CustomArg.cpp:288-295 | with non-negative bursts, no process starts before the starting clock |
| ProcessScheduling.NoOverlap | CustomArg.cpp:287-296 | with non-negative bursts, the slots of a timeline do not overlap and follow each other in order |
| ProcessScheduling.RunInOrder | CustomArg.cpp:286-297 | the timeline loop (also lines 314-325) produces `Schedule` of the order from time 0 |
| ProcessScheduling.SwapWithPrevious | CustomArg.cpp:310-312 | one sorting step swaps two neighbours and keeps the contents |
| ProcessScheduling.SwapMultiset | CustomArg.cpp:310-312 | swapping two neighbours keeps the multiset of processes |
| ProcessScheduling.InsertAt | CustomArg.cpp:310-312 | inserting the next element extends the sorted prefix by one; the new prefix holds the same processes as the old one, and the processes after it stay where they were |
| ProcessScheduling.SortByBurst | CustomArg.cpp:310-312 | the sort leaves the array sorted by burst and a permutation of what it held |
| ProcessScheduling.ShortestJobFirstOrder | CustomArg.cpp:309-312 | the copied and sorted list is sorted by burst and a permutation of the processes |
| ProcessScheduling.SortedPermutationUnique | CustomArg.cpp:310-312 | when the bursts are distinct, only one permutation is sorted by burst, so any correct sort gives the same order |
| ProcessScheduling.HandleProcessScheduling | CustomArg.cpp:259-337 | the command lists the table exactly for an empty or unknown name, and that listing is always the fcfs line followed by the length error; it reports "not implemented" exactly for priority, rr and srjf; fcfs schedules in list order; sjf schedules a burst-sorted permutation |
| ProcessScheduling.FcfsSampleTimeline | CustomArg.cpp:272-297 | FCFS on the sample runs P1 0-8, P2 8-12, P3 12-21 and P4 21-26 |
| ProcessScheduling.SjfSampleOrder | CustomArg.cpp:272-312 | every burst-sorted permutation of the sample is P2, P4, P1, P3 |
| ProcessScheduling.SjfSampleTimeline | CustomArg.cpp:314-325 | SJF on the sample runs P2 1-5, P4 5-10, P1 10-18 and P3 18-27 |
| ProcessScheduling.SjfSampleIdles | CustomArg.cpp:309-325 | on the sample, SJF starts its first job at 1 although P1 has been waiting since 0 |
| ArgumentMetrics.CountCharIsMultiplicity | CustomArg.cpp:116 | `std::count` of a character (`CountChar`) equals its number of occurrences |
| ArgumentMetrics.Find | CustomArg.cpp:117 | `find` fails exactly when the character is absent; otherwise it returns the first position holding it |
| ArgumentMetrics.WordCount | CustomArg.cpp:116 | the word count is the number of spaces plus one |
| ArgumentMetrics.Analyze | CustomArg.cpp:107-130 | an empty argument gets the usage line. Otherwise: the word count is spaces plus one; a question exactly when a '?' occurs; emphatic exactly when every character is a capital, white space or punctuation and there are at least 3 spaces; complex exactly at 15 spaces or more; brief exactly below 4 spaces |
| ArgumentMetrics.ShoutingCharacters | CustomArg.cpp:118-120 | the characters `all_of` accepts — capitals A-Z (`IsUpper`), white space: space, tab, newline, vertical tab, form feed and carriage return (`IsSpace`), and the 32 ASCII punctuation characters `!` to `/`, `:` to `@`, `[` to the backquote, and `{` to `~` (`IsPunct`) — are exactly the tab-to-carriage-return controls and the printable ASCII characters other than lower-case letters and digits; `AllShouting` requires this of every character |
| ArgumentMetrics.LowerCaseNotEmphatic | CustomArg.cpp:118-120 | an argument with a lower-case letter is never emphatic |
| ArgumentMetrics.Fields | CustomArg.cpp:116 | splitting at spaces gives at least one field, and no field holds a space |
| ArgumentMetrics.WordCountIsFields | CustomArg.cpp:116 | the word count equals the number of space-separated fields, empty fields included |
| ArgumentMetrics.SpacesAfterFirst | CustomArg.cpp:116 | cutting a text after its first space leaves one space fewer |
| ArgumentMetrics.ShoutedReport | CustomArg.cpp:116-130 | four shouted words with a question mark are reported as a question that is emphatic, not complex and brief |
| ArgumentMetrics.ShoutedQuestion | CustomArg.cpp:116-130 | "WHAT IS GOING ON???" has four words, is a question, is emphatic, is not complex and is brief |
| Shell.JoinSnoc | CustomArg.cpp:397-398 | adding a token at the end adds a space and the token |
| Shell.JoinArgs | CustomArg.cpp:389-392 | the joining loop (also lines 396-399) produces the tokens separated by single spaces |
| Shell.FieldsOfJoin | CustomArg.cpp:389-392 | splitting the joined text at spaces gives back the tokens, when no token holds a space |
| Shell.JoinOfFields | CustomArg.cpp:389-392 | joining the space-separated fields of a text gives the text back |
| Shell.WordCountOfJoin | CustomArg.cpp:396-400 | `analyze` counts one word per token, when no token holds a space |

## Left out

- Terminal output: colours, the "Simulating ..." and "Analyzing ..." lines, the `" → "` separators and the `"P<id> (<start>-<end>)"` text. The model returns what would be printed as values: sequences, totals, slots, report fields and listing lines.
- The interactive loop: reading lines, tokenising with `std::quoted`, the `help`, `clear`, `version`, `hello` and `exit` commands, and the command history. Only the loop that joins tokens into an argument is modelled. `arg`, `analyze`, `echo` and `math` each repeat that same loop.
- `tokens[0]` on a line of only white space is undefined behaviour and is not modelled.
- `evaluateMath`: it works on floating point and is not part of this model.
- `handleArgument`: it picks its reply with `rand()`. Only the joining of its topic is modelled.
- The commands take their algorithm name from `args[0]`, or the empty string when no argument was given. The dispatchers take that name as a parameter.
- The uncaught `std::length_error` ends the program. The model stops at the `LengthError` outcome.
- The request queue, the head position and the process list are parameters. The program's fixed samples are given as constants, and lemmas are proved about them.
- DiskScheduling.Fcfs: `int` is unbounded in the model. A 32-bit overflow of `totalSeek`, of `abs(INT_MIN)` or of `currentTime + burst` is not modelled; the samples are far from those limits.
- ProcessScheduling.RunInOrder: same unbounded `int` as above.
- ProcessScheduling.SortByBurst: `std::sort`'s algorithm (introsort) is represented by an insertion sort. The model states only what `std::sort` guarantees: sorted by the comparator and a permutation. The order of jobs with equal bursts is unspecified, as it is in the program.
- ProcessScheduling.HandleProcessScheduling: the `priority` field of a process is carried but never read, as in the program.
- ArgumentMetrics.Analyze: characters are Unicode code points tested with the "C" locale's ASCII classes. The negative `char` values for which `isupper` is undefined are not modelled.
- ArgumentMetrics.Analyze: the "brief" note is one of several feedback lines. The other lines are output only and are not modelled.

## Findings

| source | as written | input that shows it | evidently intended | confidence | as-written member | corrected member |
|---|---|---|---|---|---|---|
| CustomArg.cpp:262 | `string(6 - abbr.length(), ' ')` with the length in `size_t`: an abbreviation longer than 6 characters wraps the count to about 2^64 and the constructor throws `std::length_error` | `process` with no argument, or with any unknown name: the map's second key "priority" has 8 characters, so only the fcfs line is printed and the program terminates | list every algorithm, padding a long abbreviation with at least one space | not executed | AlgorithmTable.ProcessListingThrows | AlgorithmTable.ListTableFixed |

The dispatchers themselves keep the listing as written, so that the `process` command's outcome is the program's.
