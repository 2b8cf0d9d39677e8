# Oblivious query plans, operators and measurement code: a Dafny model

The system runs SQL queries on secret-shared tables. Rows are never deleted: every operator only clears valid bits,
so every plan has to be right whatever its invalid rows hold. This project models the opened values of such tables and
proves that the hand-optimised plans compute their SQL, on top of operator models taken from the operators' own source:

* `PrefixNetworks`: the Brent-Kung network that every aggregation and join runs on, in place on an array.
* `Quicksort`: the quicksort that partitions all segments at once, in place on arrays.
* `Sorting`: the radix sort by prefix sums over bits and the column-by-column table sort with either of the two.
* `Tables`: tables with a valid bit, aggregation, running aggregation, distinct, head, tail, prefix sums.
* `Joins`: inner, semi, anti and aggregating joins by concatenating, sorting and aggregating, with trimming.
* `Traces`: how rows are followed through stable sorts.
* `Division`: the non-restoring division circuit, and division of two shares by a constant.
* `CustomAgg`, `Q17`, `Q20`, `Q21Sole`, `Q21`, `Q22`, `RcDiff`, `Aspirin`, `MarketShare`, `WageGap`: the plans, each a method over
  the operator models, and the SQL as functions on the input rows.
* `Generator`: the key columns of the TPC-H generator.
* `BlockTable`, `Int128`: two writer/reader pairs.
* `ThreadTimers`, `Stopwatch`, `Grouping`: measurement code with conservation laws.
* `Bags`, `Bits`, `MapTotals`, `Options`, `PrefixSums`: the algebra underneath (relations as sequences up to
  permutation, keyed sums, group-by, bitwise OR, sums over maps).

`dafny verify dfyconfig.toml` checks everything. `Live(rows)` is the relation a table stands for (the data of its valid
rows), `Perm` is equality of relations, and `IsGroupBy` says that one row per key is left, each the fold of its group.
Every lemma switches automatic induction off, so a proof by induction spells its induction out.

## Where the code does not meet its promise

* `distinct(keys)` sorts on the valid bit and the keys but compares only the keys with the row above
  (`include/core/containers/tabular/encoded_table.h:1356-1371`). A key that is both the largest key of an invalid row and the
  smallest of a valid row loses all its rows (`Tables.DistinctKeys`, an if-and-only-if).
  * In the recurrent C. diff plan every patient keeps an invalid row, so the plan returns the SQL answer exactly when that
    answer is not just the largest pid of the table (`RcDiff.Plan`; a failing input is `RcDiff.LostPatient`).
  * In Q20 the smallest supplier key of the IN subquery is lost exactly when it is also the largest key with an invalid row
    just before distinct. Which keys have one is a condition on the stored tables, for all inputs (`Q20.Rejected`): zero,
    the keys of line items outside the date window, of pairs that a filter turns down, and of the other rows of the first
    join, as far as the cuts of the two joins leave them. A cut keeps the first invalid rows in sort order, so `Rejected`
    counts the rows below a place. The plan returns the SQL answer if and only if no supplier of the answer has that key
    (`Q20.Plan`, `Q20.LostIff`; failing inputs with one and with two cut joins are `Q20.LostSupplier`). For callers: one
    line item outside the window whose supplier key is above some key of the subquery means that nothing is lost
    (`Q20.OutsideSaves`). With the generator's sizes the first join is always trimmed, and the second is not unless there
    are fewer than 64 line items for every three parts (`Q20.GeneratedSizes`). The distinct step is not needed: the semi
    join that follows allows repeated keys.
* In the secret-sharing protocols quotients are rounded down, where SQLite truncates. The two agree if and only if the
  dividend is non-negative or divisible (`Division.RoundingAgrees`). `CustomAgg.Plan` and `Q17.Plan` state for all inputs
  when their result is SQLite's; `CustomAgg.NegativeTotal` and `Q17.NegativeQuantities` are inputs on which it is not. The
  market share divides a sum of squares and agrees always. The plaintext protocol truncates in divisions by a constant.
* The corrected division of two shares by a constant rounds down if and only if the sum of the shares does not wrap (or the
  divisor is one) and the shares are not both negative multiples of the divisor (`Division.SharedQuotientIff`); otherwise,
  without a wrap, it is one too small. Two ways to share one value that give two quotients are `Division.SharesDecide`.
* The prefix network has depth -1 on a single row and the source's own assertion stops the program there, so plans that
  aggregate or join ask for at least two rows.
* `tail(n)` with n above the table size erases an invalid range, so Q17 needs at most as many parts as line items, and Q21 at
  most as many suppliers as line items.
* The supplier formula of the generator gives four different suppliers exactly when the supplier count divides none of
  the first three multiples of the step (`Generator.FourDistinctIff`). The specification's sizes meet that from 229
  suppliers on (`Generator.SpecificationFits`); a bound 3 * step < S alone does not (`Generator.TooFewSuppliers`).
* Initialising a thread's timer erases what it holds: all measured time is accounted for if and only if every
  initialisation finds its thread's counter empty (`ThreadTimers.Conservation`; a failing run is
  `ThreadTimers.LateInitLoses`).
* Block names that differ only in surrounding space are one name to the table reader: every block comes back if and only
  if the stripped names are distinct (`BlockTable.EveryBlock`; a failing input is `BlockTable.StrippedNamesCollide`).

## Model

| member | source | states |
|---|---|---|
| PrefixNetworks.BrentKung | include/core/operators/prefix_network.h:199-242 | the log-depth network, run in place, leaves in every cell of an unbroken run the left-to-right fold of the run, for any associative operation |
| PrefixNetworks.NetworkIsScan | include/core/operators/prefix_network.h:204-237 | the same for the levels as a function: reduce and distribute phases together equal the sequential segmented scan |
| PrefixNetworks.SegmentSplit | include/core/operators/aggregation.h:163-310 | a segment of a run splits at any inner cell, and the left part counts only when the key cells agree |
| Sorting.BitSort | include/core/operators/radixsort.h:147-201 | prefix sums over both halves and the multiplexer give destinations that partition the vector on the bit, stably |
| Sorting.DestinationIsPlace | include/core/operators/radixsort.h:165-197 | the computed destination of every element is the number of elements that precede it in the stable partition |
| Sorting.RadixSort | include/core/operators/radixsort.h:120-202 | sorting bit by bit, the sign bit inverted in full width, orders signed values and keeps ties in rank order |
| Sorting.WordsFit | include/core/operators/radixsort.h:216-226 | a full-width sort takes exactly the words of that width |
| Sorting.SortColumn | include/core/operators/radixsort.h:216-246 | padding with indices, sorting and unpadding lists the rows of a column ascending or descending with ties in row order |
| Sorting.ComposeInverse | include/core/operators/shuffle.h:768-796 | composing the permutations of two sorts is the permutation of sorting twice |
| Quicksort.PartitionSegment | include/core/operators/quicksort.h:30-53 | in place, a segment is rearranged around its pivot, nothing else moves, and the pivot's place and the next one are marked |
| Quicksort.Round | include/core/operators/quicksort.h:99-175 | one pass over all segments keeps the elements and the bound at every mark, and adds a mark unless all positions are marked |
| Quicksort.QuicksortBody | include/core/operators/quicksort.h:65-204 | from any shuffle the rounds end, with every position marked and the vector sorted, repeated elements included |
| Sorting.QuicksortColumn | include/core/operators/quicksort.h:220-258 | sorting the padded words lists the rows of a column ascending or descending with ties in row order, as the radix sort does |
| Sorting.TableSort | include/core/operators/sorting.h:501-591 | sorting column by column from the last key to the first, single-bit columns by radix and the others by quicksort or radix, gives the lexicographic order of all keys, each in its own direction, with ties in row order |
| Sorting.SortRows | include/core/operators/sorting.h:501-591 | for bounded keys the table sort with either protocol gives the permutation in key order that keeps rows with equal keys in their order, which is the contract the operators assume |
| Tables.SegmentIsFold | include/core/operators/aggregation.h:163-310 | the running value at a valid row is the fold of its group's rows so far |
| Tables.AggregateGroups | include/core/containers/tabular/encoded_table.h:1281-1316 | keeping only the last row of every run makes the valid rows the group-by of the valid rows before |
| Tables.EncodedTable.Filter | include/core/containers/tabular/encoded_table.h:395-412 | the live rows after a filter are the selected live rows, in place |
| Tables.EncodedTable.PrefixSum | include/core/containers/tabular/encoded_table.h:1501-1501 | the column becomes the inclusive sum over all rows above, valid or not |
| Tables.EncodedTable.Head | include/core/containers/tabular/encoded_table.h:1524-1531 | the first n rows, padded with invalid rows when there are fewer |
| Tables.EncodedTable.Tail | include/core/containers/tabular/encoded_table.h:1541-1552 | the last n rows |
| Tables.EncodedTable.ConfigureValid | include/core/containers/tabular/encoded_table.h:370-384 | every row valid again, data untouched |
| Tables.EncodedTable.AggregateSorted | include/core/containers/tabular/encoded_table.h:1252-1316 | aggregation without sorting: every row its running value, only the last row of a run valid |
| Tables.EncodedTable.RunningAggregate | include/core/containers/tabular/encoded_table.h:1193-1320 | aggregation that marks nothing: every row keeps its bit and gets its running value |
| Tables.EncodedTable.Aggregate | include/core/containers/tabular/encoded_table.h:1193-1320 | the live rows become the group-by of the live rows, in key order |
| Tables.DistinctKeys | include/core/containers/tabular/encoded_table.h:1356-1371 | a key survives distinct if and only if a valid row has it and it is not shadowed by the largest invalid key |
| Tables.EncodedTable.Distinct | include/core/containers/tabular/encoded_table.h:1356-1371 | one live row is left of every live key that is not shadowed, none of the others, in key order |
| Tables.TailKeepsLive | bench/queries/tpch/q17.cpp:129-132 | after an ascending sort on the valid bit the last n rows hold all live rows if there are at most n |
| Tables.SumMasked | bench/queries/other/market-share.cpp:79-87 | a column masked by the valid bit sums over all rows to its sum over the live rows |
| Joins.MatchBit | include/core/operators/join.h:86-150 | the aggregated match bit of a valid row says whether it is a right row whose key the left table has |
| Joins.InnerJoinTables | include/core/operators/join.h:32-220 | the live rows are the inner join, each matched right row once with the columns of its left row, trimmed or not |
| Joins.SemiJoinTables | include/core/operators/join.h:296-300 | the live rows are the rows whose key the other table has, repeated keys allowed |
| Joins.TracedSemiJoin | include/core/operators/join.h:180-300 | the same, and the column values that keep an invalid row, trimmed or not: one of their rows is rejected and comes early enough in the order of VALID, key, table and former place, the trim dropping as many rows as the other table has |
| Joins.AntiJoinTables | include/core/operators/join.h:312-316 | the live rows are the rows whose key the other table lacks |
| Joins.AggregatingJoin | include/core/operators/join.h:32-220 | a join that also aggregates is the group-by of the plain join; its invalid rows carry in order the VALID and key cells of all input rows but the live ones, less as many at the end as the left table has if it is trimmed |
| Joins.Trim | include/core/operators/join.h:180-212 | the trimmed output is the valid rows in order, then the invalid rows in order, cut to the size of the right table; all live rows are kept |
| Joins.TrimsIff | include/core/operators/join.h:186-202 | the output is cut if and only if (R + 1)(c + 2) <= L(63 + c), for all sizes and column counts |
| Joins.TrimsLess | include/core/operators/join.h:188-194 | a table cut with many columns would be cut with fewer; two and thirty rows are cut with one column and not with three |
| Joins.CutRest | include/core/operators/join.h:204-208 | the cut keeps the valid rows and a prefix of the invalid ones, and whatever each row is tagged with goes along |
| Joins.AmongFirst | include/core/operators/join.h:204-208 | a cell is among the first n invalid ones if and only if it occurs and fewer than n are below it |
| Traces.TracedSort | include/core/operators/sorting.h:527-560 | in a stable sort, tags that grow among rows of equal key still do afterwards |
| Joins.CopyUp | bench/queries/tpch/q22.cpp:140-143 | a reverse copy gives every row the copied columns of the last row of its run, and the padding's zeros to the run of the padding's cell at the bottom |
| Joins.JoinSum | bench/queries/other/custom_agg.cpp:88-102 | a weighted sum over a join with unique left keys is the sum over all matching pairs |
| Division.Divide | include/core/operators/circuits.h:40-129 | for every representable dividend and non-negative divisor the circuit yields the quotient rounded down, -1 or 0 for divisor zero, without wrap-around on the way |
| Division.RoundingAgrees | bench/queries/other/custom_agg.cpp:113-140 | rounding down and truncating agree if and only if the dividend is non-negative or divisible; otherwise truncating gives one more |
| Division.SharedQuotientIff | include/core/protocols/beaver_2pc.h:166-193 | for two shares of a word and a positive constant the corrected quotient is the shared value's, rounded down, if and only if the sum does not wrap (or the constant is one) and the shares are not both negative multiples |
| Division.SharedQuotientLess | include/core/containers/a_shared_vector.h:290-309 | two negative multiples give one less, when their sum does not wrap |
| Division.SharesDecide | include/core/protocols/beaver_2pc.h:170-190 | -300 divided by 100 is -4 for one pair of shares and -3 for another |
| Bits.OrAssociative | bench/queries/tpch/q21.cpp:146-199 | bitwise OR on two's-complement integers is associative, as folding it through the network needs |
| CustomAgg.StagedTotal | bench/queries/other/custom_agg.cpp:139-144 | the sums pushed through both joins add up to the sum over the three-way join |
| CustomAgg.Plan | bench/queries/other/custom_agg.cpp:79-113 | exactly the classes with a joined triple, in order, each with the SQL total divided once by 100 and rounded down, which is SQLite's quotient if and only if the total is non-negative or divisible |
| CustomAgg.NegativeTotal | bench/queries/other/custom_agg.cpp:113-140 | an input whose total is negative and whose quotients differ |
| Q21Sole.FoldOr | bench/queries/tpch/q21.cpp:166-187 | the OR of masked supplier keys is the key of the only late supplier, also when that key is 0 |
| Q21Sole.CountsDecide | bench/queries/tpch/q21.cpp:146-199 | NumLate = 1 and CountSupp > 1 decide the NOT EXISTS and EXISTS subqueries |
| Q21Sole.FindSoleLate | bench/queries/tpch/q21.cpp:146-199 | the rows that stay valid are exactly the (order, only late supplier) pairs of multi-supplier orders |
| Q21.Factored | bench/queries/tpch/q21.cpp:244-284 | the SQL count over four tables factors into orders, suppliers and nations per late item |
| Q21.Plan | bench/queries/tpch/q21.cpp:113-219 | exactly the names with a positive SQL count, each with that count, in the query's order |
| Q22.FloorAverage | bench/queries/tpch/q22.cpp:157-166 | exceeding the average and exceeding its floor are the same for integers |
| Q22.PositiveSuffices | bench/queries/tpch/q22.cpp:127-166 | filtering the outer table to positive balances loses nothing |
| Q22.Plan | bench/queries/tpch/q22.cpp:127-192 | exactly the country codes with a customer above the average and without orders, with count and total of the SQL, also when nothing is averaged |
| RcDiff.SelfJoinIsRecurs | bench/queries/other/rcdiff.cpp:105-117 | the row-number self-join finds the same patients however time ties are numbered |
| RcDiff.FoundIsSelfJoin | bench/queries/other/rcdiff.cpp:71-88 | the one-row shift finds the patients of the self-join; the last row and the invalid rows are harmless |
| RcDiff.Plan | bench/queries/other/rcdiff.cpp:68-90 | the opened pids, in order and once each, are those of the SQL if and only if the SQL answer is not just the largest pid of the table; then nothing is returned |
| RcDiff.LostPatient | bench/queries/other/rcdiff.cpp:90-90 | an input whose SQL answer the plan loses |
| Q20.StockRow | bench/queries/tpch/q20.cpp:127-128 | an aggregated row has its PARTSUPP row's availability and the correlated sum |
| Q20.StockPasses | bench/queries/tpch/q20.cpp:127-140 | doubled availability above the sum selects exactly the pairs with availqty > 0.5 * sum, pairs without line items dropping out as NULL does |
| Q20.StockMeans | bench/queries/tpch/q20.cpp:127-128 | which invalid rows PSL has, from the stored tables: the line items outside the window, and idle pairs and line items in pair order as far as the trim leaves them |
| Q20.RejectedAre | bench/queries/tpch/q20.cpp:138-152 | the rows the second join leaves invalid: the parts, the pairs a filter turns down and PSL's invalid rows |
| Q20.RejectedKeys | bench/queries/tpch/q20.cpp:138-152 | the supplier keys with an invalid row in T1, trimmed or not, are those with a place that fewer rejected rows precede than T1 has room for |
| Q20.LostIff | bench/queries/tpch/q20.cpp:151-155 | distinct loses a key if and only if it is the smallest of the subquery and the largest rejected key |
| Q20.OutsideSaves | bench/queries/tpch/q20.cpp:116-155 | one line item outside the window with a supplier key above some listed key means that no key is lost, provided a trim of the second join keeps it |
| Q20.UntrimmedLoses | bench/queries/tpch/q20.cpp:127-155 | without a trim only the sole key of the subquery can be lost, and only when it is the largest key stored |
| Q20.Plan | bench/queries/tpch/q20.cpp:112-161 | the opened rows, in name order, are the SQL's less the supplier key that the stored tables say is lost, and the SQL's if and only if no supplier of the answer has that key |
| Q20.GeneratedSizes | bench/queries/tpch/tpch_dbgen.h:38-47 | with the generator's sizes the first join is trimmed, and the second is not from 64 line items for every three parts on |
| Q20.LostSupplier | bench/queries/tpch/q20.cpp:155-156 | for 3 to 25 line items an input whose SQL answer the plan loses, with one or both joins trimmed |
| Q17.NestedDivision | bench/queries/tpch/q17.cpp:134-135 | floor(floor(sum / 5) / count) = floor(sum / (5 * count)) |
| Q17.FifthOfAverage | bench/queries/tpch/q17.cpp:200-207 | that quotient is the integer cast of a fifth of the exact average |
| Q17.SmallIs | bench/queries/tpch/q17.cpp:134-150 | the SQL test is the plan's test or a quantity equal to the rounded-down fifth of a negative sum that does not divide, never both |
| Q17.RevenueSplit | bench/queries/tpch/q17.cpp:190-208 | the plan's sum and the prices only the cast includes make up the SQL's sum |
| Q17.GroupsFit | bench/queries/tpch/q17.cpp:129-132 | there are at most as many groups as parts, so tail(Part.size()) drops none |
| Q17.Plan | bench/queries/tpch/q17.cpp:107-160 | a seventh, rounded down, of the SQL's sum less what only its cast includes, and for all inputs exactly when that is SQLite's quotient |
| Q17.SeventhAgrees | bench/queries/tpch/q17.cpp:160-208 | the two quotients agree if and only if the missed part keeps the dividend in the seventh that truncating picks |
| Q17.NegativeQuantities | bench/queries/tpch/q17.cpp:134-160 | tables on which the SQL's sum is 14, all of it missed: SQLite's quotient is 2 and the plan's 0 |
| Aspirin.PairTest | bench/queries/other/aspirin.cpp:71-83 | earliest diagnosis at most latest medication if and only if some pair is in order |
| Aspirin.Plan | bench/queries/other/aspirin.cpp:60-92 | the number of distinct patients over all pairs |
| MarketShare.GroupSums | bench/queries/other/market-share.cpp:118-126 | sums over the live rows are the SQL's sums over any listing of the companies |
| MarketShare.MarketTotal | bench/queries/other/market-share.cpp:120-125 | the windowed sum of sums is the total of all fares |
| MarketShare.Plan | bench/queries/other/market-share.cpp:71-99 | for a market with revenue, SUM(10000 * R * R) / (T * T) over the companies, as SQLite divides |
| WageGap.Analyse | examples/ex4_wagegap.cpp:122-149 | one analysis answers for the original data and leaves all rows valid with their base columns |
| WageGap.LabelsAreBins | examples/ex4_wagegap.cpp:151-166 | equal year labels mean the same experience bin |
| WageGap.Plan | examples/ex4_wagegap.cpp:122-231 | four analyses in sequence on one table each give one row per group with the group's average salary over the original data |
| Generator.OrderKeys | bench/queries/tpch/tpch_dbgen.h:267-296 | scatter and prefix sum give each row the key of the order whose rows it lies in |
| Generator.OrderRun | bench/queries/tpch/tpch_dbgen.h:289-296 | order k fills exactly its count of consecutive rows, and one row follows with key = number of orders |
| Generator.KeysNonDecreasing | bench/queries/tpch/tpch_dbgen.h:289-296 | the key column never decreases and stays within the order keys |
| Generator.LineKeysUnique | bench/queries/tpch/tpch_dbgen.h:298-300 | with line number = row mod 7 all (OrderKey, LineNumber) pairs are distinct |
| Generator.SupplierKeys | bench/queries/tpch/tpch_dbgen.h:912-924 | the wrapping counter is row mod 4 and every supplier key lies in 1..S |
| Generator.FirstBlock | bench/queries/tpch/tpch_dbgen.h:915-923 | for part keys 1 to S the suppliers are a quarter of S apart |
| Generator.NextBlock | bench/queries/tpch/tpch_dbgen.h:915-923 | S parts later the i-th supplier has moved on by i |
| Generator.PartZero | bench/queries/tpch/tpch_dbgen.h:912-923 | part key 0 takes the quotient of the largest 64-bit number |
| Generator.FourDistinctIff | bench/queries/tpch/tpch_dbgen.h:915-923 | a part's four suppliers are distinct if and only if S divides none of the first three multiples of the step, for every supplier count and part key below 2^31, in 64-bit arithmetic and with part key 0 |
| Generator.SmallStepFits | bench/queries/tpch/tpch_dbgen.h:915-923 | a positive step of which three fit below S meets that condition |
| Generator.SpecificationFits | bench/queries/tpch/tpch_dbgen.h:915-923 | with twenty parts for every supplier all parts meet it from 229 suppliers on |
| Generator.TooFewSuppliers | bench/queries/tpch/tpch_dbgen.h:915-923 | with three suppliers the bound 3 * step < S holds and suppliers coincide |
| Generator.PairsUniqueIff | bench/queries/tpch/tpch_dbgen.h:912-924 | (PartKey, SuppKey) is unique over whole parts if and only if every part's step fits |
| BlockTable.Write | sosp-replication/plotting/extract_data.py:104-159 | the writer's loops produce the grid of the block layout, repeated protocol names blank |
| BlockTable.WrittenLine | sosp-replication/plotting/extract_data.py:147-156 | cell by cell: a line has its label, and per block both times and their ratio, empty where one is missing, ours is zero or the block has no timing |
| BlockTable.WrittenHeader | sosp-replication/plotting/extract_data.py:118-145 | cell by cell: the title alone, a protocol where it changes, the networks and the column names |
| BlockTable.Load | sosp-replication/plotting/plot_benchmarks.py:65-125 | the reader's loops compute the reader function on any grid, short network rows failing |
| BlockTable.CommasOut | sosp-replication/plotting/plot_benchmarks.py:50-52 | a cell is read without its commas, all other characters in order |
| BlockTable.StripIs | sosp-replication/plotting/plot_benchmarks.py:50-52 | stripping takes the spaces on both sides of a text and nothing else |
| BlockTable.CommasIgnored | sosp-replication/plotting/plot_benchmarks.py:50-58 | a numeral with commas put in at any places reads as the numeral itself |
| BlockTable.MissingCell | sosp-replication/plotting/plot_benchmarks.py:50-54 | a cell of spaces and a cell that starts with a hash are missing values |
| BlockTable.BlankRowsIgnored | sosp-replication/plotting/plot_benchmarks.py:73-75 | blank rows above the table change nothing, whatever the table |
| BlockTable.ScanFinds | sosp-replication/plotting/plot_benchmarks.py:87-101 | the header scan recovers every block and its column, protocol names written once included |
| BlockTable.RoundTrip | sosp-replication/plotting/plot_benchmarks.py:65-125 | reading what was written returns every block's labels and numbers as formatted, missing values missing, with or without a title |
| BlockTable.ReadValues | sosp-replication/plotting/extract_data.py:147-156 | what comes back: the labelled lines in order, and of each the times and the ratio as formatting and parsing leave them |
| BlockTable.CountReturned | sosp-replication/plotting/plot_benchmarks.py:103-125 | as many blocks come back as were written if and only if their stripped names are distinct |
| BlockTable.EveryBlock | sosp-replication/plotting/plot_benchmarks.py:103-125 | every block comes back as an entry of its own with its own columns if and only if the stripped names are distinct |
| BlockTable.NothingElse | sosp-replication/plotting/plot_benchmarks.py:103-125 | the reader returns no other block |
| BlockTable.StrippedNamesCollide | sosp-replication/plotting/plot_benchmarks.py:92-93 | two names that differ in surrounding space become one |
| Int128.Print | include/debug/cdough_debug.h:374-392 | the decimal text of every 128-bit value; only the least value overflows |
| Int128.Range | include/debug/cdough_debug.h:333-374 | the range is that of 128-bit two's complement |
| Int128.DigitOrder | include/debug/cdough_debug.h:374-392 | the ten digits have the values 0 to 9 in character order |
| Int128.Decimal | include/debug/cdough_debug.h:374-392 | the text of 1234567890 is its ten digits, and of -7 the sign and the digit |
| Int128.Parse | include/debug/cdough_debug.h:333-365 | the signed value of the leading digits; failure exactly on a left-over character, overflow exactly beyond the range |
| Int128.RoundTrip | include/debug/cdough_debug.h:333-392 | printing and parsing any value above the least one returns it without failure or overflow |
| Int128.TextInjective | include/debug/cdough_debug.h:374-392 | different numbers have different texts |
| Int128.DigitsOfValue | include/debug/cdough_debug.h:333-392 | a digit string without leading zeros is printed back unchanged |
| ThreadTimers.RunConserves | include/profiling/thread_profiling.h:171-199 | for every interleaving, returned totals, the running drain, the counters and what was erased add up to the measured time |
| ThreadTimers.LostIff | include/profiling/thread_profiling.h:171-199 | time is lost if and only if an initialisation finds its thread's counter not empty |
| ThreadTimers.Conservation | include/profiling/thread_profiling.h:171-264 | returned totals, the running drain and the counters make up the measured time if and only if every initialisation finds its thread's counter empty |
| ThreadTimers.InitialisedFirstSuffices | include/profiling/thread_profiling.h:199-199 | initialising every thread before its own first block is enough, whatever the other threads do |
| ThreadTimers.FinalDrain | include/profiling/thread_profiling.h:171-192 | once the workers are quiet one more drain accounts for all measured time |
| ThreadTimers.EveryEntryVisited | include/profiling/thread_profiling.h:171-192 | before a drain returns it has emptied every counter that the map had when it began |
| ThreadTimers.RunModulo | include/profiling/thread_profiling.h:171-199 | for every run, whatever it measures, the account is complete modulo 2^64 and every stored total is a word |
| ThreadTimers.LateInitLoses | include/profiling/thread_profiling.h:199-199 | initialising after a measurement erases it |
| Stopwatch.Profiler.constructor | include/profiling/stopwatch.h:171-177 | a fresh profiler with an empty account |
| Stopwatch.Profiler.Timepoint | include/profiling/stopwatch.h:185-191 | a profile point keeps the account: the labels tile the time since the start |
| Stopwatch.Profiler.Preprocessing | include/profiling/stopwatch.h:201-213 | a preprocessing point keeps the account: the bookkeeping entry is the sum of its labels |
| Stopwatch.Profiler.Done | include/profiling/stopwatch.h:231-269 | the total is the last profile point minus the start, and the online time is at least the last profile point minus the last labelled preprocessing point |
| Grouping.GroupRecords | scripts/run_experiment.py:855-883 | one group per configuration in order of first occurrence, with its runs in run order and its metrics summarised |
| Grouping.ConfigsListed | scripts/run_experiment.py:855-876 | groups have distinct configurations, exactly those of the records |
| Grouping.ConfigsInOrder | scripts/run_experiment.py:866-876 | a later group's configuration first occurs later |
| Grouping.SameGroup | scripts/run_experiment.py:792-800 | two runs belong to one group if and only if they agree on all fields but the repetition index and the command |
| Grouping.RawIs | scripts/run_experiment.py:864-875 | the raw data of a group are the stopwatches of the records with its configuration, in order |
| Grouping.Partition | scripts/run_experiment.py:866-876 | the raw data of all groups together are the stopwatches of all runs |
| Grouping.AggregateProfiles | scripts/run_experiment.py:803-852 | every metric with a value has its count, least and greatest value, mean, median and sample deviation, and no other metric appears |
| Grouping.CentresBetween | scripts/run_experiment.py:838-842 | the mean and the median of a metric, before rounding to six digits, lie between its least and greatest value |
| Grouping.ValuesCount | scripts/run_experiment.py:813-829 | a metric has one value for every run that is no timeout marker and has a number for it, that number, in run order |
| Grouping.AggregateWithout | scripts/run_experiment.py:810-819 | the marker of a killed run, and a run without a dictionary, can be left out of the aggregation |
| Grouping.MedianHalves | scripts/run_experiment.py:842 | at least half of the values are at most the median and at least half at least the median |
| Grouping.MedianMirrored | scripts/run_experiment.py:842 | the negated values have the negated median, so an even number of values has the mean of the two middle ones |
| Grouping.TwoValues | scripts/run_experiment.py:838-843 | the statistics of two values written out: their half sum twice, and the root of half the squared distance |

## Left out

- Secret sharing, share conversions, shuffles and the protocols themselves: the model works on opened values.
- Fixed-width overflow inside the plans: mathematical integers; word sizes are modelled in Sorting, Division, Generator, Int128 and ThreadTimers.
- Tables.Sort: the operators use the sort by its contract with unbounded keys; Sorting.SortRows proves that contract for the quicksort and the radix sort on bounded keys. Bitonic and network sorts are not modelled.
- Tables.EncodedTable.Tail: n above the table size is excluded; the source prints a warning there and then erases a range that starts before the data, which C++ leaves undefined.
- Sorting.QuicksortColumn: at most 2^31 rows, as the source's 32-bit indices ask; the shuffle is any permutation, and Quicksort.QuicksortBody wants one element, as the source writes to its first cell.
- Division.SharedQuotientIff: positive constants; the three- and four-party protocols divide the same two words, merged from their shares, and the randomness that spreads the result again is left out.
- CustomAgg.Plan: takes the division by 100 as rounded down; under the plaintext protocol it truncates, and for shares the condition is Division.SharedQuotientIff.
- Q17.Plan: takes the divisions by 5 and 7 in the same way.
- Division.Divide: negative divisors are excluded; the plans divide by counts, squares and positive constants only, and the circuit's double-width remainder overflows on a negative divisor.
- Outer joins, unique-key joins, windows, streaming operators and set operations: no modelled plan uses them.
- Single-row tables and empty tables: the source stops on its own assertion or reads out of bounds.
- Joins.Trim: the cost estimate is modelled for 64-bit columns.
- Stopwatch and ThreadTimers printing, JSON output and the conversion of nanoseconds to a double.
- Grouping.AggregateProfiles: rounding to six digits and the square root are parameters; configurations are compared as maps instead of through their JSON text.
- BlockTable: the CSV encoding and the text of numbers; formatting and parsing are parameters, and spaces are blank, tab, newline and return.
- Int128.Parse: takes one token; splitting the stream into tokens is the library's.
- Generator: random draws and the SQLite copies of the tables; the per-order counts are an argument.
- The SQL side is exact arithmetic; SQLite's rounding of 0.2 * avg and 0.5 * sum in floating point is not modelled.
- The remaining queries and benchmarks: straight join-and-aggregate plans, fixed model definitions and calls into foreign code.
