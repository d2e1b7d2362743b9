# Advent of Code 2024 solutions, modelled in Dafny

This project models the core of a set of Go solutions to the 2024 Advent of
Code puzzles: the grid simulations, graph searches, dynamic programs and
small validators that compute each day's answers for days 1 to 25,
together with the shared `util` and `until` helpers (a map-backed
`HashSet`, integer parsing) and the three-bit computer of day 17. Each
day's Go file is a Dafny module of its own (`Day1` … `Day25`), but for
day 16, whose two searches are split between `Day16` (the shared moves
and `dijkstra`) and `Day16Paths` (`findAllMinPathsAndSpaces` and
`backtrack`); the helpers are the modules `HashSetUtil`, `HashSetUntil`,
`Text`, `GoInt`, `Sorting` and `ThreeBitComputer`, with `Wrappers`
holding the `Option` type.

Conventions used throughout:

- A Go grid `[][]string` of one-character strings is a `seq<seq<char>>`.
  Where the Go code changes a grid, a slice or a map in place, the model is
  a class whose field the methods reassign, or an `array` for a fixed-size
  slice that is updated in place.
- A Go runtime panic (an index out of range, a nil map entry used as a
  value) and `util.ParseInt` stopping the program on a string that is not
  a number are an error result (`Option.None`) wherever an input can cause
  them. Numerals too large for 64 bits are the exception: see the first
  lines of "## Left out".
- A recursion or loop that never ends on some input is an error result too,
  or takes a `fuel` bound where the end cannot be characterised.
- Go's `/` and `%` truncate toward zero; module `GoInt` writes them out.
- The library sorts (`sort.Ints`, `slices.Sort`, `sort.Slice`,
  `sort.Strings`) are stood in for by a verified insertion sort whose
  contract is what the library promises: an ascending permutation.
- Reading files, command-line parameters, printing and timing are left
  out; each day's `part1`/`part2` returns the number it prints.

## Model

| member | source | states |
|---|---|---|
| HashSetUtil.HashSet.constructor | 2024/util/HashSet.go:8-10 | a new set is empty |
| HashSetUtil.HashSet.Add | 2024/util/HashSet.go:13-15 | afterwards the value is a member, every earlier member stays, and the size grows by one exactly when the value was new |
| HashSetUtil.HashSet.Remove | 2024/util/HashSet.go:18-20 | afterwards the value is not a member and every other value keeps its membership |
| HashSetUtil.HashSet.Contains | 2024/util/HashSet.go:23-26 | true exactly when the value is a member |
| HashSetUtil.HashSet.Size | 2024/util/HashSet.go:29-31 | the number of distinct members, zero exactly for the empty set |
| HashSetUtil.HashSet.Clear | 2024/util/HashSet.go:34-36 | afterwards the size is zero and no value is a member |
| HashSetUtil.HashSet.ToSlice | 2024/util/HashSet.go:39-45 | lists every member exactly once and nothing else, so its length is the size |
| HashSetUtil.Elements | 2024/util/HashSet.go:39-45 | the loop behind ToSlice lists every member of a set exactly once and nothing else |
| HashSetUtil.HashSet.Union | 2024/util/HashSet.go:48-59 | a fresh set holding exactly the values of the receiver or of some argument set |
| HashSetUtil.HashSet.AddAll | 2024/util/HashSet.go:53-57 | adding every value of a set keeps the old members and adds exactly those values |
| HashSetUtil.HashSet.Intersection | 2024/util/HashSet.go:62-77 | a fresh set holding exactly the receiver's values that every argument set contains |
| HashSetUtil.HashSet.Difference | 2024/util/HashSet.go:80-95 | a fresh set holding exactly the receiver's values that no argument set contains |
| HashSetUtil.HashSet.Equals | 2024/util/HashSet.go:98-108 | true exactly when both sets have the same members |
| HashSetUntil.NewHashSet | 2024/until/HashSet.go:8-10 | the copy in package `until` starts empty too; its other methods are those of the `util` set |
| Text.AtoiAll | 2024/until/util.go:59-66 | parsing a list of strings succeeds exactly when every string is a number, and then the k-th value is the value of the k-th string |
| Text.AtoiItoa | 2024/until/util.go:50-57 | parsing the decimal text of any integer gives that integer back |
| Text.NoBreakSpaceSplits | 2024/Day1/day_1.go:45 | `strings.Fields` splits at a no-break space as at any Unicode space, so "3", U+00A0, "4" gives the fields "3" and "4" |
| ThreeBitComputer.ExecAdvances | 2024/Day17/threebitcomputer/computer.go:88-124 | every opcode in 0..7 except `jnz` moves the instruction pointer on by exactly 2; an unknown opcode changes nothing and returns -1 |
| ThreeBitComputer.ExecJump | 2024/Day17/threebitcomputer/computer.go:163-172 | `jnz` sets `done` and keeps `ip` when `OneTime` is set or `a` is 0, and otherwise jumps to its operand |
| ThreeBitComputer.ExecOut | 2024/Day17/threebitcomputer/computer.go:187-193 | `out` appends the text of combo mod 8, a digit 0..7 for a non-negative combo, and changes no register |
| ThreeBitComputer.ExecResultIsIp | 2024/Day17/threebitcomputer/computer.go:88-124 | the value `execute` returns for a known opcode is the new instruction pointer |
| ThreeBitComputer.DivNonNegative | 2024/Day17/threebitcomputer/computer.go:83-85 | with Go's float division taken as exact, for a non-negative numerator and exponent the truncated quotient is the floor of a / 2^k and never exceeds a |
| ThreeBitComputer.RunOutputGrows | 2024/Day17/threebitcomputer/computer.go:41-62 | a run only appends to the output |
| ThreeBitComputer.RunOneTimeHalts | 2024/Day17/threebitcomputer/computer.go:41-62 | with `OneTime` set the run stops within the program's length, without running out of steps |
| ThreeBitComputer.Computer.constructor | 2024/Day17/threebitcomputer/computer.go:29-38 | the given registers, `ip` 0, empty output, `done` and `OneTime` false |
| ThreeBitComputer.Computer.MoveInstructionPointer | 2024/Day17/threebitcomputer/computer.go:115-124 | adds 2 to `ip`, returns it, and changes nothing else |
| ThreeBitComputer.Computer.Adv | 2024/Day17/threebitcomputer/computer.go:128-135 | `a` becomes a / 2^combo truncated, `ip` advances by 2, nothing else changes |
| ThreeBitComputer.Computer.Bxl | 2024/Day17/threebitcomputer/computer.go:139-148 | `b` becomes b XOR the literal operand, `ip` advances by 2, nothing else changes |
| ThreeBitComputer.Computer.Bst | 2024/Day17/threebitcomputer/computer.go:152-159 | `b` becomes combo mod 8 (Go's remainder), `ip` advances by 2, nothing else changes |
| ThreeBitComputer.Computer.Jnz | 2024/Day17/threebitcomputer/computer.go:163-172 | halts without moving when `OneTime` is set or `a` is 0; otherwise jumps to the operand |
| ThreeBitComputer.Computer.Bxc | 2024/Day17/threebitcomputer/computer.go:176-183 | `b` becomes b XOR c whatever the operand, `ip` advances by 2, nothing else changes |
| ThreeBitComputer.Computer.Out | 2024/Day17/threebitcomputer/computer.go:187-193 | appends the text of combo mod 8 to the output, `ip` advances by 2, no register changes |
| ThreeBitComputer.Computer.Bdv | 2024/Day17/threebitcomputer/computer.go:197-204 | `b` becomes a / 2^combo truncated, `ip` advances by 2, nothing else changes |
| ThreeBitComputer.Computer.Cdv | 2024/Day17/threebitcomputer/computer.go:208-216 | `c` becomes a / 2^combo truncated, `ip` advances by 2, nothing else changes |
| ThreeBitComputer.Computer.Execute | 2024/Day17/threebitcomputer/computer.go:88-111 | opcodes 0..7 go to adv, bxl, bst, jnz, bxc, out, bdv, cdv; any other opcode returns -1 and changes nothing |
| ThreeBitComputer.Computer.Run | 2024/Day17/threebitcomputer/computer.go:41-62 | the loop ends in the state `RunSpec` names: halted at the end of the program or on `done`, a fault (the process exit) for an unknown opcode, a panic for an operand read past the end |
| Day17.CandidatesSpec | 2024/Day17/day17.go:46-59 | the offsets kept are exactly the i in 0..n-1 whose one-shot run prints the wanted value first, in ascending order; the scan panics exactly when some run prints nothing |
| Day17.TriesSpec | 2024/Day17/day17.go:46-59 | for the eight offsets a+0..a+7: the kept offsets are those whose first output is the last remaining program value |
| Day17.TriesBounds | 2024/Day17/day17.go:46 | every kept offset lies in 0..7 |
| Day17.FirstValue | 2024/Day17/day17.go:47-51 | a one-shot run from `a` returns the probe's value: its first output parsed, or a panic when it prints nothing |
| Day17.TryOffsets | 2024/Day17/day17.go:46-59 | the eight one-shot runs keep exactly the offsets `Tries` names and record a+i at the last level for each one kept |
| Day17.BranchesOrder | 2024/Day17/day17.go:61-66 | the recursive calls may be made in any order of the candidate set (Go's map order) without changing what is recorded or whether a run crashes |
| Day17.FindSolutions | 2024/Day17/day17.go:36-68 | returns at once on no values; otherwise records exactly the values of the search tree that `SearchFound` names, recursing on (a+i)*8 with the last value popped and level+1; crashes exactly when some probed run prints nothing |
| Day17.SearchSound | 2024/Day17/day17.go:36-68 | every recorded value was recorded at level len(program), and its one-shot run prints the program value that level was matching; it is non-negative when the search starts from a non-negative `a` |
| Day17.Part2 | 2024/Day17/day17.go:27-34 | the smallest recorded value; nothing when a run crashes or nothing is recorded (`results[0]` panics) |
| Day17.Part2Answer | 2024/Day17/day17.go:27-66 | any value part 2 can report is a non-negative register `a` whose one-shot run prints the program's first value |
| Day17.Part1 | 2024/Day17/day17.go:20-25 | the output and ending of running the program from the parsed registers |
| Day17.ParseInput | 2024/Day17/day17.go:70-94 | registers from the first integer of lines 0, 1 and 2 and the program from every integer of line 4 on, failing where Go indexes out of range or `ParseInt` exits |
| Day17.ParseTokensFails | 2024/Day17/day17.go:84-91 | once a token fails to parse, the whole program fails whatever follows |
| Day17.ParseInputRoundTrip | 2024/Day17/day17.go:70-94 | parsing the printed registers and program gives them back |
| Day7.ParseAll | 2024/Day7/day7.go:145-161 | Some exactly when every line parses; then one equation per line, in order, each the parse of its line |
| Day7.ParseEquations | 2024/Day7/day7.go:145-161 | the loop over the lines gives ParseAll of the input |
| Day7.ParseEquation | 2024/Day7/day7.go:149-158 | the loop body gives ParseLine of the line: the first space-separated token less its last character is the target and the other tokens are the numbers; an empty first token panics and a token that is not a number exits |
| Day7.ParseFormat | 2024/Day7/day7.go:149-158 | parsing the puzzle's `target: v1 v2 ...` line of any equation gives that equation back |
| Day7.ConcatDecimal | 2024/Day7/day7.go:63-65 | parsing the text of `v` followed by the text of `x` gives the digits of `x` appended to `v` when `x` is non-negative, and fails (the program exits) when `x` is negative |
| Day7.NextEntry | 2024/Day7/day7.go:57-67 | going through the previous entry's members in any order gives exactly the sums, products and, with concatenation, the concatenations with the next number; with concatenation and a negative number a non-empty entry stops the program |
| Day7.Calibrate | 2024/Day7/day7.go:97-126 | the table filled entry by entry (with concatenation: lines 45-72) gives Outcome: None with no numbers or a failed concatenation, otherwise whether the target is in the last entry |
| Day7.Sum | 2024/Day7/day7.go:92-138 | the sum of the targets the equations send, or None when one of them stops the program |
| Day7.LevelHasAdded | 2024/Day7/day7.go:114-120 | the value with `+` everywhere is in every entry, so no entry is empty |
| Day7.LevelComplete | 2024/Day7/day7.go:114-120 | every left-to-right choice of the allowed operators yields a value in the last entry |
| Day7.LevelIff | 2024/Day7/day7.go:123-125 | the target is in the last entry exactly when some left-to-right choice of the allowed operators turns the numbers into it |
| Day7.LevelGrows | 2024/Day7/day7.go:57-67 | every entry of part 2's table holds the corresponding entry of part 1's |
| Day7.TotalGrows | 2024/Day7/day7.go:43-84 | with non-negative targets, when part 2 finishes so does part 1, with an answer no larger |
| Day10.Extend | 2024/Day10/day10.go:111-122 | the direction loop queues, in the order right, down, left, up, the current path extended by each neighbour inside the rows and the first row's columns whose height is exactly one more |
| Day10.ExtensionsAreMoves | 2024/Day10/day10.go:111-121 | every queued extension is the current path plus one move to an in-bounds neighbour exactly one higher |
| Day10.ExtendedHikes | 2024/Day10/day10.go:111-121 | every path on the queue is a hike from the trailhead: each move goes to a neighbour one higher |
| Day10.HikeHeight | 2024/Day10/day10.go:111-121 | the last cell of a path is as many levels above the trailhead as the path has moves, so with single-digit heights a path has at most 10 cells |
| Day10.ExtensionsSums | 2024/Day10/day10.go:109-122 | queuing a path's extensions adds exactly the trails, the 9s and the remaining work of that path to the queue's totals |
| Day10.TallyPeak | 2024/Day10/day10.go:100-107 | scoring a path at a 9 (once per 9 unless `uniquePaths`) keeps score plus queue equal to the trailhead's score and shrinks the remaining work |
| Day10.TallyExtend | 2024/Day10/day10.go:109-122 | replacing a path below 9 by its extensions keeps the tally and shrinks the remaining work |
| Day10.TallySeen | 2024/Day10/day10.go:100-122 | a 9 already scored in part 1 falls through, adds no extension, and keeps the tally |
| Day10.Bfs | 2024/Day10/day10.go:74-127 | the queue loop ends, and its score is the number of trails from the start with `uniquePaths`, otherwise the number of distinct 9s they reach |
| Day10.PeaksReachable | 2024/Day10/day10.go:100-104 | a cell is among the 9s a trailhead reaches exactly when it has height 9 and some hike from the trailhead ends there |
| Day10.TrailsCountHikes | 2024/Day10/day10.go:100-104 | the part 2 score of a trailhead is the number of distinct hikes from it that end at a 9: the listing has no repeat and holds exactly those hikes |
| Day10.PeaksAtMostTrails | 2024/Day10/day10.go:100-104 | each 9 reached ends at least one trail, so a trailhead's part 1 score is at most its part 2 score |
| Day10.ScoreRow | 2024/Day10/day10.go:42-47 | the column loop adds the score of every cell of height 0 in the row |
| Day10.SearchForTrailHead | 2024/Day10/day10.go:34-61 | fails exactly when the map is empty or a row is shorter than the first (Go panics); otherwise the sum of the scores of every cell of height 0 within the first row's width |
| Day10.Part1AtMostPart2 | 2024/Day10/day10.go:63-71 | part 1's answer never exceeds part 2's |
| Day10.ConvertLine | 2024/Day10/day10.go:133-137 | a line converts exactly when every character is a digit, and then to the digits' values in order |
| Day10.ConvertData | 2024/Day10/day10.go:129-141 | the conversion fails exactly when some character is not a digit (`ParseInt` stops the program); otherwise one row per line |
| Day10.ConvertRoundTrip | 2024/Day10/day10.go:129-141 | the conversion gives single-digit heights, one row per line and one height per character, and reads any such map back from its digits |
| Day10.Solve | 2024/Day10/day10.go:26-30 | `main`: nothing when a character is not a digit or the map is empty or ragged; otherwise both parts' sums, part 1 at most part 2 |
| Day11.ConvertInt | 2024/Day11/day11.go:42-48 | the loop gives `Stones`: one number per space-separated token of the first line, in order; no line (Go indexes `input[0]`) or a token that is not a number stops the program |
| Day11.StonesFormat | 2024/Day11/day11.go:42-48 | the puzzle's line, the stones printed and separated by single spaces, converts back to the same stones |
| Day11.StoneCounter.CountStones | 2024/Day11/day11.go:121-163 | returns `Count` of the stone and round, and keeps every memo entry equal to the `Count` of its key, adding entries and never dropping one |
| Day11.StoneCounter.CountEach | 2024/Day11/day11.go:141-155 | the counts of the one or two stones a stone becomes, added up, or the stop when one of them stops the program; the memo stays valid |
| Day11.Blinks | 2024/Day11/day11.go:52-118 | the per-stone counts with one shared memo add up to `Total`: the sum of the stones' counts, or a stop when one stone stops the program |
| Day11.TotalStops | 2024/Day11/day11.go:68-82 | once the stones so far stop the program, the whole list does |
| Day11.NextText | 2024/Day11/day11.go:140-155 | the rules on digits (0 becomes 1; an even number of characters splits into the numbers its two halves of text read as; otherwise times 2024) are Go's rules on `strconv.Itoa` for every stone, negative ones included, where a half that is a lone '-' stops the program |
| Day11.CutText | 2024/Day11/day11.go:144-147 | the decimal text of a number cut after j digits reads as the number without its last digits and as its last digits |
| Day11.CountExpand | 2024/Day11/day11.go:121-163 | on a non-negative stone the count never stops the program and is the number of stones the rule alone makes |
| Day11.ExpandIsLength | 2024/Day11/day11.go:140-155 | the number of stones the rule makes of one stone after n rounds is the length of the explicit row after n blinks |
| Day11.CountIsLength | 2024/Day11/day11.go:121-163 | the memoised count of a non-negative stone is the length of its row after the blinks |
| Day11.TotalIsLength | 2024/Day11/day11.go:52-118 | for non-negative stones, part 1 and part 2 answer the number of stones in the row after 25 or 75 blinks |
| Day11.AfterAppend | 2024/Day11/day11.go:68-82 | stones blink independently: the row of two rows put together is the two rows after the blinks put together, which is why counting stone by stone is sound |
| Day11.AfterNoShorter | 2024/Day11/day11.go:140-155 | no blink makes the row shorter |
| Day21.Combination | 2024/Day21/day21.go:87-218 | the table holds exactly the pairs of two different keys of one keypad (door or directional), and each of its paths is direction keys ending in one 'A' |
| Day21.TableRoutes | 2024/Day21/day21.go:87-218 | every path of the table moves the arm from its start key to its end key on that keypad without pointing at the gap, in as many moves as the keys are apart, then presses 'A' |
| Day21.TableShortest | 2024/Day21/day21.go:87-218 | no press sequence that drives an arm between the two keys around the gap is shorter than the table's path |
| Day21.SequenceCache.GetSequenceLength | 2024/Day21/day21.go:50-70 | returns `SequenceLength`: the cached value when the (sequence, depth) key is present, else the sequence's length at depth 0 or the sum of the move counts from 'A' key by key; the result is cached, and every cache entry stays equal to the length of its key |
| Day21.SequenceCache.GetMoveCount | 2024/Day21/day21.go:72-78 | returns `MoveCount`: 1 for a repeated key, otherwise the length of the table path one depth down; the cache stays valid |
| Day21.MoveCountPress | 2024/Day21/day21.go:72-78 | a move costs the length, one depth down, of the presses that make it: "A" for a repeated key, else the table path |
| Day21.LengthIsTyped | 2024/Day21/day21.go:50-78 | the memoised length at depth d is exactly the number of presses at the far end of d robots, each typing the presses of the one nearer the door |
| Day21.LengthNoShorter | 2024/Day21/day21.go:50-78 | a string of keys of one keypad takes at least as many presses as it has keys, at any depth |
| Day21.LeadingDigits | 2024/Day21/day21.go:81-83 | the run returned is a prefix of the text, all digits, and stops at a non-digit or the end |
| Day21.FirstNumber | 2024/Day21/day21.go:80-85 | the number is the value of the run of digits that starts at the line's first digit |
| Day21.NoNumber | 2024/Day21/day21.go:83-84 | a line without digits has no match and `num[0]` panics |
| Day21.CodeNumber | 2024/Day21/day21.go:80-85 | a door code, digits then 'A', has the digits' value as its number, leading zeros ignored |
| Day21.SequenceCache.SumComplexities | 2024/Day21/day21.go:29-33 | the loop over the codes gives `Complexity`: the sum of each code's length times its number, or a stop at the first code without a number; the cache stays valid |
| Day21.ComplexityStops | 2024/Day21/day21.go:29-33 | once a code has no number the program stops, whatever follows |
| Day21.ComplexityIsTyped | 2024/Day21/day21.go:27-48 | the answer is the sum over the codes of the number of presses at the far end of the robots times the code's number |
| Day21.Solve | 2024/Day21/day21.go:21-48 | `part1` at depth 3 and `part2` at depth 26, one after the other on one shared cache, answer the complexities at those depths |
| Day8.ScanCells | 2024/Day8/day8.go:34-38 | the cell loop over one row appends each non-"." cell's position to its symbol's group, as `ScanRow` describes |
| Day8.FindAntennaPositions | 2024/Day8/day8.go:30-41 | the two loops build exactly the groups `ScanGrid` describes |
| Day8.AntennaPositions | 2024/Day8/day8.go:30-41 | a symbol is a key exactly when some cell holds it; its group lists exactly the cells holding it, x the column and y the row, each once in row-major order |
| Day8.ScanGridSpec | 2024/Day8/day8.go:33-39 | after k rows the groups hold exactly the antennas of those rows, each group non-empty and strictly increasing, and "." is never a key |
| Day8.GroupsOnGrid | 2024/Day8/day8.go:30-41 | the groups list distinct antennas, each a cell of the grid |
| Day8.AddPair | 2024/Day8/day8.go:49-60 | one pair adds to the set exactly its two antinodes that pass `withInBounds` |
| Day8.AddFromFirst | 2024/Day8/day8.go:48-61 | the `j` loop adds the in-bounds antinodes of every pair (i, j) with j after i |
| Day8.AddPairs | 2024/Day8/day8.go:47-62 | the `i` loop adds the in-bounds antinodes of every pair of a group |
| Day8.KeysPairsAnyOrder | 2024/Day8/day8.go:46-63 | ranging over the groups in any order that lists every symbol adds the same set |
| Day8.Part1With | 2024/Day8/day8.go:44-66 | the answer is the size of the set of in-bounds antinodes of every same-symbol pair, whatever order the map is ranged in |
| Day8.Part1 | 2024/Day8/day8.go:44-66 | as Part1With, with the bounds Go passes: the number of rows, then the length of the first row |
| Day8.Part1Members | 2024/Day8/day8.go:44-66 | a point is counted exactly when it is in bounds and an antinode of some same-symbol pair |
| Day8.AntinodeTwiceAsFar | 2024/Day8/day8.go:52-54 | each antinode lies on its pair's line, twice as far from one antenna as from the other |
| Day8.ExpandAntidote | 2024/Day8/day8.go:97-111 | the walk adds every point one, two, ... steps from the start up to the first one out of bounds, and nothing else |
| Day8.RayMembers | 2024/Day8/day8.go:97-111 | the walk's points are exactly the in-bounds points a whole number of steps on from an in-bounds start: it stops at the first point out of bounds and misses nothing |
| Day8.AddLine | 2024/Day8/day8.go:83-88 | one pair adds the walks beyond either antenna |
| Day8.LinesFromFirst | 2024/Day8/day8.go:82-89 | the `j` loop adds the walks of every pair (i, j) with j after i |
| Day8.AddLines | 2024/Day8/day8.go:81-90 | the `i` loop adds the walks of every pair of a group |
| Day8.AddGroup | 2024/Day8/day8.go:74-76 | every antenna of a group is added |
| Day8.AddAntennas | 2024/Day8/day8.go:73-77 | every antenna of every listed group is added |
| Day8.AddAllLines | 2024/Day8/day8.go:80-91 | the walks of every pair of every listed group are added |
| Day8.Part2With | 2024/Day8/day8.go:69-94 | the answer is the size of the set of every antenna and every point of the walks of every same-symbol pair, whatever order the map is ranged in |
| Day8.Part2 | 2024/Day8/day8.go:69-94 | as Part2With, with the bounds Go passes |
| Day8.PairLineSound | 2024/Day8/day8.go:86-88 | every point of a pair's walks is in bounds and a whole number of antenna-to-antenna steps from the first antenna |
| Day8.PairLineComplete | 2024/Day8/day8.go:86-88 | with both antennas in bounds, the walks reach every in-bounds point on the pair's line a whole number of steps away, other than the antennas |
| Day8.Part2Members | 2024/Day8/day8.go:69-94 | with the antennas in bounds, a point is counted exactly when it is an antenna or an in-bounds point a whole number of steps along some same-symbol pair's line |
| Day8.GridBoundsOnGrid | 2024/Day8/day8.go:114-116 | with the bounds the right way round, `withInBounds` holds exactly on the cells of a rectangular grid |
| Day8.TransposedBoundsMiss | 2024/Day8/day8.go:57 | on the grid "aa.." / "...." the antinode (2, 0) is a cell and is not counted with the bounds as written, and is with them corrected |
| Day8.SolveOnGrid | 2024/Day8/day8.go:22-27 | the corrected program's answers are the sizes of part 1's and part 2's sets under the grid's own bounds |
| Day8.OnGridMembers | 2024/Day8/day8.go:22-27 | the corrected program counts exactly the grid cells that are antinodes (part 1), and the antennas and the grid cells on a same-symbol pair's line at whole steps (part 2) |
| Day8.Solve | 2024/Day8/day8.go:22-27 | `main` as written: the two answers are the sizes of the two sets under the bounds Go passes |
| Day9.Decompress | 2024/Day9/day9.go:140-165 | fails exactly when a character of the disk map is not a digit; otherwise returns the expansion of the digits (file blocks of file i for digit 2i, free blocks for digit 2i+1) and the number of files, (n+1)/2 for n digits |
| Day9.ExpandLength | 2024/Day9/day9.go:146-163 | the expanded disk has as many blocks as the digits add up to |
| Day9.ExpandFileSize | 2024/Day9/day9.go:150-155 | file j occupies exactly as many blocks as its digit says |
| Day9.ExpandCells | 2024/Day9/day9.go:150-161 | every block is either free with file number -1 or a file block whose number is below the file count |
| Day9.NextEmptyIsLeast | 2024/Day9/day9.go:128-135 | `findNextEmpty` returns the least free index at or after start, or -1 when there is none |
| Day9.NextFilledIsGreatest | 2024/Day9/day9.go:118-125 | `findNextFilled` returns the greatest filled index at or before start, or -1 when there is none |
| Day9.FindNextEmpty | 2024/Day9/day9.go:128-135 | the scanning loop returns what `NextEmpty` names |
| Day9.FindNextFilled | 2024/Day9/day9.go:118-125 | the scanning loop returns what `NextFilled` names |
| Day9.CompactSorts | 2024/Day9/day9.go:39-46 | the two-pointer loop leaves every filled block before every free block and keeps the multiset of blocks |
| Day9.CompactedChecksums | 2024/Day9/day9.go:48-55 | on a compacted disk the checksum that stops at the first free block equals the sum of index times file number over all filled blocks |
| Day9.Part1 | 2024/Day9/day9.go:37-55 | the array ends as the compacted disk and the answer is its checksum up to the first free block |
| Day9.Part1AsWritten | 2024/Day9/day9.go:37-55 | the loop exactly as written, with a panic result where it indexes position -1 |
| Day9.CompactAsWrittenPanics | 2024/Day9/day9.go:39-46 | the loop as written panics exactly when the disk is non-empty and has no free block; otherwise it agrees with the corrected loop |
| Day9.SingleFilePanics | 2024/Day9/day9.go:39-46 | the disk map "1" expands to one block of file 0 and the loop as written panics on it |
| Day9.GroupMembers | 2024/Day9/day9.go:65-70 | the file-block map lists index k under id exactly when id > 0 and block k belongs to file id |
| Day9.GroupIncreasing | 2024/Day9/day9.go:65-70 | every listed file has a non-empty, strictly increasing list of indices |
| Day9.GroupFiles | 2024/Day9/day9.go:65-70 | the grouping loop builds exactly `Group` of the disk |
| Day9.FreeRunIsLeftmost | 2024/Day9/day9.go:83-94 | the free-span search returns the leftmost start of fileLen consecutive free blocks, or -1 when there is none |
| Day9.FindFreeSpan | 2024/Day9/day9.go:83-94 | the scanning loop returns what `FreeRun` names |
| Day9.MovePreserves | 2024/Day9/day9.go:97-103 | moving a file into free blocks to its left keeps the number of free blocks and of blocks of every file |
| Day9.RelocateAllPreserves | 2024/Day9/day9.go:73-104 | relocating every file from the highest id down keeps the number of free blocks and of blocks of every file |
| Day9.RelocateAllKeeps | 2024/Day9/day9.go:65-77 | blocks of file 0 (and any file number <= 0) never move |
| Day9.Part2 | 2024/Day9/day9.go:62-111 | the array ends as the defragmented disk and the answer is the sum of index times file number over its filled blocks |
| Day9.ExpandIntact | 2024/Day9/day9.go:140-165 | every file of a freshly expanded disk occupies one contiguous span, as the relocation assumes |
| Day9.DefragmentCounts | 2024/Day9/day9.go:62-104 | on a decompressed disk, part 2 keeps the number of free blocks and of blocks of every file |
| Day9.DefragmentKeepsFileZero | 2024/Day9/day9.go:65-77 | on a decompressed disk, part 2 leaves the blocks of file 0 where they are |
| Day12.PerimeterBounds | 2024/Day12/day12.go:238-252 | a region's perimeter lies between 0 and four pieces per cell |
| Day12.CalculatePerimeter | 2024/Day12/day12.go:238-252 | the nested loop returns `Perimeter`: per cell, 4 less one for each in-bounds orthogonal neighbour of the same crop |
| Day12.CornerKinds | 2024/Day12/day12.go:161-188 | a check is never both an exterior and an interior corner; an interior corner is exactly both orthogonal cells on the grid with the crop and the diagonal on the grid with another crop |
| Day12.CornersBounds | 2024/Day12/day12.go:109-151 | each cell contributes between 0 and 4 corners |
| Day12.IsolatedPlot | 2024/Day12/day12.go:109-151 | a single plot with no same-crop neighbour has perimeter 4 and 4 corners |
| Day12.CalculateCorners | 2024/Day12/day12.go:109-151 | the nested loop returns `Corners`: per cell, how many of the NW, NE, SE, SW checks find an exterior or interior corner |
| Day12.Farm.CaptureRegion | 2024/Day12/day12.go:203-230 | the cells that become seen are exactly the returned area, each once; the area starts at the start cell unless it was seen already, every later cell holds the crop next to an earlier one, and no same-crop neighbour of an area cell is left unseen |
| Day12.ComputeGrid | 2024/Day12/day12.go:76-99 | the regions partition the grid (each cell in exactly one region, once), each region is a connected component of its crop, and each carries perimeter, cost = perimeter * area and discount = area * corners; an empty grid panics |
| Day12.PriceRegions | 2024/Day12/day12.go:92-96 | filling in the figures keeps every region's cells and crop and sets perimeter, cost and discount as the formulas say |
| Day12.Part1 | 2024/Day12/day12.go:49-57 | the answer is the sum of the regions' costs |
| Day12.Part2 | 2024/Day12/day12.go:61-68 | the answer is the sum of the regions' discounted prices |
| Day1.Columns | 2024/Day1/day_1.go:42-53 | defined exactly when every line has at least two fields; then both columns have one entry per line, in order, each the line's first or second field as `strconv.Atoi` reads it, 0 when it is not a number |
| Day1.ConvertInputData | 2024/Day1/day_1.go:42-53 | the loop builds the two columns of `Columns`, and stops with an error at the first line of fewer than two fields |
| Day1.RowOfLine | 2024/Day1/day_1.go:45-47 | a line printed from two numbers reads back as those two numbers |
| Day1.ColumnsRoundTrip | 2024/Day1/day_1.go:42-53 | two columns of equal length printed line by line convert back to the same columns |
| Day1.Part1 | 2024/Day1/day_1.go:58-83 | an error exactly when the right column is shorter than the left one (Go indexes past it); otherwise the sum of the distances between the values at equal positions of the two columns sorted ascending |
| Day1.TotalDistanceNonNegative | 2024/Day1/day_1.go:68 | each distance is an absolute value, so the total is never negative |
| Day1.TotalDistanceZero | 2024/Day1/day_1.go:64-80 | the total is 0 exactly when every value equals its partner |
| Day1.SortedUnique | 2024/Day1/day_1.go:59-60 | two ascending lists with the same elements are equal, so the order `sort.Ints` leaves is determined by the values |
| Day1.Part1Reordered | 2024/Day1/day_1.go:58-83 | part 1 depends only on the values each column holds, not on the order of the lines |
| Day1.Part1Zero | 2024/Day1/day_1.go:58-83 | for columns of equal length part 1 answers 0 exactly when the columns hold the same values, each as often |
| Day1.DistanceExample | 2024/Day1/day_1.go:55-56 | the example of the comment: [1,2,3] and [2,3,4] are 3 apart |
| Day1.PopulateFrequencyMap | 2024/Day1/day_1.go:126-130 | every value's entry grows by the number of times it occurs in the slice; the keys afterwards are the old keys and the slice's values |
| Day1.Part2 | 2024/Day1/day_1.go:89-122 | the similarity score: the sum over the left values of the value times its number of occurrences in the right column, 0 for a value that does not occur |
| Day1.SimilaritySymmetric | 2024/Day1/day_1.go:85-88 | swapping the columns gives the same score, since both sum the value of every pair of equal left and right entries |
| Day1.SimilarityOfMultiset | 2024/Day1/day_1.go:90-91 | the right column enters only through its frequency map: any reordering of it gives the same score |
| Day1.SimilarityReordered | 2024/Day1/day_1.go:22-24 | the score does not depend on the order of either column, so part 2 gives the same answer on the columns that part 1 has sorted in place |
| Day1.SimilarityExample | 2024/Day1/day_1.go:85-86 | the example of the comment, [1,2,3] against [1,1,2], scores 1·2 + 2·1 + 3·0 = 4 (the comment's "3" is a slip in the arithmetic, not in the code) |
| Day1.Solve | 2024/Day1/day_1.go:20-25 | an error exactly when a line has fewer than two fields; otherwise part 1's total distance of the sorted columns and part 2's similarity score |
| Day2.ReadAll | 2024/Day2/day2.go:51-54 | one number per field, in order: the field's `strconv.Atoi` value, or 0 where Atoi fails and its error is ignored |
| Day2.ConvertData | 2024/Day2/day2.go:46-58 | one report per line, in order, each the numbers of the line's white-space separated fields, a field that is not a number reading as 0 |
| Day2.LevelsRoundTrip | 2024/Day2/day2.go:46-58 | levels printed with single spaces between them convert back to the same levels |
| Day2.CheckSafetyLevels | 2024/Day2/day2.go:153-180 | the loop answers `Safe`: fewer than two levels, or every step rises by 1 to 3, or every step falls by 1 to 3 |
| Day2.UnsafeStep | 2024/Day2/day2.go:164-175 | a step that leaves the first step's direction, or differs by less than 1 or more than 3, makes the report unsafe |
| Day2.SafeSteps | 2024/Day2/day2.go:164-179 | steps all in one direction and each of 1 to 3 make the report safe |
| Day2.EqualUnsafe | 2024/Day2/day2.go:166-174 | two equal neighbouring levels make a report unsafe |
| Day2.Remove | 2024/Day2/day2.go:183-189 | the copy is one level shorter, keeps the levels before `index`, shifts the later ones down by one, and holds the report's levels less the removed one |
| Day2.CheckDampened | 2024/Day2/day2.go:98-131 | answers `Tolerable`: safe as it is, or safe once some one level is removed |
| Day2.SafeDropEnds | 2024/Day2/day2.go:116-128 | a safe report stays safe with its first or its last level removed |
| Day2.DuplicateForcesRemoval | 2024/Day2/day2.go:116-128 | with two equal neighbouring levels, only removing one of those two can make the report safe |
| Day2.Part1 | 2024/Day2/day2.go:63-85 | the number of safe reports |
| Day2.Part2 | 2024/Day2/day2.go:91-148 | the number of tolerable reports |
| Day2.DampenerCountsMore | 2024/Day2/day2.go:63-148 | part 2 counts at least the reports part 1 counts, and neither counts more than there are reports |
| Day3.TokenTextDistinct | 2024/Day3/day3.go:71-76 | comparing a match's text with "do()" or "don't()" picks out exactly those two tokens, never a `mul` |
| Day3.FilterSwitches | 2024/Day3/day3.go:67-82 | the loop with its `skip` flag keeps exactly the `mul` tokens the filter lets through, starting enabled |
| Day3.MatchPattern | 2024/Day3/day3.go:63-88 | without the filter every match's numerals in their original order; with it, only those of the enabled `mul` tokens |
| Day3.EnabledMuls | 2024/Day3/day3.go:76-78 | no "do()" or "don't()" ever reaches the filtered output |
| Day3.EnabledAppend | 2024/Day3/day3.go:67-82 | filtering two stretches of tokens one after the other is filtering the second in the state the first left |
| Day3.AfterLastSwitch | 2024/Day3/day3.go:69-75 | only the most recent switch applies: after it the filter is on exactly when it was "do()", and with none it keeps its starting state |
| Day3.MulKept | 2024/Day3/day3.go:69-78 | a `mul` is kept exactly when the most recent switch before it is not "don't()" |
| Day3.EnabledWithoutDont | 2024/Day3/day3.go:67-82 | with no "don't()" the filter keeps every `mul`, in order |
| Day3.ExtractNumbers | 2024/Day3/day3.go:92-102 | one pair per numeral string, in order, the two numbers around its first comma, and an error (Go's index panic) for a string without a comma |
| Day3.PairOfMul | 2024/Day3/day3.go:95-98 | the "x,y" numerals of a `mul` read back as the numbers x and y |
| Day3.PairsAppend | 2024/Day3/day3.go:92-102 | the pairs of two lists of strings, one after the other, are the pairs of the joined list |
| Day3.FindProductSum | 2024/Day3/day3.go:124-130 | the sum of the products of the pairs |
| Day3.ProductSumAppend | 2024/Day3/day3.go:124-130 | the sum splits over concatenated pair lists, and is 0 for no pairs |
| Day3.ValueOfNumbers | 2024/Day3/day3.go:83-102 | extracting and reading the numerals of well-formed tokens never fails and gives pairs whose products sum to x·y over the `mul` tokens |
| Day3.EnabledValueAtMost | 2024/Day3/day3.go:67-82 | the filter keeps only tokens from its input, so the filtered value never exceeds the unfiltered one |
| Day3.MulsSame | 2024/Day3/day3.go:22-24 | the matches of the part 1 pattern, the `mul` tokens alone, have the same value as all the matches of the part 2 pattern |
| Day3.Part1 | 2024/Day3/day3.go:106-110 | the products of the pairs read from every match, summed; an error when a pair cannot be read |
| Day3.Part2 | 2024/Day3/day3.go:117-121 | the products of the pairs read from the enabled `mul` matches, summed; an error when a pair cannot be read |
| Day3.Solve | 2024/Day3/day3.go:43-56 | on well-formed matches part 1 is x·y summed over every `mul`, part 2 the same over the enabled ones, and part 2 is never more than part 1 |
| Day4.CheckDirections | 2024/Day4/day4.go:54-62 | true exactly when, for each k from 0 to 3, the cell k steps along the direction is inside the grid and holds the k-th letter of "XMAS" |
| Day4.CountAt | 2024/Day4/day4.go:68-73 | the number of the eight directions in which "XMAS" reads from the cell |
| Day4.CountInRow | 2024/Day4/day4.go:66-75 | the words counted over the row's cells, trying only "X" cells |
| Day4.Part1 | 2024/Day4/day4.go:34-80 | an error exactly for an empty grid or a row shorter than the first (Go reads past it); otherwise the number of (cell, direction) pairs from which "XMAS" reads |
| Day4.DirectionsAreTheSteps | 2024/Day4/day4.go:38-47 | the direction table lists each of the eight one-cell steps exactly once and never the null step |
| Day4.XmasInside | 2024/Day4/day4.go:55-61 | a counted word lies wholly inside the grid and reads X, M, A, S, so scanning only "X" cells misses none |
| Day4.XmasReversed | 2024/Day4/day4.go:54-76 | the same four cells read backwards from the "S" are not counted again |
| Day4.FoundAtMost | 2024/Day4/day4.go:68-73 | a cell counts at most once per direction |
| Day4.OccurrenceCounted | 2024/Day4/day4.go:65-76 | every occurrence of "XMAS" in one of the eight directions is counted, so such a grid has a positive count |
| Day4.XMasInRow | 2024/Day4/day4.go:112-128 | the crosses counted over the inner cells of one row |
| Day4.Part2 | 2024/Day4/day4.go:83-133 | an error exactly for an empty grid; otherwise the number of "A" cells off the border that pass the corner test |
| Day4.XMasMeaning | 2024/Day4/day4.go:94-126 | the corner test through `combinationMap` holds exactly when the cell is "A" and both diagonals through it read "MAS" forwards or backwards; a top corner that is neither M nor S never matches |
| Day4.XMasMirrored | 2024/Day4/day4.go:111-126 | turning the grid upside down keeps every cross |
| Day4.XMasExample | 2024/Day4/day4.go:12-16 | the cross of the puzzle's picture, in a 3 by 3 grid, counts once |
| Day4.Solve | 2024/Day4/day4.go:24-31 | both parts on the grid: an error exactly for an empty grid or a row shorter than the first (`part1` panics there before `part2` runs), otherwise the two counts |
| Day5.SeparateData | 2024/Day5/day5.go:28-42 | the rules are the leading lines holding '|', the next line holds none and is skipped, and the remaining lines are the updates; there is no split when every line holds '|' |
| Day5.ParseRules | 2024/Day5/day5.go:107-116 | no rules exactly when some rule line lacks a second piece or has a piece that is not a number; otherwise one parsed pair per line, in order |
| Day5.RuleRoundTrip | 2024/Day5/day5.go:110-112 | a rule printed as "a|b" parses back to the pair (a, b) |
| Day5.TargetsHas | 2024/Day5/day5.go:113 | b is listed after a exactly when some rule reads a|b |
| Day5.MakeGraph | 2024/Day5/day5.go:107-116 | no graph exactly when some rule fails to parse; otherwise a page has an entry exactly when some rule starts at it, and the entry lists that page's rule targets in input order |
| Day5.ParseFields | 2024/Day5/day5.go:199-203 | no pages exactly when some comma-separated piece is not a number; otherwise one page per piece, in order |
| Day5.UpdateRoundTrip | 2024/Day5/day5.go:196-207 | a non-empty update printed with commas converts back to the same pages |
| Day5.ConvertUpdates | 2024/Day5/day5.go:196-207 | fails exactly when some line has a piece that is not a number; otherwise every line becomes the pages its pieces parse to |
| Day5.TopologicalSort | 2024/Day5/day5.go:120-170 | the result is `KahnSort` of the update in the given map orders, and, whatever those orders, it lists distinct pages of the update and puts each page before every page a rule places after it |
| Day5.BuiltIsKahn | 2024/Day5/day5.go:121-151 | the subgraph and counts the first two loops build are the ones Kahn's algorithm starts from |
| Day5.KahnSortExample | 2024/Day5/day5.go:120-170 | with one rule placing page 2 after page 1, the update 1,2 sorts to 1,2: both pages are emitted, 1 first |
| Day5.BuildSubgraph | 2024/Day5/day5.go:121-141 | the subgraph keeps for each page of the update exactly its rule targets that are pages of the update, and each page's count is its number of incoming kept rules |
| Day5.MarkNodes | 2024/Day5/day5.go:127-131 | every page of the update, and nothing else, gets an empty neighbour list and a count of zero |
| Day5.CountEdges | 2024/Day5/day5.go:134-141 | after the loop every page holds its kept rule targets and each count is the number of kept rules into that page |
| Day5.AddEdges | 2024/Day5/day5.go:135-140 | one page's kept targets are stored and each count rises by the number of those targets equal to it |
| Day5.KeepHas | 2024/Day5/day5.go:136-137 | a target is kept exactly when it is a page of the update |
| Day5.InitialQueue | 2024/Day5/day5.go:147-151 | the queue holds, once each, exactly the pages whose count is zero, in the order Go ranges over them |
| Day5.Drain | 2024/Day5/day5.go:154-167 | the result is Kahn's loop run from the initial counts and queue; the emitted pages are distinct pages of the update and every kept rule between two of them points forward |
| Day5.PopReady | 2024/Day5/day5.go:155-158 | emitting the head of the queue keeps the emitted pages in rule order, and the counts then exceed the rules from pages not yet emitted by exactly the emitted page's own rules |
| Day5.Extend | 2024/Day5/day5.go:158 | appending a page whose rule predecessors are all emitted keeps every rule between emitted pages pointing forward |
| Day5.Relax | 2024/Day5/day5.go:161-166 | the result is the emitted page's decrements taken in target order; after them each count is the number of rules from pages not yet emitted, and a page is queued when its count reaches zero, never twice |
| Day5.RelaxPrefix | 2024/Day5/day5.go:161-166 | after the first k decrements the counts still include exactly the rules from the targets not yet visited, and no page is queued twice |
| Day5.IndegDone | 2024/Day5/day5.go:161-162 | emitting a page lowers each count by the number of that page's rules into it |
| Day5.IndegZero | 2024/Day5/day5.go:163-164 | a count of zero means no page still to be emitted has a rule into that page |
| Day5.ValidateUpdate | 2024/Day5/day5.go:174-193 | true exactly when the sort has the update's length and the recorded positions never decrease along the update; an empty update against an empty sort is valid |
| Day5.PositionSpec | 2024/Day5/day5.go:181-184 | in a sort without repeats, the position recorded for a page is its index |
| Day5.ValidIffSame | 2024/Day5/day5.go:174-193 | for a sort of distinct pages of the update, validation succeeds exactly when the sort is the update itself |
| Day5.Middle | 2024/Day5/day5.go:68 | no middle page exactly for an empty row (Go's index panics); otherwise the middle page is one of the row's pages |
| Day5.SumMiddles | 2024/Day5/day5.go:66-69 | no sum exactly when some selected row is empty |
| Day5.AddMiddles | 2024/Day5/day5.go:66-69 | the summing loop gives the sum of the middle pages, or no answer at the first empty row |
| Day5.SortAll | 2024/Day5/day5.go:50-58 | each update's sort is `KahnSort` of it in that update's map orders, so its pages are distinct and in rule order; the rows kept are the updates their sort reproduces, or the sorts that differ from their update |
| Day5.Part1 | 2024/Day5/day5.go:46-73 | the answer is the sum of the middle pages of the updates whose sort reproduces them, each sort being `KahnSort` of its update in the given map orders |
| Day5.Part2 | 2024/Day5/day5.go:76-104 | the answer is the sum of the middle pages of the sorts that differ from their update, each sort being `KahnSort` of its update in the given map orders |
| Day5.ConfirmedObeys | 2024/Day5/day5.go:54-57 | every update counted by part 1 obeys every rule between its pages |
| Day19.MaxLengthSpec | 2024/Day19/day19.go:86-92 | the longest length is -1 exactly for an empty bank; otherwise every pattern is at most that long and some pattern has exactly that length |
| Day19.LongestWord | 2024/Day19/day19.go:86-92 | the loop keeping a running maximum from -1 returns MaxLength of the bank |
| Day19.RunsSpec | 2024/Day19/day19.go:94-102 | the runs matched by `[a-zA-Z]+` are non-empty, all letters, and laid end to end give exactly the letters of the line in order |
| Day19.RunsOfWord | 2024/Day19/day19.go:94-102 | a non-empty line of letters only is a single run |
| Day19.RunsSplit | 2024/Day19/day19.go:94-102 | a non-letter character ends a run: the runs of `a c b` are the runs of `a` followed by the runs of `b` |
| Day19.CreateWordBank | 2024/Day19/day19.go:94-102 | with no lines there is no bank (Go indexes past the end); otherwise the bank is the maximal letter runs of the first line, in order |
| Day19.WordBreak | 2024/Day19/day19.go:114-131 | the table with `dp[0]` true and an inner scan from `max(0, i-longest)` that stops at the first match returns 1 exactly when the whole design is reached, else 0; the empty design gives 1 |
| Day19.Combinations | 2024/Day19/day19.go:142-156 | the table with `dp[0]` = 1 that adds `dp[i-len(w)]` for every pattern `w` ending at `i` returns the number of ordered ways Ways of the whole design; the empty design gives 1 |
| Day19.WaysNonNegative | 2024/Day19/day19.go:142-156 | every entry of the combinations table is at least 0 |
| Day19.BreakIffWays | 2024/Day19/day19.go:104-156 | with non-empty patterns no longer than `longest`, a prefix is reached by wordBreak exactly when combinations counts at least one way to make it |
| Day19.ReachSplits | 2024/Day19/day19.go:114-131 | a prefix the wordBreak table reaches is a concatenation of bank patterns |
| Day19.SplitsReach | 2024/Day19/day19.go:114-131 | with non-empty patterns no longer than `longest`, every prefix that is a concatenation of bank patterns is reached |
| Day19.PartsAgree | 2024/Day19/day19.go:104-156 | with the bank's own longest length, part 1 counts a design exactly when part 2 finds a way, and exactly when the design is a concatenation of bank patterns |
| Day19.WaysCounted | 2024/Day19/day19.go:142-156 | with non-empty patterns, each entry of the combinations table is the number of listed ways to make that prefix from bank patterns |
| Day19.ChoicesMake | 2024/Day19/day19.go:142-156 | every listed way picks bank patterns that, laid end to end, make the prefix |
| Day19.MakesChosen | 2024/Day19/day19.go:142-156 | every choice of bank patterns that makes the prefix is listed |
| Day19.ChoicesDistinct | 2024/Day19/day19.go:142-156 | no way is listed twice |
| Day19.CombinationsCount | 2024/Day19/day19.go:142-156 | with non-empty patterns, `combinations` answers the number of ordered ways to make the design from bank patterns (a pattern listed twice in the bank counting as two): the listed ways are distinct and are exactly the choices that make the design |
| Day20.Distance | 2024/Day20/day20.go:166-170 | the Manhattan distance is the sum of the absolute coordinate differences, and it is 0 exactly for the same point |
| Day20.MovesInRow | 2024/Day20/day20.go:147-153 | the inner loop over x from -cheatDistance to cheatDistance appends exactly the row's candidates `RowMoves` |
| Day20.GetMoves | 2024/Day20/day20.go:144-156 | returns `Moves`, the candidates of all rows y from -cheatDistance to cheatDistance in loop order |
| Day20.RowMovesMembers | 2024/Day20/day20.go:147-153 | a row's candidates are exactly the points of that row, in the scanned columns, at distance 1 to cheatDistance |
| Day20.RowMovesOrdered | 2024/Day20/day20.go:147-153 | a row's candidates lie in that row and are listed from left to right |
| Day20.GridMovesMembers | 2024/Day20/day20.go:146-154 | the candidates of the first m rows are exactly the points of those rows at distance 1 to cheatDistance |
| Day20.GridMovesOrdered | 2024/Day20/day20.go:146-154 | the candidates of the first m rows are listed row by row and within a row from left to right |
| Day20.MovesSpec | 2024/Day20/day20.go:144-156 | `getMoves` lists exactly the points at distance 1 to cheatDistance, each once, in row-major order of offsets (none for a negative distance) |
| Day20.MovesOne | 2024/Day20/day20.go:123 | with distance 1 the four neighbours come in the order (x, y-1), (x-1, y), (x+1, y), (x, y+1) |
| Day20.Find | 2024/Day20/day20.go:182-192 | a result is the first cell holding the character in row-major order over len(grid[0]) columns, or (-1, -1) when none does; None (a panic) only for an empty grid or a row shorter than the first; a rectangular grid never panics |
| Day20.Pushes | 2024/Day20/day20.go:123-131 | the neighbour loop panics exactly when some neighbour not yet numbered is outside the grid; otherwise it keeps the queue and appends exactly the neighbours that are not numbered and not walls, at most one entry per neighbour |
| Day20.PushMoves | 2024/Day20/day20.go:123-131 | the loop over the neighbours returns `Pushes` |
| Day20.ExploreStep | 2024/Day20/day20.go:114-132 | a round of the loop keeps every queued and numbered cell among the start and the open cells, and either numbers a new cell or lowers the queue's weight, so the loop ends on every grid |
| Day20.Bfs | 2024/Day20/day20.go:109-134 | returns `Explore` from the empty numbering and the queue [start]: a cell is numbered with the count of numbered cells when dequeued (again when dequeued twice), the search returns at the end and yields the empty (nil) map when the queue drains; None for a neighbour outside the grid |
| Day20.ExploreResult | 2024/Day20/day20.go:109-134 | from any state the search reaches, a non-empty result numbers the start 0 and the end last, keeps every earlier number's cell and holds only the start and open cells |
| Day20.BfsResult | 2024/Day20/day20.go:109-134 | a non-empty result of `bfs` holds the start with 0 and the end with the last number, and only the start and open cells |
| Day20.RouteOfSpec | 2024/Day20/day20.go:99-108 | the numbering of a route without repeats holds exactly its cells, each with its position |
| Day20.PushesOne | 2024/Day20/day20.go:123-131 | when every other neighbour is numbered or a wall, the neighbour loop queues exactly the one open, unnumbered neighbour |
| Day20.TrackInside | 2024/Day20/day20.go:114-118 | while it walks a race track the search holds only open cells |
| Day20.TrackPushes | 2024/Day20/day20.go:123-131 | on a race track the neighbour loop at the k-th cell queues exactly the (k+1)-th |
| Day20.TrackMark | 2024/Day20/day20.go:117 | on a race track the k-th dequeued cell is new and gets the number k |
| Day20.TrackStep | 2024/Day20/day20.go:114-132 | from the state with the first k track cells numbered and the k-th queued, the search numbers the whole track by position |
| Day20.TrackRoute | 2024/Day20/day20.go:99-134 | on the puzzle's race track (a single corridor from S to E) `bfs` returns each track cell numbered with its position on the track, which is its distance from the start |
| Day20.RecordFrom | 2024/Day20/day20.go:80-89 | the candidate loop of one numbered cell adds exactly the cheats from that cell to a numbered cell at most cheatDistance away with a positive saving, each with its saving, and keeps the earlier cheats |
| Day20.RecordCheats | 2024/Day20/day20.go:77-91 | over the route in any map order, the cheats map holds exactly the recorded cheats, each with its saving (later number less earlier number less jump length) |
| Day20.CountSavings | 2024/Day20/day20.go:92-95 | in any map order, the histogram has a key exactly for each saving some cheat has, and its count is the number of cheats with that saving |
| Day20.FindCheatPaths | 2024/Day20/day20.go:76-97 | for each saving s, the returned map has s exactly when some cheat of the route saves s, with the number of such cheats |
| Day20.CountedStep | 2024/Day20/day20.go:40-45 | adding a saving to those summed adds the cheats of that saving when it is at least 100, and none of them was counted before |
| Day20.CountedAll | 2024/Day20/day20.go:40-45 | once every saving of the histogram is summed, every cheat saving at least 100 is counted |
| Day20.Part | 2024/Day20/day20.go:32-66 | `part1`/`part2` answer the number of cheats of at most cheatDistance steps that save at least 100, over the route `bfs` returns; None exactly when `bfs` panics |
| Day20.TrackCheats | 2024/Day20/day20.go:76-97 | on a race track a cheat from the i-th cell to the j-th counts exactly when the jump is 1 to cheatDistance long and j - i less the jump is positive and at least the threshold, and every counted cheat has both ends on the track |
| Day20.Solve | 2024/Day20/day20.go:25-30 | a result is the pair of answers for cheat distances 2 and 20 from the start and end `find` returns; None only for an empty or ragged grid or a `bfs` panic |
| Day22.PruneRange | 2024/Day22/day22.go:114-116 | a non-negative number prunes to its residue modulo 16777216, which lies in [0, 2^24) |
| Day22.MixTwice | 2024/Day22/day22.go:118-120 | mixing is XOR, so mixing the same value in twice gives the number back |
| Day22.NextNonNegative | 2024/Day22/day22.go:100-112 | on a non-negative number the step mixes with sn*64, then sn/32, then sn*2048, pruning after each |
| Day22.NextRange | 2024/Day22/day22.go:100-112 | a non-negative number steps to a number in [0, 2^24) |
| Day22.IterateSnoc | 2024/Day22/day22.go:85-98 | iterating n + 1 times is one more step after iterating n times |
| Day22.IterateAdd | 2024/Day22/day22.go:85-98 | iterating a times and then b times is iterating a + b times |
| Day22.IterateRange | 2024/Day22/day22.go:85-98 | after one step or more a non-negative number lies in [0, 2^24); with no step it is unchanged |
| Day22.CalculateSecretNum | 2024/Day22/day22.go:85-98 | the result is the step applied exactly `times` times (the input itself when `times` is 0 or less); the cache stays valid, every entry mapping a number to its next one, and keeps its entries |
| Day22.PricesSpec | 2024/Day22/day22.go:57-80 | price i is the last digit of the secret number after i steps |
| Day22.PricesDigits | 2024/Day22/day22.go:57-80 | the prices of a non-negative secret number are digits 0 to 9 |
| Day22.FirstSeenKeys | 2024/Day22/day22.go:69-80 | the keys are exactly the windows of four consecutive price changes that occur |
| Day22.FirstSeenFirst | 2024/Day22/day22.go:77-80 | each window keeps the price at the end of its first occurrence |
| Day22.FirstPrices | 2024/Day22/day22.go:63-68 | the first loop makes four steps and collects the first five prices |
| Day22.FirstWindow | 2024/Day22/day22.go:69 | the first window is the only one among the first five prices |
| Day22.Slide | 2024/Day22/day22.go:72-80 | appending a price moves the window of the last five prices on by one, and the map of first occurrences gains the new window with that price only if the window was not seen before |
| Day22.Advance | 2024/Day22/day22.go:72-80 | one pass of the second loop keeps the window on the last five prices and the map on first occurrences |
| Day22.DetermineSequences | 2024/Day22/day22.go:57-82 | the map holds each window of the prices of the first `times` - 1 new numbers (4 when `times` is below 5) with the price of its first occurrence |
| Day23.MakeGraph | 2024/Day23/day23.go:111-124 | the graph is that of the lines read in order, each line appending its second name to the first's links and then its first name to the second's; None when a line has no dash |
| Day23.GraphStops | 2024/Day23/day23.go:115-117 | a line without a dash stops the program whatever lines follow |
| Day23.ConnectCounts | 2024/Day23/day23.go:118-119 | one line adds b to a's links once for each way round it names them, and changes no other count |
| Day23.GraphCounts | 2024/Day23/day23.go:111-124 | b occurs among a's links once for every line `a-b` and once for every line `b-a` |
| Day23.GraphSymmetric | 2024/Day23/day23.go:118-119 | the graph is symmetric: b is among a's links exactly as often as a is among b's |
| Day23.TriangleKey | 2024/Day23/day23.go:126-129 | the slice is sorted in place and the key is its names joined with commas |
| Sorting.SortStringsSpec | 2024/Day23/day23.go:127 | sorting gives a sorted permutation of the slice |
| Day23.KeyPermutation | 2024/Day23/day23.go:126-129 | any order of the same names gives the same key |
| Day23.KeyNames | 2024/Day23/day23.go:126-129 | for names without commas equal keys mean the same names, so a key stands for one set of computers |
| Day23.KeyOf | 2024/Day23/day23.go:35 | the key of a fresh slice holding the three names is their sorted, comma-joined form |
| Day23.Store | 2024/Day23/day23.go:35 | storing a found triangle adds exactly its key and keeps every entry a found triangle under its own key |
| Day23.AddThird | 2024/Day23/day23.go:31-37 | a third name adds the triangle's key exactly when it differs from the neighbour and the neighbour links to it |
| Day23.AddThirds | 2024/Day23/day23.go:31-37 | the innermost loop adds exactly the keys of the triangles it finds over the computer's links |
| Day23.AddNeighbours | 2024/Day23/day23.go:29-38 | the middle loop adds exactly the keys of the triangles found over the computer's neighbours |
| Day23.FindTriangles | 2024/Day23/day23.go:24-39 | in any map order the stored keys are exactly the keys of all found triangles, and each entry is a found triangle under its key |
| Day23.ThirdsSpec | 2024/Day23/day23.go:31-37 | the innermost loop finds only triangles that pass the test, and every one whose third name it visits |
| Day23.NeighboursSpec | 2024/Day23/day23.go:29-38 | the middle loop finds only triangles that pass the test, and every one whose neighbour it visits |
| Day23.AllTrianglesFound | 2024/Day23/day23.go:27-39 | the outer loop finds only triangles that pass the test, and every one whose first computer it visits |
| Day23.AllTrianglesSpec | 2024/Day23/day23.go:27-39 | run over every computer of the graph the loops find exactly its triangles |
| Day23.ScanTriangle | 2024/Day23/day23.go:46-53 | the scan of a triangle's names stops at the first name starting with `t`, and fails on an empty name reached first |
| Day23.ScanMeaning | 2024/Day23/day23.go:46-53 | the scan fails only on an empty name; with none it hits exactly when some name starts with `t` |
| Day23.WithTAdd | 2024/Day23/day23.go:44-54 | visiting one more triangle adds one to the count exactly when its scan hits |
| Day23.CountWithT | 2024/Day23/day23.go:41-54 | in any map order the count is the number of stored triangles whose scan hits; None exactly when some scan fails |
| Day23.LinkedPlain | 2024/Day23/day23.go:33 | in a graph of plain names every linked name is plain |
| Day23.FoundPlain | 2024/Day23/day23.go:31-37 | a found triangle's names come from the graph, so they are plain when the graph's are |
| Day23.WithTKey | 2024/Day23/day23.go:44-54 | a counted triangle's key is the key of a found triangle with a `t` name |
| Day23.TKeyScans | 2024/Day23/day23.go:44-54 | the triangle stored under the key of a found triangle with a `t` name is counted |
| Day23.WithTKeys | 2024/Day23/day23.go:20-58 | with plain names the counted keys are exactly the keys of the found triangles holding a `t` name |
| Day23.StoredDistinct | 2024/Day23/day23.go:22-35 | two stored triangles with the same names share one key, so each distinct triangle is counted once |
| Day23.Part1 | 2024/Day23/day23.go:20-58 | with plain names the answer is the number of distinct triangles holding a `t` name; it never exceeds the number of triangles; None only when a name is empty |
| Day23.IsFullyConnected | 2024/Day23/day23.go:102-109 | true exactly when every member lists the candidate, so true for an empty clique |
| Day23.GreedyUpTo | 2024/Day23/day23.go:70-77 | the clique grown from a computer starts with that computer |
| Day23.GrowClique | 2024/Day23/day23.go:70-77 | the clique grown from a computer adds, in link order, each link every member so far lists |
| Day23.GreedyPairwise | 2024/Day23/day23.go:70-77 | every later member of a grown clique is listed by every earlier one |
| Day23.GreedyLinks | 2024/Day23/day23.go:70-77 | every member after the computer is one of its links |
| Day23.BlockedGrows | 2024/Day23/day23.go:73-75 | a link blocked from a clique stays blocked when the clique grows |
| Day23.GreedyMaximal | 2024/Day23/day23.go:73-75 | every link the clique left out is missing from some member's links |
| Day23.LargestSpec | 2024/Day23/day23.go:80-82 | the kept clique is at least as large as every visited computer's; it is empty only before any visit and otherwise the first largest in visiting order |
| Day23.LargestClique | 2024/Day23/day23.go:67-83 | the outer loop keeps the clique of the visiting order's first largest |
| Day23.Part2 | 2024/Day23/day23.go:66-88 | the password is the first largest grown clique, for some order listing every computer once, sorted and joined with commas |
| Day23.LargestIsClique | 2024/Day23/day23.go:66-88 | in a graph built from links every two members of the kept clique list each other |
| Day23.Solve | 2024/Day23/day23.go:10-15 | None only when a line has no dash or a name is empty; with plain names part 1's answer is the number of triangles with a `t` name |
| Day24.EvalBits | 2024/Day24/day24.go:190-199 | on single bits AND, OR and XOR are the truth tables |
| Day24.EvalNonNegative | 2024/Day24/day24.go:190-199 | a gate with two known (non-negative) inputs gives a known output |
| Day24.FirstJoinSpec | 2024/Day24/day24.go:120-127 | the lookup returns the output of the first gate with these inputs, in either order, and this operation, or "" when no gate matches |
| Day24.FirstJoinSymmetric | 2024/Day24/day24.go:122 | naming the two inputs in the other order gives the same answer |
| Day24.FindGate | 2024/Day24/day24.go:120-127 | the scan returns exactly that first match, or "" |
| Day24.SwapTwice | 2024/Day24/day24.go:106-118 | swapping the same two outputs twice gives back every gate |
| Day24.SwapOutputWires | 2024/Day24/day24.go:106-118 | the new list has the same length, outputs a and b exchanged, and inputs, operations and every other output unchanged |
| Day24.PassDefers | 2024/Day24/day24.go:171-177 | a pass only defers gates it was given, never more of them than it was given |
| Day24.NoProgressRepeats | 2024/Day24/day24.go:170-181 | a pass that applies no gate leaves the wires and the gate list unchanged, so the loop repeats it for ever |
| Day24.PassKnown | 2024/Day24/day24.go:171-177 | a pass applies only gates whose inputs are both known, keeps known values known, and leaves every applied gate with a known output |
| Day24.SettleKnown | 2024/Day24/day24.go:167-182 | when the passes end, every gate given has a known output and no known wire became unknown |
| Day24.ClassifySplits | 2024/Day24/day24.go:134-140 | every gate goes to exactly one of the two lists: known inputs or not |
| Day24.ApplyAllKnown | 2024/Day24/day24.go:184-188 | gates whose inputs were known at the start all get known outputs |
| Day24.EvaluateKnown | 2024/Day24/day24.go:142-143 | once the known gates and then the deferred ones are processed, every gate's output is known |
| Day24.BinaryWeighted | 2024/Day24/day24.go:153-160 | the binary string has one digit per z-wire, the highest-numbered wire first, and its value is the sum of 2^i for each z-wire i that holds 1 |
| Day24.Part1Answer | 2024/Day24/day24.go:162 | the answer is that sum, 0 when there are no z-wires and the largest 64-bit integer when the sum does not fit |
| Day24.Circuit.ProcessGate | 2024/Day24/day24.go:190-199 | the output wire gets the gate's value and no other wire changes |
| Day24.Circuit.ProcessKnownGates | 2024/Day24/day24.go:184-188 | every gate is applied once, in order |
| Day24.Circuit.ProcessPass | 2024/Day24/day24.go:171-177 | ready gates are applied in order and the others kept, in order, for the next pass |
| Day24.Circuit.ProcessGates | 2024/Day24/day24.go:167-182 | passes run until no gate is left, and the result says when a pass would make no progress |
| Day24.Circuit.ParseData | 2024/Day24/day24.go:210-237 | the gates come back unchanged, and the wires are the initial values with every other gate-named wire marked -1 |
| Day24.LoadAllLast | 2024/Day24/day24.go:210-215 | a wire named on an initial-wire line holds the value of the last line that names it |
| Day24.LoadAllOthers | 2024/Day24/day24.go:210-215 | a wire no initial-wire line names is left as it was |
| Day24.MarkAllValues | 2024/Day24/day24.go:224-234 | marking keeps every value there was and gives -1 to every wire added |
| Day24.MarkAllNamed | 2024/Day24/day24.go:224-234 | the marked wires are the wires there were plus exactly those a gate names |
| Day24.ParsedMarks | 2024/Day24/day24.go:210-234 | after parsing every wire is known (non-negative) or marked -1 |
| Day24.Circuit.ZPositions | 2024/Day24/day24.go:145-150 | collects every wire whose name starts with 'z', each once, and fails exactly when a wire has the empty name |
| Day24.Circuit.Part1 | 2024/Day24/day24.go:129-165 | the circuit is evaluated; the z-wires are read in sorted order, the highest as the most significant bit; no answer when the evaluation would not end |
| Day24.RepairSound | 2024/Day24/day24.go:73-89 | swaps are recorded in pairs, so the list has even length, and after a finished repair every bit fits the adder pattern |
| Day24.WalkBits | 2024/Day24/day24.go:57-103 | one walk reports the first bit that breaks the adder pattern and the two outputs to swap, or that every bit up to 44 fits |
| Day24.CheckParallelAdders | 2024/Day24/day24.go:52-104 | the swaps recorded are those of the repeated walk-and-swap repair |
| Day24.Part2 | 2024/Day24/day24.go:35-40 | the answer is the swapped wires, sorted and joined with commas |
| Day6.HeadingOf | 2024/Day6/day6.go:9-13 | a character names a guard exactly when it is one of `^`, `V`, `<`, `>`, and then names the heading it shows |
| Day6.Move | 2024/Day6/day6.go:40-45 | every heading moves exactly one cell along one axis |
| Day6.Turn | 2024/Day6/day6.go:33-38 | a turn always changes the heading and rotates its move a quarter clockwise |
| Day6.FourTurns | 2024/Day6/day6.go:33-38 | four turns restore the heading and two or three never do |
| Day6.StepMoves | 2024/Day6/day6.go:126-142 | each move leaves the map exactly when the faced cell is off it, otherwise turns in place before a blocked cell or steps onto the free one ahead; a guard on the map stays on it |
| Day6.ObstacleInFrontTurns | 2024/Day6/day6.go:66-79 | `part1` turns exactly when `obstacleInFront` sees a '#' on the map ahead, and otherwise steps ahead, leaving the map exactly when that cell is off it |
| Day6.ObstacleIsWall | 2024/Day6/day6.go:136-141 | the extra obstacle of `causedLoop` acts exactly like a '#' written on that cell |
| Day6.IterInside | 2024/Day6/day6.go:74-78 | every state of a walk that starts on the map is on the map |
| Day6.RepeatNeverEscapes | 2024/Day6/day6.go:119-123 | once a (row, column, heading) state repeats, the guard never leaves the map |
| Day6.FindFromSpec | 2024/Day6/day6.go:158-167 | the scan returns the first guard in row-major order with the heading its character shows, and nothing when the floor has no guard |
| Day6.FindInitialPosition | 2024/Day6/day6.go:158-167 | the loop returns the scan's answer |
| Day6.FirstGuardInside | 2024/Day6/day6.go:158-167 | the guard found is on the map |
| Day6.CausedLoop | 2024/Day6/day6.go:113-144 | the result is true exactly when, with the extra obstacle, the guard never leaves the map; a floor without a guard gives false |
| Day6.Patrol | 2024/Day6/day6.go:116-143 | the loop over recorded states returns true exactly when the walk never leaves the map, and it ends because the states on the map are finite |
| Day6.StepInside | 2024/Day6/day6.go:135-142 | a move that stays on the map turns before a '#' or the extra obstacle and steps otherwise |
| Day6.FewStates | 2024/Day6/day6.go:116-124 | the recorded states are no more than the states on the map |
| Day6.VisitedNext | 2024/Day6/day6.go:74-78 | a move adds the guard's new cell to the visited cells, and nothing once it is off the map |
| Day6.VisitedBounds | 2024/Day6/day6.go:62-78 | every visited cell is on the map and after n moves there are at most n + 1 |
| Day6.Part1 | 2024/Day6/day6.go:52-85 | with no guard the answer is the error exit; otherwise, within the move budget, the answer is the number of distinct cells the guard stood on before its move off the map |
| Day6.FollowPath | 2024/Day6/day6.go:63-81 | the loop's hash set ends holding exactly the visited cells, and the loop stops right after the move off the map |
| Day6.Part2 | 2024/Day6/day6.go:88-109 | the count is the number of cells that are not '#' and where one extra obstacle keeps the guard on the map forever; an empty floor has no answer |
| Day6.TrapsNext | 2024/Day6/day6.go:94-105 | scanning one more cell adds it to the counted cells exactly when it is not '#' and traps the guard |
| GoInt.QuoExact | 2024/Day13/day13.go:51-55 | Go's `%` of an exact multiple is 0 and its `/` gives back the factor, whatever the signs |
| Day13.AcceptedDivides | 2024/Day13/day13.go:51-55 | a press count that lands exactly on the prize passes the x remainder test and its quotient is the B count |
| Day13.PressAccepted | 2024/Day13/day13.go:51-63 | for an A count in 0..100 the two remainder tests, the equal-quotient test and `bX >= 0` accept B count b exactly when xA*a+xB*b = xP, yA*a+yB*b = yP and b >= 0 |
| Day13.CheapestUpToSpec | 2024/Day13/day13.go:46-71 | after the attempts below n: the sentinels MaxInt64 and (-1,-1) remain exactly when none of them wins; otherwise the kept solution wins at the least cost of all wins so far, with the fewest A presses among equally cheap ones |
| Day13.SolveLinearCombinations | 2024/Day13/day13.go:45-73 | the loop over A counts 0..100 returns the cheapest win as `CheapestSpec` describes; it fails exactly when Go divides by zero (xB = 0, or yB = 0 once an x test passes) |
| Day13.CheapestSpec | 2024/Day13/day13.go:46-72 | the result is (MaxInt64, (-1,-1)) exactly when no A count in 0..100 wins; otherwise a win whose cost 3a+b is at most every win's cost, with the fewest A presses among equally cheap ones |
| Day13.Part1 | 2024/Day13/day13.go:28-40 | the sum, over the machines, of each one's cheapest cost, skipping machines whose cost is MaxInt64; fails exactly when a machine makes Go divide by zero |
| Day13.FeeSpec | 2024/Day13/day13.go:31-37 | a machine with no win adds nothing; one with wins adds the cost of one of them, at most the cost of any |
| Day13.TotalAppend | 2024/Day13/day13.go:31-37 | the part 1 total over two runs of machines is the sum of their totals |
| Day13.CaptureStops | 2024/Day13/day13.go:122-128 | once a numeral fails to parse the capture fails, whatever follows |
| Day13.CaptureOne | 2024/Day13/day13.go:123-127 | the six captured numerals of a match, parsed in order into xA, yA, xB, yB, xP, yP; fails when one is not a number |
| Day13.CaptureMachines | 2024/Day13/day13.go:115-131 | one machine per match, in the order of the matches; fails when a numeral does not parse |
| Day13.CaptureRender | 2024/Day13/day13.go:115-131 | capturing the matches printed from any machines gives those machines back, in order |
| Day13.Solve | 2024/Day13/day13.go:19-24 | `main`, part 1: the total of the captured machines; fails when a numeral does not parse or a machine divides by zero |
| Day14.WrapCoordinate | 2024/Day14/day14.go:121-122 | one coordinate of a move with p + v + size at least 0 lands in [0, size) at (p + v) mod size; with p + v + size below 0 Go's `%` leaves it in (-size, 0] |
| Day14.MoveRobotWraps | 2024/Day14/day14.go:120-127 | `moveRobot` keeps the velocity and, on each axis where p + v + size >= 0, puts the robot on the floor at (p + v) mod size |
| Day14.FastRobotLeaves | 2024/Day14/day14.go:121 | a robot at x = 0 with dx = -102 on the 101-wide floor lands at x = -1, off the floor |
| Day14.SimulateTravels | 2024/Day14/day14.go:53-56 | after n seconds a robot that starts on the floor with velocities no less than minus the size stands at (p + n v) mod size on each axis, still on the floor |
| Day14.Quadrant | 2024/Day14/day14.go:96-111 | a position counts in quadrant 1, 2, 3 or 4 exactly when it is left/right of the middle column and above/below the middle row within the floor, and in none otherwise; the middle column `wide/2` and row `tall/2` count nowhere |
| Day14.FindQuadrant | 2024/Day14/day14.go:95-116 | the loop returns, for each quadrant, the number of robots whose position counts in it |
| Day14.QuadrantsPartition | 2024/Day14/day14.go:100-112 | each robot counts in exactly one quadrant or none, so q1 + q2 + q3 + q4 <= the number of robots |
| Day14.MiddleCountsNowhere | 2024/Day14/day14.go:103-111 | adding a robot on the middle column or row changes no quadrant's count |
| Day14.MoveAll | 2024/Day14/day14.go:54-56 | one second overwrites every `robots[index]` in place with its moved robot |
| Day14.PrintGrid | 2024/Day14/day14.go:70-91 | printing the floor gets through exactly when `make` is given no negative size (`wide` only counts when `tall` is positive) and every robot's (x, y) lies in [0, wide) by [0, tall); otherwise Go panics |
| Day14.Run | 2024/Day14/day14.go:53-59 | the seconds loop, which prints the floor after every second, fails exactly when the frame after some second 1 to `seconds` cannot be printed; otherwise the array ends holding the robots after `seconds` moves |
| Day14.Part1 | 2024/Day14/day14.go:52-65 | an error exactly when a frame printed after some second 1 to `seconds` panics (none when `seconds` is negative); otherwise the robots are moved in place for `seconds` seconds and the answer is q1*q2*q3*q4 of where they end |
| Day14.TamePrinted | 2024/Day14/day14.go:53-59 | robots that start on the floor with velocities no less than minus the floor's size stay on it, so no frame of `part1` panics |
| Day14.FastRobotPanics | 2024/Day14/day14.go:57 | the single robot `p=0,0 v=-102,0` on the 101 by 103 floor is off it after the first second, so `part1` panics printing that frame |
| Day14.SafetyFactorBounds | 2024/Day14/day14.go:60-64 | the answer is at least 0, at most the fourth power of the number of robots, and 0 once a quadrant is empty |
| Day14.RobotDefined | 2024/Day14/day14.go:138-140 | a line gives a robot exactly when it holds at least four matches of `-?\d+` (Go otherwise indexes past the matches and panics) |
| Day14.GrabRobots | 2024/Day14/day14.go:132-144 | one robot per line, in order, from the line's first four numbers as x, y, dx, dy; fails when a line has fewer |
| Day14.RobotLineNumerals | 2024/Day14/day14.go:138-140 | the numbers found in `p=x,y v=dx,dy` are x, y, dx and dy, in that order |
| Day14.RobotLineRoundTrip | 2024/Day14/day14.go:132-144 | a robot's input line reads back as the same robot |
| Day14.Solve | 2024/Day14/day14.go:29-34 | reading the robots and running part 1 for 100 seconds on the 101 by 103 floor gives the safety factor of where they end; fails exactly when a line has fewer than four numbers or a frame printed after one of the 100 seconds has a robot off the floor |
| Day15.MoveItemOffGrid | 2024/Day15/day15.go:243-259 | `moveItem` on a chain of items that runs off the grid panics |
| Day15.MoveItemBlocked | 2024/Day15/day15.go:243-259 | on an empty or wall cell `moveItem` returns that symbol and changes nothing; on a chain ending at a wall it reports the wall and changes nothing |
| Day15.MoveItemPushes | 2024/Day15/day15.go:249-258 | on a chain of k items ending at an empty cell, every item moves one step along the move, the first cell becomes empty and no other cell changes |
| Day15.MoveItemFrame | 2024/Day15/day15.go:249-258 | `moveItem` changes no cell off the line from its start along the move |
| Day15.MoveItemCounts | 2024/Day15/day15.go:252-256 | `moveItem` keeps the number of cells holding each symbol |
| Day15.Warehouse.MoveItem | 2024/Day15/day15.go:243-259 | the recursive in-place method leaves the grid as `MoveItemSpec` says and returns its symbol; a panic or the endless zero move leaves the grid as it was |
| Day15.StepKeepsRobot | 2024/Day15/day15.go:56-64 | in a `part1` step the robot moves only when `moveItem` reports empty, stands on a robot cell afterwards, and every symbol keeps its count (so one robot stays one robot) |
| Day15.Warehouse.StepRobot | 2024/Day15/day15.go:56-64 | one loop iteration leaves the grid and the robot position that `Step` names |
| Day15.Warehouse.Part1 | 2024/Day15/day15.go:53-68 | the grid ends as `Walk` from the robot `findRobot` finds, and the answer is its GPS sum |
| Day15.Warehouse.CalculateGPS | 2024/Day15/day15.go:203-213 | the sum of 100*r + c over interior cells holding a box or a box's left half |
| Day15.GPSSet | 2024/Day15/day15.go:203-213 | writing one interior cell changes the GPS sum by that cell's weight before and after |
| Day15.DoubleRowCells | 2024/Day15/day15.go:215-233 | a doubled row is twice as long; a box becomes "[" "]", the robot becomes "@" ".", and every other cell is written twice |
| Day15.DoubleGrid | 2024/Day15/day15.go:215-233 | every row of the result is the doubled row |
| Day15.Warehouse.FindRobot | 2024/Day15/day15.go:261-270 | the first interior robot cell in row-major order, or (-1, -1) when there is none |
| Day15.FindRobotIsSpec | 2024/Day15/day15.go:261-270 | the scan's answer is the one function `FindRobotSpec` names |
| Day15.Warehouse.FindConnectedBoxes | 2024/Day15/day15.go:156-201 | a panic exactly when the start is off the grid or the search takes up a box with a cell in front of it off the grid (`Stuck`); otherwise the found boxes start with the box at start, hold no box twice, were each queued by an earlier one, and hold every box any of them queues |
| Day15.ConnectedNotStuck | 2024/Day15/day15.go:170-198 | a search that completes is never one that panics: every box it could take up is among the connected boxes, whose front cells are all on the grid |
| Day15.ConnectedIsLeast | 2024/Day15/day15.go:156-201 | the found boxes lie in every set that holds the start box and is closed under queuing: they are the boxes connected to the start and no more |
| Day15.ScheduleIsBoxes | 2024/Day15/day15.go:108-125 | grouping the boxes by row and sorting the rows visits every connected box and no other |
| Day15.ScheduleInOrder | 2024/Day15/day15.go:119-125 | the boxes are moved row by row, rows ascending when moving up and descending when moving down |
| Day15.Warehouse.MoveVerticalBoxes | 2024/Day15/day15.go:105-154 | all or nothing: the grid changes only when every box could move, and then it is the simulated grid after moving all boxes in the sorted order; a refusal or a panic leaves it as it was; a panic exactly when the box search panics or a push in the sorted order reads off the grid |
| Day15.SimulateCounts | 2024/Day15/day15.go:127-147 | moving the boxes keeps the number of cells holding each symbol |
| Day15.Warehouse.PushBox | 2024/Day15/day15.go:133-143 | one box moves only when both cells in front of it are empty, by pushing its left then its right cell |
| Day16.Moves | 2024/Day16/day16.go:20-27 | a step forward keeps the direction and moves one tile along one axis; each of the two rotations stays on the tile and turns to a different direction in 0..3 at a right angle |
| Day16.StepCost | 2024/Day16/day16.go:72-98 | a move on the spot is one of the two quarter turns and scores 1000; any other move is the step ahead onto an open tile, keeps the direction and scores 1 |
| Day16.Extend | 2024/Day16/day16.go:72-98 | a walk followed by one more move is a walk whose score grows by that move's weight |
| Day16.CostGrows | 2024/Day16/day16.go:72-98 | the score of a walk's prefix never decreases as the prefix grows |
| Day16.WalkDirections | 2024/Day16/day16.go:86-98 | every state of a walk from a direction in 0..3 faces a direction in 0..3 |
| Day16.Straight | 2024/Day16/day16.go:61-98 | a walk from an East-facing start that scores under 1000 has made no turn: its n-th state is n tiles East, still facing East, at score n |
| Day16.WalkInBox | 2024/Day16/day16.go:72-98 | every state of a walk from the start is the start or lies inside the grid, facing a direction in 0..3 |
| Day16.LeastExists | 2024/Day16/day16.go:161 | a non-empty queue holds an item that no other item undercuts, the one `heap.Pop` returns |
| Day16.FindPos | 2024/Day16/day16.go:187-199 | the first cell holding the mark in row-major order over `len(grid)` rows and `len(grid[0])` columns, or (-1,-1) when none does; an empty grid or a short row scanned before the mark is a panic |
| Day16.Found | 2024/Day16/day16.go:160-165 | the first item taken off the queue on the end tile carries the least score of any walk from the start to a state on the end tile |
| Day16.Drained | 2024/Day16/day16.go:160-184 | when the queue runs dry without reaching the end, no walk from the start reaches the end tile, so -1 is right |
| Day16.Dijkstra | 2024/Day16/day16.go:152-185 | the answer is the least score of a walk from the start, facing East, to any state on the end tile, or -1 exactly when no walk reaches it; it is given for every rectangular grid, and every state is expanded at most once |
| Day16.Part1 | 2024/Day16/day16.go:39-49 | `findPOS` finds the start and end marks and the answer is the least score between them, for every rectangular grid |
| Day16Paths.Relax | 2024/Day16/day16.go:76-83 | one relaxation: a lower score replaces the entry with count 1 and the mover as the only predecessor and is pushed; an equal score appends the mover when it is not yet listed and bumps the count; otherwise nothing changes; every other entry is untouched |
| Day16Paths.RelaxLowers | 2024/Day16/day16.go:76-83 | after a relaxation the target is scored no more than the offered score nor its old score, and when its score equals the offer the mover is among its predecessors |
| Day16Paths.RelaxKeeps | 2024/Day16/day16.go:76-97 | a relaxation never undoes an earlier one: an edge that was relaxed stays relaxed |
| Day16Paths.Move | 2024/Day16/day16.go:76-83 | one relaxation and its push keep the search invariant and leave the edge from the taken state to the target relaxed |
| Day16Paths.Explore | 2024/Day16/day16.go:72-98 | expanding a taken state relaxes its step ahead (when that tile is inside and not a wall) and both of its turns, keeping the search invariant; a short row under the step ahead is a panic, which only a non-rectangular grid can cause |
| Day16Paths.Expansion | 2024/Day16/day16.go:66-98 | a state taken off the queue at its current score is expanded, and the search makes progress |
| Day16Paths.Reach | 2024/Day16/day16.go:65-100 | once the queue is empty, every state of every walk from the start was taken off the queue at no more than that walk's score to it |
| Day16Paths.Finish | 2024/Day16/day16.go:65-100 | once the queue is empty, every score is paid by a walk from the start, every move out of a settled state is relaxed, and each predecessor is one move before its state |
| Day16Paths.MinPaths | 2024/Day16/day16.go:58-100 | the search ends with those tables for every rectangular grid |
| Day16Paths.MinCost | 2024/Day16/day16.go:108-115 | the least score among the four states on the end tile, or `math.MaxInt` when none is scored |
| Day16Paths.Trace | 2024/Day16/day16.go:134-150 | `backtrackHelper` adds a state whose score is at most the minimum (a missing entry reading 0) and follows its predecessors, so every predecessor of a visited state that fits is visited, every visited state fits, and nothing visited is forgotten |
| Day16Paths.Backtrack | 2024/Day16/day16.go:105-132 | the best end states are traced, the traced set is closed under fitting predecessors and only holds fitting states, and the answer set is exactly the tiles of the traced states |
| Day16Paths.Splice | 2024/Day16/day16.go:58-103 | a walk to any state of a second walk, followed by the rest of that walk, is a walk to the same end whose score trades the first part of the second walk's score for its own |
| Day16Paths.PrefixBest | 2024/Day16/day16.go:58-103 | every prefix of a best walk is a cheapest walk to its last state |
| Day16Paths.OnBest | 2024/Day16/day16.go:58-103 | after the search, each state of a best walk but the unseeded start is scored what the walk pays to reach it and lists the state before it as a predecessor |
| Day16Paths.Tracked | 2024/Day16/day16.go:58-103 | the scores and predecessors track every best walk, and no end state scores below it |
| Day16Paths.EndScore | 2024/Day16/day16.go:108-115 | the least score at the end equals the score of a best walk, and the best walk's last state carries it |
| Day16Paths.BestTraced | 2024/Day16/day16.go:105-150 | every state of a best walk but the unseeded start is traced back from the end |
| Day16Paths.BestTiles | 2024/Day16/day16.go:105-132 | the tile of every state of a best walk is among the answer's tiles, the start's only when the start is seeded |
| Day16Paths.FindAllMinPathsAndSpaces | 2024/Day16/day16.go:58-103 | for every rectangular grid the answer holds the tile of every state of every best walk, the start's only when the start is seeded |
| Day16Paths.DashBest | 2024/Day16/day16.go:58-103 | on the grid `S.E` the straight walk East is a best walk, of score 2 |
| Day16Paths.Reached | 2024/Day16/day16.go:65-100 | after the search, every state a walk from the start reaches in one move or more is scored |
| Day16Paths.StartDear | 2024/Day16/day16.go:61-63 | without the seed, every state on the start tile scores at least 1000, since only a walk that turns comes back to it |
| Day16Paths.StartMissed | 2024/Day16/day16.go:61-63 | on `S.E` with the start unseeded, as Go has it, the start tile is missing from the answer although a best walk begins on it |
| Day16Paths.Part2 | 2024/Day16/day16.go:39-56 | with the start seeded, the answer counts a set of tiles holding every tile of every best walk between the `S` and `E` marks, for every rectangular grid |
| Day25.CanUnlock | 2024/Day25/day25.go:28-37 | the key fits (true) exactly when it has a column for every lock column and every column's heights add up to at most 5; the check panics (None) exactly when the key is shorter and every column it has fits |
| Day25.FitsNoOverlap | 2024/Day25/day25.go:28-37 | for drawn heights in 0..5, a key fits exactly when no row of any column holds both a lock pin and a key pin |
| Day25.Part1 | 2024/Day25/day25.go:14-26 | the count of (lock, key) pairs that fit, each lock against each key, or None when a check panics |
| Day25.CombosBound | 2024/Day25/day25.go:14-26 | at most one count per pair: the count is at most locks times keys |
| Day25.ScanLock | 2024/Day25/day25.go:73-80 | a lock's column counts the '#' cells from row 1 downward up to the first '.', skipping other characters and ignoring the first and last rows; None when a row read is too short |
| Day25.ScanKey | 2024/Day25/day25.go:81-89 | a key's column counts the '#' cells from row rows-2 upward up to the first '.', the same way |
| Day25.ParseLockKey | 2024/Day25/day25.go:65-94 | one height per character of the first row, each its column's count; None for an empty schematic or a too-short row |
| Day25.HeightsBound | 2024/Day25/day25.go:70-92 | every height lies in 0..rows-2, one per column of the first row |
| Day25.ParseRender | 2024/Day25/day25.go:65-94 | a lock or key drawn from heights in 0..rows-2 is read back as those heights |
| Day25.IsLockRender | 2024/Day25/day25.go:56 | a drawn five-column lock has "#####" as its first row and is taken for a lock; a drawn key never is |
| Day25.ParseData | 2024/Day25/day25.go:39-63 | the lines cut into blocks at every empty line, the last block kept; a block is a lock when its first row without white space is "#####", otherwise a key; each read in order; None when a block is empty or a row too short |
| Day25.BlocksLayout | 2024/Day25/day25.go:43-53 | blocks without empty lines, laid out with an empty line between them, are cut back into the same blocks |
| Day25.ParseDataRoundTrip | 2024/Day25/day25.go:39-63 | the drawing of a list of five-column locks and keys with heights in 0..5 reads back as their heights, locks and keys apart, each in its order |
| Day18.Bfs | 2024/Day18/day18.go:90-135 | the answer is the number of steps of a shortest walk from the start to the end, each step to one of the four neighbours inside the grid and not corrupted; -1 exactly when no such walk reaches the end |
| Day18.Expand | 2024/Day18/day18.go:110-130 | after the four directions are tried, every open neighbour of the position taken off the queue is visited with at most one step more than it; the visited set only grows, and the queue is unchanged when nothing new was visited |
| Day18.Visit | 2024/Day18/day18.go:111-129 | one direction: a neighbour outside the grid, corrupted or visited is passed over; any other is marked visited and queued at the back with one more step, with a walk of that many steps to it |
| Day18.Pop | 2024/Day18/day18.go:101-103 | the front of the queue has the fewest steps of all queued positions, so taking it off keeps the queue ordered by steps, within one step of each other |
| Day18.Push | 2024/Day18/day18.go:127-129 | a new open neighbour is queued with one more step than the position it was reached from, keeping the queue ordered and every visited position paired with a walk of its steps |
| Day18.Revisit | 2024/Day18/day18.go:122-125 | a neighbour already visited was reached with at most one more step, so passing over it loses nothing |
| Day18.Frontier | 2024/Day18/day18.go:100-131 | every walk from the start either stays among the finished positions, with at least their steps, or meets a queued position with no more steps than its own length |
| Day18.Found | 2024/Day18/day18.go:105-107 | when the end is taken off the queue, its steps are those of a walk to it and no walk to it is shorter |
| Day18.Drained | 2024/Day18/day18.go:100-134 | when the queue runs dry without reaching the end, no walk reaches it |
| Day18.InArea | 2024/Day18/day18.go:113-116 | only the start and cells of the grid are ever visited, so the search ends |
| Day18.MoreCorruptedNoShorter | 2024/Day18/day18.go:90-135 | with more corrupted cells the end is reachable only if it was before, and in no fewer steps |
| Day18.StaysBlocked | 2024/Day18/day18.go:90-135 | once no walk reaches the end, more corrupted cells keep it so |
| Day18.Part1 | 2024/Day18/day18.go:42-53 | the fewest steps from (0, 0) to (row-1, col-1) with the first `bytes` coordinates corrupted; None exactly when there are fewer coordinates than `bytes` |
| Day18.CutStays | 2024/Day18/day18.go:62-75 | after the byte that cuts the way off, every later byte leaves it cut off, so the first such byte is a threshold |
| Day18.Part2 | 2024/Day18/day18.go:62-75 | the coordinate of the first byte after whose fall no walk reaches the corner, with the way open after every earlier byte; None exactly when the way stays open to the last byte |
| Day18.Solve | 2024/Day18/day18.go:27-32 | both parts on the 71 by 71 grid, part 1 after 0x400 bytes; None exactly when a line does not parse or there are fewer than 0x400 coordinates |
| Day18.CoordinateDefined | 2024/Day18/day18.go:150-154 | a line gives a coordinate exactly when it holds at least two matches of `-?\d+`; every match parses |
| Day18.Coordinates | 2024/Day18/day18.go:140-157 | one coordinate per line, the first two numbers of the line, in order; None exactly when some line has fewer than two numbers |
| Day18.ParseCoordinates | 2024/Day18/day18.go:140-157 | the loop computes the coordinates of every line in order, stopping with None at the first line without two numbers |
| Day18.CoordinateLineRoundTrip | 2024/Day18/day18.go:150-154 | the line `x,y` reads back as (x, y), negative numbers included |
| Day18.CoordinatesRoundTrip | 2024/Day18/day18.go:140-157 | a list of coordinates written one `x,y` per line reads back as the same list |

## Left out

- Reading the puzzle input, command-line parameters, printing and timing:
  each `part1`/`part2` returns its answer instead of printing it.
- Numerals beyond 64 bits: Go's `strconv.Atoi` returns a range error for
  them, upon which `util.ParseInt` stops the program and the solvers that
  ignore the error go on with the nearest 64-bit value. `Text.Atoi` and
  `Text.AtoiOrZero` read any run of digits as its unbounded value, so every
  parser built on them (days 1, 2, 5, 7, 11, 13, 14, 17, 18 and 21)
  answers where Go would stop or clamp.
- Day1: `part1` and `part2` compute one term per goroutine and add them up
  from a channel; the sum does not depend on the order, so the model adds
  them in a loop.
- Day1.Part1: Go converts each difference to `float64` for `math.Abs`; the
  model takes the exact absolute value, which agrees for differences below
  2^53. Numbers are unbounded, where Go's `int` would wrap past 64 bits.
- Day2: `part1` and `part2` run one goroutine per report and count the
  results over a channel; the model checks the reports one after the other,
  which gives the same count.
- ThreeBitComputer.Div: Go divides `float64(a)` by `math.Pow(2, k)` and
  truncates; the model takes the division as exact, which it is while
  `a` has at most 53 significant bits. For larger registers Go rounds `a`
  to a float first and the quotient can differ; this is not modelled.
- Day2.ReadAll: numbers are unbounded; for a numeral beyond 64 bits Go's
  Atoi returns the nearest 64-bit value with an error the solver ignores,
  which is not modelled.
- Day3: the regular expressions are modelled by what they find: the
  matches of the part 2 pattern are given as tokens, each `mul` carrying
  its two numerals, and the part 1 pattern's matches are taken to be the
  `mul` tokens among them (a `do()` or `don't()` can never overlap a
  `mul`). Joining the input lines is part of reading the file.
- Day3.Solve: assumes the numerals are one to three digits, as the
  pattern guarantees; for other tokens the ensures of `Day3.Part1` and
  `Day3.Part2` still give the sum that Go computes, as the products of the
  pairs read from the matches, or an error when a pair cannot be read.
- Day4.Part2: requires every row at least as long as the first; on other
  grids whether Go panics depends on the letters read, and that is not
  modelled. `Part1` models every grid.
- Day4.Part1: Go panics part-way through the scan at a row shorter than
  the first; the model answers None before scanning, which is the same
  outcome since nothing is printed before the panic.
- Day5: Go ranges over the maps of `topologicalSort` in an unspecified
  order; the model takes the two orders as parameters, one pair per update.
- Day5.TopologicalSort: does not state that every page is emitted when the
  rules among the update's pages have no cycle; it states that the result
  is `KahnSort`, Kahn's algorithm in the given map orders, and that what is
  emitted is in rule order, without repeats. The sorts of `SortAll`,
  `Part1` and `Part2` are pinned the same way.
- Day5.Part1: the goroutines and the results channel become one sequential
  loop, which gives the same sum because addition does not depend on the
  order; the sum is unbounded, so Go's 64-bit overflow is not modelled.
- Day5.Part2: as for Part1.
- Day6: grids whose rows differ in length; `inBounds` reads the column
  count from the first row only.
- Day6.Part1: takes a move budget and answers "still walking" when it runs
  out, because the Go loop never ends for a trapped guard.
- Day7: `part1` and `part2` run one goroutine per equation and sum over a
  channel; the model runs the equations one after the other, which gives the
  same sum. Sums, products and concatenations are unbounded, so Go's 64-bit
  overflow is not modelled.
- Day7: `util.ParseInt` is taken to exit on a string that is not a number,
  as the helper of the same name in package `until` does; package
  `util`'s helper is not modelled.
- Day8: Go ranges over the map of groups in an unspecified order; the
  model visits the keys in the order a listing of them gives and proves
  the result independent of that order.
- Day8: the import block of day8.go (line 4) misses a quote, so the file
  does not compile as written; the model takes it as importing `util`.
- Day8: Go's cells are one-character strings; here they are characters.
- Day8.Part2: requires each group to list distinct antennas, as
  `findAntennaPositions` builds them; for a repeated position Go's
  `expandAntidote` would walk with a zero step and never end.
- Day8.Part2Members: requires the antennas to lie within the bounds, which
  the grid's own bounds guarantee (OnGridMembers); under the transposed
  bounds as written a non-square grid can break it.
- Day10: `searchForTrailHead` runs one goroutine per trailhead and adds
  the scores from a channel; the model scores the trailheads one after the
  other, which gives the same sum.
- Day10.Bfs: requires single-digit heights, which `convertData` gives
  (`ConvertRoundTrip`); on other maps Go's search could continue past a 9.
  The Go queue (`container/list`) is a sequence taken off at the front and
  pushed at the back.
- Day11: the ten worker goroutines, the task and result channels, the
  wait group and the mutex of `part1` and `part2` become one sequential loop
  over the stones sharing one memo, which gives the same sum; the memo key
  `"stone,round"` is the pair (stone, round).
- Day11: counts are unbounded; Go's 64-bit `int` would wrap for counts of
  2^63 stones or more, and `stone*2024` on a very large stone.
- Day12: grids whose rows differ in length; the Go code reads the
  column count from the first row only.
- Day13: the regular expression that finds the machines in the joined
  input is not modelled; its matches are given as the whole text plus six
  numerals each. Part 2 (`solveLargerPrize`, `bigPrize`) is floating-point
  linear algebra and is left out.
- Day13.SolveLinearCombinations: integers are unbounded, so the 64-bit
  overflow Go would hit on products of inputs beyond about 2^62 is not
  modelled.
- Day14: `part2` prints 100000 frames for a person to look through; it is
  left out. What `printGrid` prints is left out too; `Day14.PrintGrid`
  models only whether it panics. `main` calls `part2` and has the
  `part1` call commented out; `Day14.Solve` models the `part1` path.
  The `-?\d+` pattern is modelled by `Text.SignedNumerals`.
- Day14.SimulateTravels: requires robots that start on the floor with
  velocities of at least minus the floor's size, as in the puzzle's input;
  for faster robots Go's `%` leaves the floor (`Day14.FastRobotLeaves`).
- Day14.Part1: requires a floor of non-zero width and height; on a zero-sized floor Go's
  `moveRobot` divides by zero as soon as a robot moves, which is not
  modelled.
- Day15: grids whose rows differ in length; `calculateGPS` and
  `doubleGrid` read the column count from the first row only, so a shorter
  row panics and a longer row has its extra cells skipped. The model takes
  rectangular grids.
- Day15: the `part2` step loop, which its author describes as not working;
  its building blocks `moveVerticalBoxes` and `findConnectedBoxes` are
  modelled.
- Day15.Warehouse.MoveVerticalBoxes: the simulated grid is an exact copy,
  which is what Go's row-by-row `copy` gives on a rectangular grid; ragged
  grids, where it truncates or pads rows, are not modelled.
- Day19: `part1` and `part2` hand designs to worker goroutines over
  channels; the model gives the per-design functions, whose results the
  workers only add up.
- Day19.Combinations: the counts are unbounded; Go's `int` would wrap past
  2^63 ways. With an empty pattern in the bank a design has endlessly many
  segmentations and the table doubles instead, so CombinationsCount
  assumes non-empty patterns.
- Day19: the split of the input into the pattern line and the designs is
  not modelled; CreateWordBank takes the lines as given.
- Day21: `parsedNum`'s regular expression is modelled by what it finds,
  the first maximal run of digits; `util.ParseInt` is taken to read such a
  run as its value, and numbers are unbounded.
- Day21: lengths count characters; Go's `len` counts bytes, which is the
  same on the ASCII codes of the puzzle. The line `part2` prints per code
  is left out.
- Day21.LengthNoShorter: holds only for strings of keys of one keypad; a
  string that mixes the keypads meets pairs missing from the table, whose
  empty path counts nothing.
- Day22: the secret numbers are unbounded; Go's 64-bit products wrap
  for numbers of 2^57 or more, which no step of a non-negative number below
  2^24 reaches.
- Day22: `part1` and `part2`, which sum and compare the results of the
  modelled functions over the input, are not part of this model.
- Day23: Go ranges over the graph map in an unspecified order; the model
  visits the computers in one order it does not fix, so part 1 is stated
  for every order and part 2 for some order listing every computer once.
  Reading the file and printing the answers are not modelled.
- Day23.Part1: the exact count is stated for graphs whose names are all
  non-empty and free of commas; with a comma in a name two different
  triangles can share a key and the count is only bounded by the number
  of triangles.
- Day23.Solve: part 1's exact count is stated, as for `Part1`, only for
  graphs with non-empty, comma-free names.
- Day24: the input lines are given as the groups the two line patterns
  match; a line matching neither, on which Go indexes a nil match and
  panics, is not modelled, and neither is the split at the blank line.
- Day24: a wire value too large for `util.ParseInt` is not modelled; the
  values are digit strings read as unbounded numbers.
- Day24.CheckParallelAdders: the Go loop has no bound on the number of
  swaps it makes; the model takes a bound and reports when it is reached.
  That the repair finds the puzzle's answer for a 45-bit adder is not
  stated.
- Day24.Circuit.Part1: when a pass of `processGates` applies no gate the
  Go program never ends; the model answers None.
- Day24.Circuit.ZPositions: Go ranges over the wires map in an unspecified
  order; the model picks one, and the list is sorted afterwards.
- Day25: the puzzle input is given as lines; reading the file and
  printing the count are not modelled.
- Day25: widths count characters; Go's `len(input[0])` counts bytes,
  which is the same on the ASCII schematics of the puzzle.
- Day20: the queue (`container/list`) is a sequence taken off at the front
  and pushed at the back; printing the answers is not modelled, each part
  returns what it prints, and `main` is `Solve`, which takes the grid.
- Day20.Distance: Go converts the differences to `float64`, takes
  `math.Abs` and converts the sum back; the model takes this as exact,
  which it is for differences below 2^53.
- Day18: the queue (`container/list`) is a sequence taken off at the front
  and pushed at the back; printing the answers is not modelled, each part
  returns what it prints, and `main` is `Solve`.

- Day16: `datastructure.PriorityQueue`, a `container/heap` over an
  indexed slice, is not part of this model; the queue is a multiset of
  items and a pop takes any item of least score, so every contract holds
  whichever tie the heap would break first.
- Day16: printing the answers, `addVisitedSpots` and `printGrid`, which
  only mark the grid for display, are not modelled; `main` finds the marks
  once, while Part1 and Part2 each find them from the grid.
- Day16: scores are unbounded integers; Go's `int` would wrap only past
  2^63, far beyond the score of any walk on a grid.
- Day16Paths.BestTiles: states that every tile of a best walk is in the
  answer; that the answer holds no other tile is not proved.
- Day16Paths.FindAllMinPathsAndSpaces: the same completeness only, and
  only for best walks scoring below `math.MaxInt`, the value `backtrack`
  starts its minimum from.
- Day16Paths.Part2: the same completeness only; it runs the search with
  the start seeded, where Go's `part2` leaves it unseeded (see Findings).

## Findings

| source | as written | input that shows it | evidently intended | confidence | as-written member | corrected member |
|---|---|---|---|---|---|---|
| 2024/Day9/day9.go:39-46 | `for left < right` with `left` = -1 when the disk has no free block indexes `input[-1]` | disk map "1": one block of file 0, `left` = -1, `right` = 0 | stop when no free block is left (`left != -1 && left < right`) | high, not executed | Day9.SingleFilePanics | Day9.CompactSorts |
| 2024/Day8/day8.go:57 | `withInBounds(x, y, len(grid), len(grid[0]))` bounds the column `x` by the number of rows and the row `y` by the row length; `expandAntidote` (line 102) does the same | the grid "aa.." / "....": the antinode (2, 0) is a cell of the grid and is not counted | `withInBounds(x, y, len(grid[0]), len(grid))` | high, not executed | Day8.TransposedBoundsMiss | Day8.SolveOnGrid |
| 2024/Day16/day16.go:61-64 | the start is pushed at score 0 but `cost` starts empty, so the start state is scored only when a walk turns back onto it, at 2000 or more, and `backtrackHelper` prunes it whenever the best score is lower | grid `S.E`: the best walk runs straight East at score 2 from the start tile, yet the start tile is missing and 2 tiles are counted, not 3 | seed `cost` with the start state at score 0 before the loop | high, not executed | Day16Paths.StartMissed | Day16Paths.BestTiles |
