# Advent of Code 2019, days 1 to 3, modelled in Dafny

This project models three small Rust programs from Advent of Code 2019. Each
program reads its puzzle input from standard input and prints an answer. The
model keeps the computing step of each and drops the reading and printing.

- **Day 1, fuel** (`fuel.dfy`, module `Fuel`). `part1` adds `mass / 3 - 2`
  over all masses. `part2` adds, for every mass, the chain `f0 = mass / 3 - 2`,
  `f(k+1) = f(k) / 3 - 2` for as long as the terms stay positive. Rust's `/`
  on `i32` truncates toward zero, and `Fuel.Quot` models that. The formula
  does no clamping, so small masses count negatively in part 1. Each input
  line is given as the outcome of `parse::<i32>()`, an `Option<int>`. A line
  that does not parse makes both parts return no total.
- **Day 2, Intcode** (`intcode.dfy`, module `Intcode`). `part1` is a
  fetch-and-execute loop over a `Vec<usize>` that it mutates in place. It
  steps through positions 0, 4, 8, and so on. Opcode 1 adds and opcode 2
  multiplies. Any other opcode changes nothing. After each instruction the
  loop looks ahead at `input[pos + 4]`, and if that cell is 99 it reports
  `input[0]` and stops. The memory is an `array<nat>`. `Intcode.Run` is a
  functional semantics that also records when a Rust index panic would
  happen (`Crashed`). The in-place method `Intcode.Part1` requires a run
  that does not crash and is proved to end in exactly `Run`'s memory and
  output. `main` patches cells 1 and 2 before running.
- **Day 3, wire paths** (`wire_syntax.dfy` and `wires.dfy`, modules
  `WireSyntax` and `Wires`). `to_points` splits a line on `,`, parses each
  token with `parse_step`, and folds the moves with `Point::next` into a list
  of points that starts at the origin. `IndexedPoints::new` sorts the points
  after the first into a horizontal index `x` (Left and Right moves, keyed by
  `x`) and a vertical index `y` (Up and Down moves, keyed by `y`). Each entry
  carries the point's position in `path[1..]`, and `sort_by_axis` sorts both
  indexes by key. `find_sections` builds both indexes and returns an empty
  list: the intersection search is not written in this version of the
  program, and the model does not invent one. `IndexedPoints` is a class
  whose two `seq` fields the constructor and `SortByAxis` update.
  `str::split` and `str::parse::<u64>` are modelled directly on character
  sequences. The `u64` parser accepts one optional leading `+`, as Rust's
  parser does.

Panics in the source are preconditions in the model. These are the
`unwrap` on an empty or unparsable day 3 token, the `unreachable!()` arms,
`path[1..]` on an empty path, and out-of-range indexes in day 2.
`Wrappers` (`wrappers.dfy`) holds the `Option` and `Result` types. `Err`
stands for any `Box<dyn Error>`.

## Model

| member | source | states |
|---|---|---|
| `Fuel.Quot` | 2019/day1/src/main.rs:19 | Rust's truncating `/`: the remainder `a - q*d` lies in `[0, d)` for `a >= 0` and in `(-d, 0]` for `a < 0` |
| `Fuel.FuelFor` | 2019/day1/src/main.rs:19 | `mass / 3 - 2` is the `f` with `3(f+2) <= mass < 3(f+2) + 3` for non-negative masses, and it is smaller than every positive mass, so part 2's loop ends |
| `Fuel.ChainFuel` | 2019/day1/src/main.rs:29-33 | the sum of the iterated formula's terms before the first non-positive one is never negative, is 0 for a non-positive start, and is at least the start otherwise |
| `Fuel.MassFuel` | 2019/day1/src/main.rs:29-31 | a mass's part 2 contribution is `>= 0`, is 0 exactly when `mass / 3 - 2 <= 0`, and is at least `mass / 3 - 2` otherwise |
| `Fuel.Masses` | 2019/day1/src/main.rs:18 | the masses of fully parsed lines, one per line, in order |
| `Fuel.Part1` | 2019/day1/src/main.rs:15-23 | returns no total exactly when some line is not an `i32`, and otherwise the sum over all masses of `mass / 3 - 2` |
| `Fuel.FuelForMass` | 2019/day1/src/main.rs:29-33 | the inner `while` loop adds exactly `MassFuel(mass)` |
| `Fuel.Part2` | 2019/day1/src/main.rs:25-37 | returns no total exactly when some line is not an `i32`, and otherwise the sum over all masses of their fuel chains |
| `Fuel.MassesSnoc` | 2019/day1/src/main.rs:17-18 | reading one more parsed line appends its mass |
| `Fuel.ChainNotBelowSingle` | 2019/day1/src/main.rs:17-33 | part 2's total is never below part 1's for the same masses |
| `Fuel.TotalsAppend` | 2019/day1/src/main.rs:17-33 | both totals are sums: the total of concatenated inputs is the sum of the totals |
| `Fuel.SmallMasses` | 2019/day1/src/main.rs:19 | no clamping: mass 3 gives -1, mass 0 gives -2, and truncation gives -2 for mass -1 and -3 for mass -4; mass 3 adds nothing in part 2 |
| `Fuel.WorkedValues` | 2019/day1/src/main.rs:19-33 | masses 12 and 14 need 2, and mass 1969 needs 654 in part 1 and 966 in part 2 |
| `Intcode.Execute` | 2019/day2/src/main.rs:25-35 | opcode 1 stores `m[a] + m[b]` and opcode 2 stores `m[a] * m[b]` into `m[c]`; no other cell changes (none at all for other opcodes) and the length is kept |
| `Intcode.Part1` | 2019/day2/src/main.rs:22-42 | the in-place loop leaves exactly the memory `Run` computes and outputs `input[0]` at the halt (nothing on an empty memory) |
| `Intcode.Restore` | 2019/day2/src/main.rs:14-15 | cell 1 becomes 12 and cell 2 becomes 2; every other cell is unchanged |
| `Intcode.PatchAndRun` | 2019/day2/src/main.rs:14-17 | `main` after parsing: the patched memory is run by `part1` |
| `Intcode.RunKeepsLength` | 2019/day2/src/main.rs:24-39 | a run that does not panic never changes the length of memory |
| `Intcode.HaltPosition` | 2019/day2/src/main.rs:24-39 | a halt happens at a position `>=` the start with the same stride, and the look-ahead cell `at + 4` is in range and holds 99 after the write |
| `Intcode.NoCrashMeansHalt` | 2019/day2/src/main.rs:25-39 | a run from a position in range that does not panic must reach a 99 at some `pos + 4` |
| `Intcode.ExhaustedOnlyWhenEmpty` | 2019/day2/src/main.rs:24 | from position 0 the loop only runs out of positions on an empty memory |
| `Intcode.ExecutedInStride` | 2019/day2/src/main.rs:24 | the k-th executed instruction is at `pos + 4k`, and a halted run's last one is at the halt position |
| `Intcode.Examples` | 2019/day2/src/main.rs:22-42 | `1,0,0,0,99` halts with 2 in cell 0; `2,3,0,3,99` halts with 6 in cell 3; `1,0,0,0,0` panics; an empty memory runs no instruction |
| `WireSyntax.Split` | 2019/day3/src/main.rs:104 | `split(',')` yields one more piece than there are commas, and no piece holds a comma |
| `WireSyntax.JoinSplit` | 2019/day3/src/main.rs:104 | joining the pieces with commas gives back the line |
| `WireSyntax.SplitPiece` | 2019/day3/src/main.rs:104 | a comma-free text is one piece, and a comma ends the first piece |
| `WireSyntax.SplitJoin` | 2019/day3/src/main.rs:104 | splitting comma-free pieces joined with commas gives back the pieces |
| `WireSyntax.DigitValue` | 2019/day3/src/main.rs:145 | a decimal digit's value is below 10 |
| `WireSyntax.DigitChar` | 2019/day3/src/main.rs:145 | the digit character of a value below 10 reads back as that value |
| `WireSyntax.ToDecimal` | 2019/day3/src/main.rs:145 | the canonical text of a number is a non-empty digit string |
| `WireSyntax.ParseU64` | 2019/day3/src/main.rs:145 | `parse::<u64>` succeeds exactly on a non-empty ASCII digit run (after an optional `+`) whose value is at most `u64::MAX`, and returns that value |
| `WireSyntax.DecimalRoundTrip` | 2019/day3/src/main.rs:145 | reading a number's decimal text gives the number |
| `WireSyntax.ParseU64RoundTrip` | 2019/day3/src/main.rs:145 | every `u64`'s text parses back to it, with or without `+`; `u64::MAX + 1` is rejected |
| `WireSyntax.ParseU64Rejects` | 2019/day3/src/main.rs:145 | empty text, lone signs, `-1`, `++1` and ` 1` are errors |
| `WireSyntax.FromChr` | 2019/day3/src/main.rs:121-135 | succeeds exactly on `U`, `D`, `L`, `R` and never returns `Origin` |
| `WireSyntax.FromChrInverse` | 2019/day3/src/main.rs:121-135 | `U`, `D`, `L`, `R` decode to Up, Down, Left, Right and no other character decodes to any of them |
| `WireSyntax.ParseStep` | 2019/day3/src/main.rs:142-150 | on a non-empty token: success exactly when the first character is a direction and the rest parses as a `u64`, with that direction and distance |
| `WireSyntax.ParseStepRoundTrip` | 2019/day3/src/main.rs:142-150 | every move with a `u64` distance parses back from its canonical token |
| `WireSyntax.ParseStepRejects` | 2019/day3/src/main.rs:142-150 | `X5`, `R`, `R-5`, ` R5` and `r5` are errors, not panics |
| `Wires.Point.Next` | 2019/day3/src/main.rs:84-98 | `steps` grows by the distance, the direction is the move's, Left/Right change only `x` and Up/Down only `y` in the move's sense, and the Manhattan distance moved equals the distance |
| `Wires.NextAdditive` | 2019/day3/src/main.rs:84-98 | two moves in one direction equal one move of their summed length |
| `Wires.Walk` | 2019/day3/src/main.rs:101-110 | the fold has one point per move plus the origin point `{0, 0, Origin, 0}` first |
| `Wires.WalkPrefix` | 2019/day3/src/main.rs:104-107 | the walk of a prefix of the moves is a prefix of the walk |
| `Wires.WalkAt` | 2019/day3/src/main.rs:104-107 | each point after the first is `next` of its predecessor under the matching move |
| `Wires.WalkStepsAt` | 2019/day3/src/main.rs:89 | each point's `steps` is the total distance of the moves before it |
| `Wires.WalkShape` | 2019/day3/src/main.rs:102-107 | every point after index 0 is `next` of its predecessor and not `Origin`, and the last point's `steps` is the sum of all distances |
| `Wires.TotalDistancePrefix` | 2019/day3/src/main.rs:89 | a longer prefix of moves never has a smaller total distance |
| `Wires.StepsNondecreasing` | 2019/day3/src/main.rs:104-107 | `steps` never decreases along a path |
| `Wires.LineSteps` | 2019/day3/src/main.rs:104-105 | a well-formed line gives one move per comma-separated token, none toward `Origin` |
| `Wires.ToPoints` | 2019/day3/src/main.rs:101-110 | the pushed vector is the walk of the line's moves: origin first, one point more than tokens (commas + 2), last `steps` the sum of distances, and fit for `IndexedPoints::new` |
| `Wires.WalkIndexable` | 2019/day3/src/main.rs:28-41 | on `to_points` output, `path[1..]` exists and the `unreachable!()` arm is never taken |
| `Wires.IndexCount` | 2019/day3/src/main.rs:28-41 | the two indexes together have one entry per point of `path[1..]` |
| `Wires.HorizontalMembers` | 2019/day3/src/main.rs:31-35 | the horizontal index holds exactly `(path[i+1].x, i)` for the Left/Right points |
| `Wires.VerticalMembers` | 2019/day3/src/main.rs:31-38 | the vertical index holds exactly `(path[i+1].y, i)` for the Up/Down points |
| `Wires.IndexIncreasing` | 2019/day3/src/main.rs:31-41 | before sorting, positions strictly increase along each index, so no point is listed twice |
| `Wires.InsertByKey` | 2019/day3/src/main.rs:49-50 | inserting into a sorted index keeps it sorted and adds exactly that entry |
| `Wires.SortByKey` | 2019/day3/src/main.rs:49-50 | `sort_unstable_by_key` on the key `p.0` returns a permutation sorted ascending by key |
| `Wires.IndexedPoints.constructor` | 2019/day3/src/main.rs:28-46 | both indexes end sorted by key, and each is a permutation of its orientation's entries in path order |
| `Wires.IndexedPoints.SortByAxis` | 2019/day3/src/main.rs:48-51 | both fields end sorted by key, and each is a permutation of its old contents |
| `Wires.FindSections` | 2019/day3/src/main.rs:58-65 | after building both indexes, the result is the empty list |
| `Wires.AsI64` | 2019/day3/src/main.rs:92-95 | `distance as i64` keeps distances below `2^63` and makes larger ones negative |
| `Wires.NextAsWrittenAgrees` | 2019/day3/src/main.rs:84-98 | with the cast, `next` agrees with the unbounded model for every distance below `2^63` |
| `Wires.CastReversesMove` | 2019/day3/src/main.rs:92 | a Right move of distance `2^63` parses, but as written it moves the point `2^63` to the left |

## Findings

| source | as written | input that shows it | evidently intended | confidence | as-written member | corrected member |
|---|---|---|---|---|---|---|
| 2019/day3/src/main.rs:92-95 | `x + distance as i64` reinterprets distances of `2^63` or more as negative numbers | token `R9223372036854775808`: the point lands at `x = -2^63` while `steps` grows by `2^63` | move the point by `distance` in the move's direction, so that the Manhattan distance moved equals `distance` | not executed; follows from Rust's documented `as` semantics | `Wires.NextAsWritten` (shown by `Wires.CastReversesMove`) | `Wires.Point.Next` |

## Left out

- Reading standard input and every `println!`, including the debug dumps of day 3 and day 2's "malformed input" message. Day 2's printed answer is the output value of `Intcode.Part1`.
- Day 1 and day 2's text parsing (`lines`, `split`, `str::parse`). Day 1 takes one parse outcome per line, and day 2 takes the program as an array of numbers.
- Day 1's `main` running part 1 and then part 2. Both parts fail on the same lines, so the model states each part separately.
- Day 3's `parse_input` and `main`: the `lines()`/`trim()` iterator plumbing and the double call of `parse_input`.
- Any intersection, closest-distance or combined-steps computation. `find_sections` computes none in this program.
- Day 2's commented-out `part2`.
- Machine-integer overflow: `i32` sums in day 1, `usize` sums and products in day 2, and `u64` step sums and `i64` coordinate sums in day 3. All are unbounded integers here. The one exception is the `as i64` cast, which is modelled in `Wires.NextAsWritten` and reported under Findings.
- Wires.SortByKey: it is one fixed sorted permutation, while `sort_unstable_by_key` does not promise an order for equal keys. Only sortedness and the permutation are stated in the `IndexedPoints` contracts.
- `to_points` returns a `Result` that is always `Ok`, because every failure in it is a panic. `Wires.ToPoints` returns the vector itself.
- Error messages and `Box<dyn Error>` formatting. An error is the single `Err` (or `None`) variant.
