/** Day 2: the Intcode machine of `part1`. It works in place on the program's
    memory, a `Vec<usize>` that it indexes but never resizes.

    An instruction at `pos` is the four cells `(op, a, b, c)`. Opcode 1 stores
    `mem[a] + mem[b]` into `mem[c]`, and opcode 2 stores `mem[a] * mem[b]`.
    Every other opcode changes nothing. After each instruction the machine
    looks ahead at `mem[pos + 4]`. If that cell holds 99, it stops and reports
    `mem[0]`. Otherwise it moves on to `pos + 4`. An index out of range is a
    Rust panic. */
module Intcode {
  import opened Wrappers

  /** How a run of the loop ends. `Halted` means the look-ahead saw 99 after
      the instruction at `at`. `Exhausted` means the loop ran out of
      positions. `Crashed` means an index was out of range. */
  datatype Outcome = Halted(memory: seq<nat>, at: nat) | Exhausted(memory: seq<nat>) | Crashed

  /** The two opcodes that write memory. */
  predicate IsArith(op: nat)
  {
    op == 1 || op == 2
  }

  /** The instruction at `pos` can be fetched, and if it is arithmetic, its
      three operand addresses are in range. Other opcodes read no operands. */
  predicate CanExecute(m: seq<nat>, pos: nat)
  {
    pos + 3 < |m| &&
    (IsArith(m[pos]) ==> m[pos + 1] < |m| && m[pos + 2] < |m| && m[pos + 3] < |m|)
  }

  /** The memory after executing the instruction at `pos`. At most the one
      cell `c` is written, and the length stays the same. */
  function Execute(m: seq<nat>, pos: nat): (m': seq<nat>)
    requires CanExecute(m, pos)
    ensures |m'| == |m|
    ensures m[pos] == 1 ==> m'[m[pos + 3]] == m[m[pos + 1]] + m[m[pos + 2]]
    ensures m[pos] == 2 ==> m'[m[pos + 3]] == m[m[pos + 1]] * m[m[pos + 2]]
    ensures forall i :: 0 <= i < |m| && (!IsArith(m[pos]) || i != m[pos + 3]) ==> m'[i] == m[i]
  {
    var a, b, c := m[pos + 1], m[pos + 2], m[pos + 3];
    if m[pos] == 1 then m[c := m[a] + m[b]]
    else if m[pos] == 2 then m[c := m[a] * m[b]]
    else m
  }

  /** The loop `for pos in (0..len).step_by(4)` from position `pos` on. */
  function Run(m: seq<nat>, pos: nat): Outcome
    decreases |m| - pos
  {
    if pos >= |m| then Exhausted(m)
    else if !CanExecute(m, pos) then Crashed
    else
      var m' := Execute(m, pos);
      if pos + 4 >= |m'| then Crashed
      else if m'[pos + 4] == 99 then Halted(m', pos)
      else Run(m', pos + 4)
  }

  /** The positions at which instructions run before the loop stops, crashes
      or runs out. */
  function Executed(m: seq<nat>, pos: nat): seq<nat>
    decreases |m| - pos
  {
    if pos >= |m| || !CanExecute(m, pos) then []
    else
      var m' := Execute(m, pos);
      if pos + 4 >= |m'| || m'[pos + 4] == 99 then [pos]
      else [pos] + Executed(m', pos + 4)
  }

  /** The value `part1` prints, if it prints one. */
  function Output(o: Outcome): Option<nat>
    requires !o.Crashed?
  {
    match o
    case Halted(m, _) => if |m| > 0 then Some(m[0]) else None
    case Exhausted(_) => None
  }

  /** `part1`, run in place. Its requires clause says that no index goes out
      of range. The memory afterwards is exactly what `Run` computes, and the
      output is `mem[0]` at the moment of the halt. */
  method Part1(mem: array<nat>) returns (output: Option<nat>)
    requires !Run(mem[..], 0).Crashed?
    modifies mem
    ensures !Run(old(mem[..]), 0).Crashed?
    ensures mem[..] == Run(old(mem[..]), 0).memory
    ensures output == Output(Run(old(mem[..]), 0))
  {
    var pos := 0;
    while pos < mem.Length
      invariant pos % 4 == 0
      invariant Run(mem[..], pos) == Run(old(mem[..]), 0)
      decreases mem.Length - pos
    {
      ghost var before := mem[..];
      var op, a, b, c := mem[pos], mem[pos + 1], mem[pos + 2], mem[pos + 3];
      if op == 1 {
        mem[c] := mem[a] + mem[b];
      } else if op == 2 {
        mem[c] := mem[a] * mem[b];
      }
      assert mem[..] == Execute(before, pos);
      if mem[pos + 4] == 99 {
        output := Some(mem[0]);
        return;
      }
      pos := pos + 4;
    }
    output := None;
  }

  /** The two patches in `main`: cell 1 becomes 12 and cell 2 becomes 2.
      Every other cell keeps its value. */
  method Restore(mem: array<nat>)
    requires mem.Length >= 3
    modifies mem
    ensures mem[..] == old(mem[..])[1 := 12][2 := 2]
  {
    mem[1] := 12;
    mem[2] := 2;
  }

  /** `main` without its input parsing: patch the memory, then run it. */
  method PatchAndRun(mem: array<nat>) returns (output: Option<nat>)
    requires mem.Length >= 3
    requires !Run(mem[..][1 := 12][2 := 2], 0).Crashed?
    modifies mem
    ensures !Run(old(mem[..])[1 := 12][2 := 2], 0).Crashed?
    ensures mem[..] == Run(old(mem[..])[1 := 12][2 := 2], 0).memory
    ensures output == Output(Run(old(mem[..])[1 := 12][2 := 2], 0))
  {
    Restore(mem);
    output := Part1(mem);
  }

  /** A run does not change the length of memory. */
  lemma {:induction false} RunKeepsLength(m: seq<nat>, pos: nat)
    requires !Run(m, pos).Crashed?
    ensures |Run(m, pos).memory| == |m|
    decreases |m| - pos
  {
    if pos < |m| {
      var m' := Execute(m, pos);
      if m'[pos + 4] != 99 {
        RunKeepsLength(m', pos + 4);
      }
    }
  }

  /** A halt happens at an instruction position of the same stride as the
      start, no earlier than the start. The look-ahead cell holds 99 in the
      final memory and lies inside it. */
  lemma {:induction false} HaltPosition(m: seq<nat>, pos: nat)
    requires Run(m, pos).Halted?
    ensures pos <= Run(m, pos).at && Run(m, pos).at % 4 == pos % 4
    ensures Run(m, pos).at + 4 < |Run(m, pos).memory|
    ensures Run(m, pos).memory[Run(m, pos).at + 4] == 99
    decreases |m| - pos
  {
    var m' := Execute(m, pos);
    if m'[pos + 4] != 99 {
      HaltPosition(m', pos + 4);
    }
  }

  /** A run that does not crash halts on a 99, except on an empty memory,
      where the loop body never runs. So a run that does not panic must find
      a 99 at some `pos + 4` before the positions run out. */
  lemma {:induction false} NoCrashMeansHalt(m: seq<nat>, pos: nat)
    requires pos < |m|
    requires !Run(m, pos).Crashed?
    ensures Run(m, pos).Halted?
    decreases |m| - pos
  {
    var m' := Execute(m, pos);
    if m'[pos + 4] != 99 {
      NoCrashMeansHalt(m', pos + 4);
    }
  }

  /** From position 0 the loop runs out of positions only on an empty memory.
      A non-empty memory either halts or crashes. */
  lemma ExhaustedOnlyWhenEmpty(m: seq<nat>)
    ensures Run(m, 0).Exhausted? <==> |m| == 0
  {
    if |m| > 0 && !Run(m, 0).Crashed? {
      NoCrashMeansHalt(m, 0);
    }
  }

  /** Instructions run at `pos`, `pos + 4`, `pos + 8`, ... and a halted run's
      last instruction is at the halt position. */
  lemma {:induction false} ExecutedInStride(m: seq<nat>, pos: nat)
    ensures forall k :: 0 <= k < |Executed(m, pos)| ==> Executed(m, pos)[k] == pos + 4 * k
    ensures Run(m, pos).Halted? ==>
              |Executed(m, pos)| > 0 && Executed(m, pos)[|Executed(m, pos)| - 1] == Run(m, pos).at
    decreases |m| - pos
  {
    if pos < |m| && CanExecute(m, pos) {
      var m' := Execute(m, pos);
      if pos + 4 < |m'| && m'[pos + 4] != 99 {
        ExecutedInStride(m', pos + 4);
        var rest := Executed(m', pos + 4);
        assert Executed(m, pos) == [pos] + rest;
        forall k | 0 <= k < |Executed(m, pos)|
          ensures Executed(m, pos)[k] == pos + 4 * k
        {
          if k > 0 {
            assert Executed(m, pos)[k] == rest[k - 1];
          }
        }
      }
    }
  }

  /** Two small programs. `1,0,0,0,99` adds cell 0 to itself. `2,3,0,3,99`
      computes 3 * 2 into cell 3. A program whose first look-ahead is not 99
      and whose positions then run out crashes. */
  lemma Examples()
    ensures Run([1, 0, 0, 0, 99], 0) == Halted([2, 0, 0, 0, 99], 0)
    ensures Run([2, 3, 0, 3, 99], 0) == Halted([2, 3, 0, 6, 99], 0)
    ensures Run([1, 0, 0, 0, 0], 0) == Crashed
    ensures Run([], 0) == Exhausted([])
  {
  }
}
