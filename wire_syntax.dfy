/** Day 3, the text of one wire: a line of comma-separated move tokens such as
    `R8,U5,L5,D3`. Each token is a direction letter followed by an unsigned
    decimal distance. */
module WireSyntax {
  import opened Wrappers

  /** The directions a path point can carry. `Origin` marks only the start of
      a path. No token decodes to it. */
  datatype Direction = Up | Down | Left | Right | Origin

  /** One parsed move token. */
  datatype Step = Step(direction: Direction, distance: nat)

  /** The largest `u64`. */
  const U64_MAX: nat := 0xFFFF_FFFF_FFFF_FFFF

  /** The number of occurrences of `c` in `s`. */
  function Count(s: string, c: char): nat
  {
    if |s| == 0 then 0 else (if s[0] == c then 1 else 0) + Count(s[1..], c)
  }

  /** `str::split(sep)`. It always yields at least one piece, possibly empty,
      and it yields one more piece than there are separators. No piece holds
      the separator. */
  function Split(s: string, sep: char): (pieces: seq<string>)
    ensures |pieces| == Count(s, sep) + 1
    ensures forall i :: 0 <= i < |pieces| ==> sep !in pieces[i]
  {
    if |s| == 0 then [[]]
    else
      var rest := Split(s[1..], sep);
      if s[0] == sep then [[]] + rest
      else [[s[0]] + rest[0]] + rest[1..]
  }

  /** Joins non-empty lists of pieces with `sep` in between. This is the
      inverse of `Split`. */
  function Join(pieces: seq<string>, sep: char): string
    requires |pieces| >= 1
  {
    if |pieces| == 1 then pieces[0] else pieces[0] + [sep] + Join(pieces[1..], sep)
  }

  /** Splitting and joining again gives back the line. */
  lemma {:induction false} JoinSplit(s: string, sep: char)
    ensures Join(Split(s, sep), sep) == s
  {
    if |s| > 0 {
      JoinSplit(s[1..], sep);
      var rest := Split(s[1..], sep);
      if s[0] != sep {
        if |rest| == 1 {
          assert Split(s, sep) == [[s[0]] + rest[0]];
        } else {
          assert Split(s, sep)[1..] == rest[1..];
        }
      } else {
        assert Split(s, sep)[1..] == rest;
      }
    }
  }

  /** A piece without the separator splits to itself, and a separator ends
      the first piece. */
  lemma {:induction false} SplitPiece(a: string, sep: char, b: string)
    requires sep !in a
    ensures Split(a, sep) == [a]
    ensures Split(a + [sep] + b, sep) == [a] + Split(b, sep)
  {
    if |a| > 0 {
      SplitPiece(a[1..], sep, b);
      assert (a + [sep] + b)[1..] == a[1..] + [sep] + b;
      assert [a[0]] + a[1..] == a;
    } else {
      assert a + [sep] + b == [sep] + b;
      assert ([sep] + b)[1..] == b;
    }
  }

  /** Joining pieces that hold no separator and splitting again gives back
      the pieces. */
  lemma {:induction false} SplitJoin(pieces: seq<string>, sep: char)
    requires |pieces| >= 1
    requires forall i :: 0 <= i < |pieces| ==> sep !in pieces[i]
    ensures Split(Join(pieces, sep), sep) == pieces
  {
    if |pieces| == 1 {
      SplitPiece(pieces[0], sep, []);
    } else {
      var rest := pieces[1..];
      assert forall i :: 0 <= i < |rest| ==> rest[i] == pieces[i + 1];
      SplitJoin(rest, sep);
      var tail := Join(rest, sep);
      assert Join(pieces, sep) == pieces[0] + [sep] + tail;
      SplitPiece(pieces[0], sep, tail);
      assert [pieces[0]] + rest == pieces;
    }
  }

  predicate IsDigit(c: char)
  {
    '0' <= c <= '9'
  }

  predicate AllDigits(s: string)
  {
    forall i :: 0 <= i < |s| ==> IsDigit(s[i])
  }

  function DigitValue(c: char): (v: nat)
    requires IsDigit(c)
    ensures v < 10
  {
    c as int - '0' as int
  }

  function DigitChar(v: nat): (c: char)
    requires v < 10
    ensures IsDigit(c) && DigitValue(c) == v
  {
    ('0' as int + v) as char
  }

  /** The value of a string of decimal digits, most significant first. */
  function DecimalValue(s: string): nat
    requires AllDigits(s)
  {
    if |s| == 0 then 0 else 10 * DecimalValue(s[..|s| - 1]) + DigitValue(s[|s| - 1])
  }

  /** The canonical decimal text of `n`: no sign and no leading zeros. */
  function ToDecimal(n: nat): (s: string)
    ensures |s| >= 1 && AllDigits(s)
  {
    if n < 10 then [DigitChar(n)] else ToDecimal(n / 10) + [DigitChar(n % 10)]
  }

  /** The digits `parse::<u64>` reads. An optional leading `+` is skipped. */
  function Magnitude(s: string): string
  {
    if |s| > 0 && s[0] == '+' then s[1..] else s
  }

  /** `str::parse::<u64>`. The text must be a non-empty run of ASCII digits,
      optionally after one `+`, whose value fits in 64 bits. Anything else is
      an error: an empty text, a lone sign, a `-`, any other character, or an
      overflow. */
  function ParseU64(s: string): (r: Result<nat>)
    ensures r.Ok? <==> |Magnitude(s)| > 0 && AllDigits(Magnitude(s)) && DecimalValue(Magnitude(s)) <= U64_MAX
    ensures r.Ok? ==> r.value <= U64_MAX
    ensures r.Ok? ==> r.value == DecimalValue(Magnitude(s))
  {
    var digits := Magnitude(s);
    if |digits| == 0 || !AllDigits(digits) then Err
    else
      var v := DecimalValue(digits);
      if v <= U64_MAX then Ok(v) else Err
  }

  /** Reading back a number's canonical text gives the number. */
  lemma {:induction false} DecimalRoundTrip(n: nat)
    ensures DecimalValue(ToDecimal(n)) == n
  {
    if n >= 10 {
      DecimalRoundTrip(n / 10);
      var s := ToDecimal(n);
      assert s[..|s| - 1] == ToDecimal(n / 10);
    }
  }

  /** `parse::<u64>` accepts the canonical text of every `u64`, with or
      without a leading `+`. It rejects the text of the first number past the
      range. */
  lemma ParseU64RoundTrip(n: nat)
    requires n <= U64_MAX
    ensures ParseU64(ToDecimal(n)) == Ok(n)
    ensures ParseU64("+" + ToDecimal(n)) == Ok(n)
    ensures ParseU64(ToDecimal(U64_MAX + 1)).Err?
  {
    DecimalRoundTrip(n);
    DecimalRoundTrip(U64_MAX + 1);
    assert ToDecimal(n)[0] != '+';
    assert ("+" + ToDecimal(n))[1..] == ToDecimal(n);
    assert ToDecimal(U64_MAX + 1)[0] != '+';
  }

  /** Texts `parse::<u64>` refuses: nothing, lone signs, negatives, a
      doubled sign and embedded spaces. */
  lemma ParseU64Rejects()
    ensures ParseU64("").Err? && ParseU64("+").Err? && ParseU64("-").Err?
    ensures ParseU64("-1").Err? && ParseU64("++1").Err? && ParseU64(" 1").Err?
  {
  }

  /** `Direction::from_chr`. */
  function FromChr(c: char): (r: Result<Direction>)
    ensures r.Ok? <==> c == 'U' || c == 'D' || c == 'L' || c == 'R'
    ensures r.Ok? ==> r.value != Origin
  {
    match c
    case 'U' => Ok(Up)
    case 'D' => Ok(Down)
    case 'L' => Ok(Left)
    case 'R' => Ok(Right)
    case _ => Err
  }

  /** The letter of a move direction. */
  function ToChr(d: Direction): char
    requires d != Origin
  {
    match d
    case Up => 'U'
    case Down => 'D'
    case Left => 'L'
    case Right => 'R'
  }

  /** `from_chr` and `ToChr` are inverse: each of the four letters stands
      for exactly one direction, and every direction but `Origin` has one. */
  lemma FromChrInverse(c: char, d: Direction)
    requires d != Origin
    ensures FromChr(ToChr(d)) == Ok(d)
    ensures FromChr(c) == Ok(d) <==> c == ToChr(d)
  {
  }

  /** `parse_step`. The token must not be empty: the first `unwrap` panics
      on an empty token. The first character must be a direction letter, and
      the rest must parse as a `u64`. */
  function ParseStep(token: string): (r: Result<Step>)
    requires |token| > 0
    ensures r.Ok? <==> FromChr(token[0]).Ok? && ParseU64(token[1..]).Ok?
    ensures r.Ok? ==> r.value.direction == FromChr(token[0]).value && r.value.direction != Origin
    ensures r.Ok? ==> r.value.distance == ParseU64(token[1..]).value && r.value.distance <= U64_MAX
  {
    match FromChr(token[0])
    case Err => Err
    case Ok(direction) =>
      match ParseU64(token[1..])
      case Err => Err
      case Ok(distance) => Ok(Step(direction, distance))
  }

  /** The canonical token of a move. */
  function ShowStep(step: Step): string
    requires step.direction != Origin
  {
    [ToChr(step.direction)] + ToDecimal(step.distance)
  }

  /** Every move with a `u64` distance survives printing and parsing. */
  lemma ParseStepRoundTrip(step: Step)
    requires step.direction != Origin && step.distance <= U64_MAX
    ensures ParseStep(ShowStep(step)) == Ok(step)
  {
    ParseU64RoundTrip(step.distance);
    assert ShowStep(step)[1..] == ToDecimal(step.distance);
  }

  /** Tokens that `parse_step` rejects without panicking. */
  lemma ParseStepRejects()
    ensures ParseStep("X5").Err? && ParseStep("R").Err? && ParseStep("R-5").Err?
    ensures ParseStep(" R5").Err? && ParseStep("r5").Err?
  {
  }
}
