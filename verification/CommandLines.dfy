/** What the host makes of any command line, not only of those the guest's helpers print: how it is
    split, which words are operands, how numbers are read, and that nothing else is written. */
module CommandLines {
  import opened Counting
  import opened Commands
  import opened CommandRoundTrip

  // ---- words ----

  predicate NotBlank(c: char) { c != ' ' }

  function Joined(words: seq<string>): string {
    if words == [] then "" else words[0] + Joined(words[1..])
  }

  lemma {:induction false} WordIsPlain(s: string)
    ensures ' ' !in s[..WordLength(s)] && (WordLength(s) < |s| ==> s[WordLength(s)] == ' ')
  {
    if s != "" && s[0] != ' ' {
      WordIsPlain(s[1..]);
      assert s[..WordLength(s)] == [s[0]] + s[1..][..WordLength(s[1..])];
    }
  }

  lemma AllNotBlank(w: string)
    requires ' ' !in w
    ensures Select(NotBlank, w) == w
  {
    SelectAll(NotBlank, w);
  }

  /** The words are plain, they are together the line without its blanks, and there are as many as
      there are places where one starts: after a blank, or at the start of the line. */
  lemma {:induction false} WordsAreTheLine(s: string)
    ensures forall w :: w in Words(s) ==> PlainWord(w)
    ensures Joined(Words(s)) == Select(NotBlank, s)
    ensures |Words(s)| == Starts(s, ' ')
    decreases |s|
  {
    if s != "" {
      if s[0] == ' ' {
        WordsAreTheLine(s[1..]);
        assert s == " " + s[1..];
        SelectAppend(NotBlank, " ", s[1..]);
        assert Select(NotBlank, " ") == "" by { SelectPush(NotBlank, "", ' '); assert "" + " " == " "; }
      } else {
        var n := WordLength(s);
        var w, rest := s[..n], s[n..];
        WordIsPlain(s);
        WordsAreTheLine(rest);
        assert s == w + rest;
        SelectAppend(NotBlank, w, rest);
        AllNotBlank(w);
        OneStart(w, rest, ' ');
        assert Words(s) == [w] + Words(rest) && ([w] + Words(rest))[1..] == Words(rest);
      }
    }
  }

  /** Where words start in `s`, if `before` comes before it. */
  function Starts(s: string, before: char): nat {
    if s == "" then 0 else (if s[0] != ' ' && before == ' ' then 1 else 0) + Starts(s[1..], s[0])
  }

  lemma {:induction false} NoStart(w: string, rest: string, before: char)
    requires ' ' !in w && before != ' ' && (rest == "" || rest[0] == ' ')
    ensures Starts(w + rest, before) == Starts(rest, ' ')
    decreases |w|
  {
    if w == "" {
      assert w + rest == rest;
    } else {
      assert (w + rest)[1..] == w[1..] + rest;
      NoStart(w[1..], rest, w[0]);
    }
  }

  lemma OneStart(w: string, rest: string, before: char)
    requires PlainWord(w) && before == ' ' && (rest == "" || rest[0] == ' ')
    ensures Starts(w + rest, before) == 1 + Starts(rest, ' ')
  {
    assert (w + rest)[1..] == w[1..] + rest && w[0] in w;
    NoStart(w[1..], rest, w[0]);
  }

  // ---- operands ----

  /** A word is an operand unless it begins with a dash and goes on. */
  predicate IsOperand(w: string) { w == "" || w == "-" || w[0] != '-' }

  lemma {:induction false} OperandsAreTheOthers(words: seq<string>)
    ensures Operands(words) == Select(IsOperand, words)
    decreases |words|
  {
    if words != [] {
      OperandsAreTheOthers(words[1..]);
      assert words == [words[0]] + words[1..];
      SelectAppend(IsOperand, [words[0]], words[1..]);
      assert [words[0]] == [] + [words[0]];
      SelectPush(IsOperand, [], words[0]);
    }
  }

  // ---- numbers ----

  /** A number ends at the first character that is not a digit of its base. */
  lemma {:induction false} ParseStops(digits: string, rest: string, b: nat, acc: nat)
    requires 2 <= b <= 16 && AllDigits(digits, b) && (rest == "" || DigitValue(rest[0]) >= b)
    ensures Parse(digits + rest, b, acc) == Parse(digits, b, acc)
    decreases |digits|
  {
    if digits == "" {
      assert digits + rest == rest;
    } else {
      assert (digits + rest)[1..] == digits[1..] + rest;
      ParseStops(digits[1..], rest, b, acc * b + DigitValue(digits[0]));
    }
  }

  /** Base 0: octal after a zero. */
  lemma OctalParses(digits: string)
    requires digits != "" && AllDigits(digits, 8)
    ensures Strtol("0" + digits) == Clamp(Parse(digits, 8, 0))
  {
    var s := "0" + digits;
    assert s[1..] == digits && DigitValue(digits[0]) < 8;
    assert Parse(s, 8, 0) == Parse(digits, 8, 0);
  }

  /** Hexadecimal after a zero and an x of either case. */
  lemma EitherCaseParses(digits: string, x: char)
    requires digits != "" && AllDigits(digits, 16) && (x == 'x' || x == 'X')
    ensures Strtol("0" + [x] + digits) == Clamp(Parse(digits, 16, 0))
  {
    var s := "0" + [x] + digits;
    assert s[2..] == digits && s[2] == digits[0];
  }

  /** Decimal otherwise, and a sign in front counts. */
  lemma SignedParses(digits: string)
    requires digits != "" && AllDigits(digits, 10) && digits[0] != '0'
    ensures Strtol("-" + digits) == Clamp(-(Parse(digits, 10, 0) as int))
    ensures Strtol("+" + digits) == Clamp(Parse(digits, 10, 0))
  {
    assert ("-" + digits)[1..] == digits && ("+" + digits)[1..] == digits;
  }

  /** `strtol` saturates at both ends of a `long`, and returns everything between as it is. */
  lemma ClampSaturates(x: int)
    ensures -0x8000_0000_0000_0000 <= Clamp(x) <= 0x7fff_ffff_ffff_ffff
    ensures -0x8000_0000_0000_0000 <= x <= 0x7fff_ffff_ffff_ffff ==> Clamp(x) == x
    ensures x > 0x7fff_ffff_ffff_ffff ==> Clamp(x) == 0x7fff_ffff_ffff_ffff
    ensures x < -0x8000_0000_0000_0000 ==> Clamp(x) == -0x8000_0000_0000_0000
  {
  }

  /** A `long` given as a `uint64_t` keeps its value, or is 2^64 more if negative. */
  lemma UnsignedOfLong(x: int)
    requires -0x8000_0000_0000_0000 <= x < 0x8000_0000_0000_0000
    ensures Unsigned(x) == if x >= 0 then x else x + 0x1_0000_0000_0000_0000
  {
  }

  // ---- what is not written ----

  /** The words of a gmm command: `trace`, and four operands of which the first is `gmm`. */
  predicate IsGmmLine(words: seq<string>) {
    && words != [] && words[0] == "trace"
    && var operands := Select(IsOperand, words[1..]);
       |operands| >= 4 && operands[0] == "gmm"
  }

  predicate Known(name: string) {
    name == "create" || name == "assign" || name == "delete" || name == "message" || name == "sync"
  }

  /** Any line: it brings an event to the stream exactly if it is a gmm command with one of the five
      names, and, for a message or a synchronisation, the mode is the detailed one. */
  lemma WrittenIff(cmd: string, mode: T.Mode)
    ensures Deliver(Receive(cmd), mode).Delivered?
            <==> IsGmmLine(Words(cmd))
                 && var name := Select(IsOperand, Words(cmd)[1..])[1];
                    Known(name) && ((name == "message" || name == "sync") ==> mode.Detailed?)
  {
    if Words(cmd) != [] { OperandsAreTheOthers(Words(cmd)[1..]); }
  }
}
