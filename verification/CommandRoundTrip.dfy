/** Printing in the guest and decoding on the host: exactly when a command survives. */
module CommandRoundTrip {
  import opened Commands

  // ---- numbers ----

  predicate AllDigits(s: string, b: nat) {
    forall i :: 0 <= i < |s| ==> DigitValue(s[i]) < b
  }

  lemma {:induction false} ParsePush(s: string, c: char, b: nat, acc: nat)
    requires 2 <= b <= 16 && AllDigits(s, b) && DigitValue(c) < b
    ensures Parse(s + [c], b, acc) == Parse(s, b, acc) * b + DigitValue(c)
  {
    if s == "" {
      assert [c][1..] == "";
    } else {
      assert (s + [c])[1..] == s[1..] + [c];
      ParsePush(s[1..], c, b, acc * b + DigitValue(s[0]));
    }
  }

  lemma DigitCharValue(d: nat)
    requires d < 16
    ensures DigitValue(DigitChar(d)) == d
  {
  }

  /** Parsing printed digits gives the number back. */
  lemma {:induction false} ParseDigits(v: nat, b: nat)
    requires Radix(b)
    ensures AllDigits(Digits(v, b), b) && Parse(Digits(v, b), b, 0) == v
  {
    if v < b {
      DigitCharValue(v);
      ParsePush("", DigitChar(v), b, 0);
      assert "" + [DigitChar(v)] == [DigitChar(v)];
    } else {
      var q, r := OtherDigits(v, b), LastDigit(v, b);
      ParseDigits(q, b);
      DigitCharValue(r);
      ParsePush(Digits(q, b), DigitChar(r), b, 0);
      Recompose(v, b);
    }
  }

  lemma Recompose(v: nat, b: nat)
    requires Radix(b)
    ensures OtherDigits(v, b) * b + LastDigit(v, b) == v
  {
    if b == 10 {
      assert v / 10 * 10 + v % 10 == v;
    } else {
      assert v / 16 * 16 + v % 16 == v;
    }
  }

  /** No leading zero, so base-0 detection never takes a printed decimal for octal. */
  lemma {:induction false} LeadingDigit(v: nat, b: nat)
    requires Radix(b) && v > 0
    ensures Digits(v, b)[0] != '0'
  {
    if v >= b { LeadingDigit(OtherDigits(v, b), b); }
  }

  function Power(b: nat, n: nat): nat {
    if n == 0 then 1 else b * Power(b, n - 1)
  }

  lemma {:induction false} DigitsAreShort(v: nat, b: nat, n: nat)
    requires Radix(b) && n > 0 && v < Power(b, n)
    ensures |Digits(v, b)| <= n
  {
    if v >= b {
      OneDigitLess(v, b, n);
      DigitsAreShort(OtherDigits(v, b), b, n - 1);
    }
  }

  lemma OneDigitLess(v: nat, b: nat, n: nat)
    requires Radix(b) && n > 0 && b <= v < Power(b, n)
    ensures n > 1 && OtherDigits(v, b) < Power(b, n - 1)
  {
    assert Power(b, n) == b * Power(b, n - 1) && Power(b, 0) == 1;
  }

  lemma Powers()
    ensures Power(16, 16) == 0x1_0000_0000_0000_0000 && Power(16, 11) == 0x1000_0000_0000
    ensures Power(10, 10) == 10_000_000_000
  {
    assert Power(16, 4) == 0x1_0000;
    assert Power(16, 8) == 0x1_0000_0000;
    assert Power(16, 11) == 0x1000_0000_0000;
    assert Power(16, 14) == 0x100_0000_0000_0000;
    assert Power(10, 5) == 100_000;
  }

  /** A 64-bit number has at most 16 hexadecimal digits. */
  lemma WordDigits(v: nat)
    requires v < 0x1_0000_0000_0000_0000
    ensures |Digits(v, 16)| <= 16
  {
    Powers();
    DigitsAreShort(v, 16, 16);
  }

  /** Cutting digits off the end makes the number smaller. */
  lemma {:induction false} CutDigits(v: nat, k: nat)
    requires 0 < k < |Digits(v, 16)|
    ensures Parse(Digits(v, 16)[..k], 16, 0) < v
  {
    var q := OtherDigits(v, 16);
    var s := Digits(q, 16);
    assert Digits(v, 16) == s + [DigitChar(LastDigit(v, 16))];
    if k == |s| {
      assert Digits(v, 16)[..k] == s;
      ParseDigits(q, 16);
    } else {
      assert Digits(v, 16)[..k] == s[..k];
      CutDigits(q, k);
    }
  }

  // ---- strtol on what the guest prints ----

  lemma HexParses(digits: string)
    requires digits != "" && AllDigits(digits, 16)
    ensures Strtol("0x" + digits) == Clamp(Parse(digits, 16, 0))
  {
    var s := "0x" + digits;
    assert s[2..] == digits && s[2] == digits[0];
  }

  /** `(nil)` has no digits to convert. */
  lemma NoDigits(s: string)
    requires s != "" && DigitValue(s[0]) == 99 && s[0] != '-' && s[0] != '+'
    ensures Strtol(s) == 0
  {
    assert s[0] != '0';
    assert Parse(s, 10, 0) == 0;
  }

  lemma PointerParses(v: nat)
    ensures Strtol(Pointer(v)) == Clamp(v)
  {
    if v == 0 {
      var s := Pointer(v);
      assert s == "(nil)";
      NoDigits(s);
    } else {
      ParseDigits(v, 16);
      HexParses(Digits(v, 16));
    }
  }

  lemma DecimalParses(i: nat)
    ensures Strtol(Decimal(i)) == Clamp(i)
  {
    var s := Digits(i, 10);
    ParseDigits(i, 10);
    assert DigitValue(s[0]) < 10;
    if i == 0 {
      assert s[0] == '0' && s[1..] == "";
      assert Parse(s, 8, 0) == Parse(s[1..], 8, 0);
    } else {
      LeadingDigit(i, 10);
    }
  }

  lemma ZeroParses()
    ensures Strtol("0") == 0 && PlainWord("0") && "0"[0] != '-'
  {
    DecimalParses(0);
    assert Decimal(0) == "0";
  }

  /** A 64-bit value survives `strtol` exactly below 2^63. */
  lemma ClampSurvives(v: nat)
    requires v < 0x1_0000_0000_0000_0000
    ensures Unsigned(Clamp(v)) == v <==> v < 0x8000_0000_0000_0000
  {
  }

  // ---- splitting ----

  lemma {:induction false} WordEnds(w: string, rest: string)
    requires ' ' !in w
    ensures WordLength(w + " " + rest) == |w| && WordLength(w) == |w|
  {
    if w != "" {
      assert (w + " " + rest)[1..] == w[1..] + " " + rest;
      WordEnds(w[1..], rest);
    }
  }

  lemma FirstWord(w: string, rest: string)
    requires PlainWord(w)
    ensures Words(w + " " + rest) == [w] + Words(rest)
  {
    var s := w + " " + rest;
    WordEnds(w, rest);
    assert s[0] == w[0] && w[0] in w;
    assert s[..|w|] == w && s[|w|..] == " " + rest;
    assert (" " + rest)[1..] == rest;
  }

  lemma OnlyWord(w: string)
    requires PlainWord(w)
    ensures Words(w) == [w]
  {
    WordEnds(w, "");
    assert w[0] in w;
    assert w[..|w|] == w && w[|w|..] == "";
  }

  /** The text of a gmm command with two arguments. */
  function GmmText(c: string, a: string, b: string): string {
    "trace gmm " + c + " " + a + " " + b
  }

  lemma Regroup(p: string, c: string, a: string, b: string)
    ensures p + c + " " + a + " " + b == p + (c + " " + (a + " " + b))
  {
  }

  lemma RegroupPrefix(r: string)
    ensures "trace gmm " + r == "trace" + " " + ("gmm" + " " + r)
  {
    assert "trace gmm " == "trace" + " " + "gmm" + " ";
  }

  lemma FiveWords(c: string, a: string, b: string)
    requires PlainWord(c) && PlainWord(a) && PlainWord(b)
    ensures Words(GmmText(c, a, b)) == ["trace", "gmm"] + [c, a, b]
  {
    var s3 := a + " " + b;
    var s2 := c + " " + s3;
    Regroup("trace gmm ", c, a, b);
    RegroupPrefix(s2);
    FirstWord("trace", "gmm" + " " + s2);
    FirstWord("gmm", s2);
    FirstWord(c, s3);
    FirstWord(a, b);
    OnlyWord(b);
  }

  lemma FourOperands(c: string, a: string, b: string)
    requires !IsOption(c) && !IsOption(a) && !IsOption(b)
    ensures Operands(["gmm", c, a, b]) == ["gmm", c, a, b]
  {
    var r1, r2, r3 := [c, a, b], [a, b], [b];
    assert ["gmm", c, a, b][1..] == r1 && r1[1..] == r2 && r2[1..] == r3 && r3[1..] == [];
    assert Operands(r3) == [b];
    assert Operands(r2) == [a, b];
    assert Operands(r1) == [c, a, b];
  }

  /** A command with two plain arguments is decoded from them. */
  lemma GmmDecodes(c: string, a: string, b: string)
    requires PlainWord(c) && PlainWord(a) && PlainWord(b) && c[0] != '-' && a[0] != '-' && b[0] != '-'
    ensures Receive(GmmText(c, a, b)) == Gmm(c, Unsigned(Strtol(a)), Unsigned(Strtol(b)))
  {
    FiveWords(c, a, b);
    FourOperands(c, a, b);
    var words := ["trace", "gmm"] + [c, a, b];
    assert words[1..] == ["gmm", c, a, b];
  }

  /** A last argument that looks like an option is taken for one, and is missed. */
  lemma OptionIsMissed(c: string, a: string, b: string)
    requires PlainWord(c) && PlainWord(a) && PlainWord(b) && c[0] != '-' && a[0] != '-' && IsOption(b)
    ensures Receive(GmmText(c, a, b)) == MissingArgument
  {
    FiveWords(c, a, b);
    var words := ["trace", "gmm"] + [c, a, b];
    var r1, r2, r3 := [c, a, b], [a, b], [b];
    assert words[1..] == ["gmm"] + r1;
    assert (["gmm"] + r1)[1..] == r1 && r1[1..] == r2 && r2[1..] == r3 && r3[1..] == [];
    assert Operands(r3) == [];
    assert Operands(r2) == [a];
    assert Operands(r1) == [c, a];
  }

  /** When a hexadecimal last argument is cut off, a smaller one arrives. */
  lemma CutArgument(c: string, a: string, v: nat)
    requires PlainWord(c) && PlainWord(a) && c[0] != '-' && a[0] != '-' && v < 0x1_0000_0000_0000_0000
    requires |GmmText(c, a, "0x")| < 49 < |GmmText(c, a, "0x" + Digits(v, 16))|
    ensures var d := Receive(Fit(GmmText(c, a, "0x" + Digits(v, 16)))); d.Gmm? && d.command == c && d.arg < v
  {
    var digits := Digits(v, 16);
    var k := 49 - |GmmText(c, a, "0x")|;
    CutText(c, a, digits, k);
    CutWord(v, k);
    SmallerArrives(c, a, "0x" + digits[..k], v);
  }

  lemma SmallerArrives(c: string, a: string, b: string, v: nat)
    requires PlainWord(c) && PlainWord(a) && PlainWord(b) && c[0] != '-' && a[0] != '-' && b[0] != '-'
    requires 0 <= Strtol(b) < v < 0x1_0000_0000_0000_0000
    ensures var d := Receive(GmmText(c, a, b)); d.Gmm? && d.command == c && d.arg < v
  {
    GmmDecodes(c, a, b);
  }

  lemma CutWord(v: nat, k: nat)
    requires 0 < k < |Digits(v, 16)| && v < 0x1_0000_0000_0000_0000
    ensures var w := "0x" + Digits(v, 16)[..k]; PlainWord(w) && 0 <= Strtol(w) < v
  {
    var digits := Digits(v, 16);
    ParseDigits(v, 16);
    HexIsClean(v);
    assert forall c :: c in "0x" + digits[..k] ==> c in "0x" + digits;
    CutAllDigits(digits, k);
    HexParses(digits[..k]);
    CutDigits(v, k);
  }

  lemma CutAllDigits(s: string, k: nat)
    requires AllDigits(s, 16) && 0 < k < |s|
    ensures AllDigits(s[..k], 16) && s[..k] != ""
  {
  }

  lemma CutText(c: string, a: string, digits: string, k: nat)
    requires k < |digits| && |GmmText(c, a, "0x")| + k == 49
    ensures Fit(GmmText(c, a, "0x" + digits)) == GmmText(c, a, "0x" + digits[..k])
  {
    var p := "trace gmm " + c + " " + a + " ";
    CutAfter(p + "0x", digits, k);
    assert p + ("0x" + digits) == p + "0x" + digits;
    assert p + ("0x" + digits[..k]) == p + "0x" + digits[..k];
  }

  lemma CutAfter(p: string, digits: string, k: nat)
    requires k < |digits| && |p| + k == 49
    ensures Fit(p + digits) == p + digits[..k]
  {
  }

  // ---- the round trips ----

  lemma PointerLength(v: nat)
    requires v < 0x1_0000_0000_0000_0000
    ensures |Pointer(v)| <= 18
  {
    WordDigits(v);
  }

  lemma PolicyLength(i: int)
    requires -0x8000_0000 <= i < 0x8000_0000
    ensures |Decimal(i)| <= 11
  {
    Powers();
    DigitsAreShort(if i < 0 then -i else i, 10, 10);
  }

  /** `seg_delete` arrives intact exactly when the address is below 2^63. */
  lemma DeleteRoundTrip(addr: nat, mode: T.Mode)
    requires addr < 0x1_0000_0000_0000_0000
    ensures Deliver(Receive(Fit(DeleteText(addr))), mode) == Delivered(T.Gmm(2, addr, 0))
            <==> addr < 0x8000_0000_0000_0000
    ensures Deliver(Receive(Fit(DeleteText(addr))), mode).Delivered?
  {
    PointerLength(addr);
    PointerIsClean(addr);
    assert DeleteText(addr) == GmmText("delete", Pointer(addr), "0");
    GmmDecodes("delete", Pointer(addr), "0");
    PointerParses(addr);
    ZeroParses();
    ClampSurvives(addr);
  }

  /** `seg_assign` arrives intact exactly when the address is below 2^63 and the policy is not negative;
      a negative policy is taken for an option, and nothing arrives. */
  lemma AssignRoundTrip(addr: nat, policy: int, mode: T.Mode)
    requires addr < 0x1_0000_0000_0000_0000 && -0x8000_0000 <= policy < 0x8000_0000
    ensures Deliver(Receive(Fit(AssignText(addr, policy))), mode) == Delivered(T.Gmm(1, addr, Unsigned(policy)))
            <==> addr < 0x8000_0000_0000_0000 && policy >= 0
    ensures policy < 0 ==> Receive(Fit(AssignText(addr, policy))) == MissingArgument
    ensures Deliver(Receive(Fit(AssignText(addr, policy))), mode).Delivered? <==> policy >= 0
  {
    PointerLength(addr);
    PolicyLength(policy);
    PointerIsClean(addr);
    DecimalIsClean(policy);
    assert AssignText(addr, policy) == GmmText("assign", Pointer(addr), Decimal(policy));
    if policy < 0 {
      OptionIsMissed("assign", Pointer(addr), Decimal(policy));
    } else {
      GmmDecodes("assign", Pointer(addr), Decimal(policy));
      PointerParses(addr);
      DecimalParses(policy);
      ClampSurvives(addr);
    }
  }

  /** `seg_create` arrives intact exactly when both numbers are below 2^63 and the text fits in the buffer,
      as it always does for a size below 2^44. */
  lemma CreateRoundTrip(addr: nat, size: nat, mode: T.Mode)
    requires addr < 0x1_0000_0000_0000_0000 && size < 0x1_0000_0000_0000_0000
    ensures Deliver(Receive(Fit(CreateText(addr, size))), mode) == Delivered(T.Gmm(0, addr, size))
            <==> addr < 0x8000_0000_0000_0000 && size < 0x8000_0000_0000_0000 && |CreateText(addr, size)| <= 49
    ensures Deliver(Receive(Fit(CreateText(addr, size))), mode).Delivered?
    ensures size < 0x1000_0000_0000 ==> |CreateText(addr, size)| <= 49
  {
    if size < 0x1000_0000_0000 { CreateFits(addr, size); }
    PointerLength(addr);
    PointerIsClean(addr);
    HexIsClean(size);
    var a, b := Pointer(addr), "0x" + Digits(size, 16);
    assert CreateText(addr, size) == GmmText("create", a, b);
    if |CreateText(addr, size)| > 49 {
      CutArgument("create", a, size);
    } else {
      GmmDecodes("create", a, b);
      PointerParses(addr);
      ParseDigits(size, 16);
      HexParses(Digits(size, 16));
      ClampSurvives(addr);
      ClampSurvives(size);
    }
  }

  lemma CreateFits(addr: nat, size: nat)
    requires addr < 0x1_0000_0000_0000_0000 && size < 0x1000_0000_0000
    ensures |CreateText(addr, size)| <= 49
  {
    Powers();
    DigitsAreShort(size, 16, 11);
    PointerLength(addr);
  }

  /** `user_msg` arrives intact, in detailed mode, exactly when both payloads are below 2^63 and the text fits;
      in the other modes nothing arrives. */
  lemma MessageRoundTrip(p: nat, q: nat, mode: T.Mode)
    requires p < 0x1_0000_0000_0000_0000 && q < 0x1_0000_0000_0000_0000
    ensures Deliver(Receive(Fit(MessageText(p, q))), mode) == Delivered(T.Message(10, p, q))
            <==> mode.Detailed? && p < 0x8000_0000_0000_0000 && q < 0x8000_0000_0000_0000 && |MessageText(p, q)| <= 49
    ensures Deliver(Receive(Fit(MessageText(p, q))), mode).Delivered? <==> mode.Detailed?
  {
    PointerLength(p);
    PointerIsClean(p);
    PointerIsClean(q);
    var a, b := Pointer(p), Pointer(q);
    assert MessageText(p, q) == GmmText("message", a, b);
    if |MessageText(p, q)| > 49 {
      CutArgument("message", a, q);
    } else {
      GmmDecodes("message", a, b);
      PointerParses(p);
      PointerParses(q);
      ClampSurvives(p);
      ClampSurvives(q);
    }
  }

  /** `gmm_sync` arrives in detailed mode only, whatever the two arguments that fill its text. */
  lemma SyncArrives(a: string, b: string, mode: T.Mode)
    requires PlainWord(a) && PlainWord(b) && a[0] != '-' && b[0] != '-' && |GmmText("sync", a, b)| <= 49
    ensures Deliver(Receive(Fit(GmmText("sync", a, b))), mode)
         == if mode.Detailed? then Delivered(T.Message(35, 0, 0)) else Nothing
  {
    GmmDecodes("sync", a, b);
  }

  /** So does the text `gmm_sync` sends. */
  lemma SyncRoundTrip(cmd: string, mode: T.Mode)
    requires cmd == "trace gmm sync 0 0"
    ensures Deliver(Receive(cmd), mode) == if mode.Detailed? then Delivered(T.Message(35, 0, 0)) else Nothing
  {
    var c, a: string := "sync", "0";
    assert cmd == GmmText(c, a, a);
    SyncArrives(a, a, mode);
  }

  lemma ThreeWords(t: string, m: string, a: string)
    requires PlainWord(t) && PlainWord(m) && PlainWord(a)
    ensures Words(t + " " + (m + " " + a)) == [t] + [m, a]
  {
    FirstWord(t, m + " " + a);
    FirstWord(m, a);
    OnlyWord(a);
  }

  lemma TwoOperands(m: string, a: string)
    requires !IsOption(m) && !IsOption(a)
    ensures Operands([m, a]) == [m, a]
  {
    assert [m, a][1..] == [a] && [a][1..] == [];
    assert Operands([a]) == [a];
  }

  /** `set_magic` arrives intact exactly when the address is below 2^63. */
  lemma MagicRoundTrip(addr: nat)
    requires addr < 0x1_0000_0000_0000_0000
    ensures Receive(Fit(MagicText(addr))) == Magic(addr) <==> addr < 0x8000_0000_0000_0000
  {
    var t, m, a := "trace", "magic", Pointer(addr);
    PointerLength(addr);
    PointerIsClean(addr);
    assert MagicText(addr) == t + " " + (m + " " + a);
    ThreeWords(t, m, a);
    TwoOperands(m, a);
    assert ([t] + [m, a])[1..] == [m, a];
    PointerParses(addr);
    ClampSurvives(addr);
  }
}
