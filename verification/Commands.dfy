/** Guest commands: printed into 50-byte buffers by `guest/hypersh.h`, split into words, parsed
    with `strtol` base 0 and decoded by `host/trace/control.cc`. */
module Commands {
  import opened Arithmetic
  import T = Trace

  // ---- printing numbers ----

  function DigitChar(d: nat): char
    requires d < 16
  {
    "0123456789abcdef"[d]
  }

  /** The bases the guest prints in. */
  predicate Radix(b: nat) { b == 10 || b == 16 }

  function LastDigit(v: nat, b: nat): (d: nat)
    requires Radix(b)
    ensures d < b
  {
    if b == 10 then v % 10 else v % 16
  }

  function OtherDigits(v: nat, b: nat): (q: nat)
    requires Radix(b)
    ensures v >= b ==> 0 < q < v
  {
    if b == 10 then v / 10 else v / 16
  }

  /** `v` in base `b`, most significant digit first, without leading zeros. */
  function Digits(v: nat, b: nat): (s: string)
    requires Radix(b)
    ensures |s| > 0
  {
    if v < b then [DigitChar(v)] else Digits(OtherDigits(v, b), b) + [DigitChar(LastDigit(v, b))]
  }

  /** `%p`, as the GNU C library prints it. */
  function Pointer(v: nat): string {
    if v == 0 then "(nil)" else "0x" + Digits(v, 16)
  }

  /** `%d`. */
  function Decimal(i: int): string {
    if i < 0 then "-" + Digits(-i, 10) else Digits(i, 10)
  }

  /** What `snprintf` leaves in a buffer of 50 bytes (section 7.21.6.5 of C11). */
  function Fit(text: string): string {
    if |text| <= 49 then text else text[..49]
  }

  // ---- parsing numbers: strtol with base 0 (section 7.22.1.4 of C11) ----

  function DigitValue(c: char): nat {
    if '0' <= c <= '9' then c as nat - '0' as nat
    else if 'a' <= c <= 'f' then c as nat - 'a' as nat + 10
    else if 'A' <= c <= 'F' then c as nat - 'A' as nat + 10
    else 99
  }

  /** The value of the longest prefix of digits of base `b`, after `acc`. */
  function Parse(s: string, b: nat, acc: nat): nat
    requires 2 <= b <= 16
  {
    if s == "" || DigitValue(s[0]) >= b then acc else Parse(s[1..], b, acc * b + DigitValue(s[0]))
  }

  function Magnitude(s: string): nat {
    if |s| > 2 && s[0] == '0' && (s[1] == 'x' || s[1] == 'X') && DigitValue(s[2]) < 16 then Parse(s[2..], 16, 0)
    else if |s| > 0 && s[0] == '0' then Parse(s, 8, 0)
    else Parse(s, 10, 0)
  }

  const LONG_MAX: int := 0x7fff_ffff_ffff_ffff

  function Clamp(x: int): int {
    if x > LONG_MAX then LONG_MAX else if x < -LONG_MAX - 1 then -LONG_MAX - 1 else x
  }

  /** A word has no leading white space. */
  function Strtol(s: string): int {
    if |s| > 0 && s[0] == '-' then Clamp(-(Magnitude(s[1..]) as int))
    else if |s| > 0 && s[0] == '+' then Clamp(Magnitude(s[1..]))
    else Clamp(Magnitude(s))
  }

  /** A `long` passed as a `uint64_t`. */
  function Unsigned(x: int): nat { Wrap64(x) }

  // ---- words ----

  function WordLength(s: string): (n: nat)
    ensures n <= |s| && (s != "" && s[0] != ' ' ==> n > 0)
  {
    if s == "" || s[0] == ' ' then 0 else 1 + WordLength(s[1..])
  }

  function Words(s: string): seq<string> {
    if s == "" then []
    else if s[0] == ' ' then Words(s[1..])
    else [s[..WordLength(s)]] + Words(s[WordLength(s)..])
  }

  predicate PlainWord(w: string) {
    w != "" && ' ' !in w
  }

  // ---- decoding ----

  datatype Decoded =
    | Misdirected
    | Gmm(command: string, segment: nat, arg: nat)
    | MissingArgument
    | Magic(addr: nat)
    | Another

  /** `getopt` moves the words that look like options in front of the others. */
  predicate IsOption(w: string) {
    |w| > 1 && w[0] == '-'
  }

  function Operands(words: seq<string>): seq<string> {
    if words == [] then []
    else (if IsOption(words[0]) then [] else [words[0]]) + Operands(words[1..])
  }

  /** `qemu_plugin_control` of the trace plugin. */
  function Decode(words: seq<string>): Decoded {
    if words == [] || words[0] != "trace" then Misdirected
    else
      var ops := Operands(words[1..]);
      if ops == [] then Another
      else if ops[0] == "gmm" then
        if |ops| < 4 then MissingArgument else Gmm(ops[1], Unsigned(Strtol(ops[2])), Unsigned(Strtol(ops[3])))
      else if ops[0] == "magic" && |ops| > 1 then Magic(Unsigned(Strtol(ops[1])))
      else Another
  }

  function Receive(cmd: string): Decoded { Decode(Words(cmd)) }

  datatype Delivered = Nothing | Delivered(command: T.Command)

  /** `recorder_gmm`: what is written to the vcpu's stream. */
  function Deliver(d: Decoded, mode: T.Mode): Delivered {
    if !d.Gmm? then Nothing
    else if d.command == "create" then Delivered(T.Gmm(0, d.segment, d.arg))
    else if d.command == "assign" then Delivered(T.Gmm(1, d.segment, d.arg))
    else if d.command == "delete" then Delivered(T.Gmm(2, d.segment, d.arg))
    else if d.command == "message" && mode.Detailed? then Delivered(T.Message(10, d.segment, d.arg))
    else if d.command == "sync" && mode.Detailed? then Delivered(T.Message(35, 0, 0))
    else Nothing
  }

  // ---- the guest's helpers ----

  function CreateText(addr: nat, size: nat): string { "trace gmm create " + Pointer(addr) + " 0x" + Digits(size, 16) }

  function AssignText(addr: nat, policy: int): string { "trace gmm assign " + Pointer(addr) + " " + Decimal(policy) }

  function DeleteText(addr: nat): string { "trace gmm delete " + Pointer(addr) + " 0" }

  function MessageText(p: nat, q: nat): string { "trace gmm message " + Pointer(p) + " " + Pointer(q) }

  function MagicText(addr: nat): string { "trace magic " + Pointer(addr) }

  /** The string in a buffer: what comes before the first NUL. */
  function CString(buf: seq<char>): string {
    if buf == [] || buf[0] == '\0' then "" else [buf[0]] + CString(buf[1..])
  }

  lemma {:induction false} CStringStops(text: string, rest: seq<char>)
    requires '\0' !in text
    ensures CString(text + ['\0'] + rest) == text
  {
    var buf := text + ['\0'] + rest;
    if text == "" {
      assert buf[0] == '\0';
    } else {
      assert buf[1..] == text[1..] + ['\0'] + rest;
      CStringStops(text[1..], rest);
    }
  }

  /** `snprintf` into a buffer: as much as fits, and a NUL. */
  method Snprintf(buf: array<char>, text: string)
    requires buf.Length > 0 && '\0' !in text
    modifies buf
    ensures CString(buf[..]) == if |text| < buf.Length then text else text[..buf.Length - 1]
  {
    var n := if |text| < buf.Length then |text| else buf.Length - 1;
    for i := 0 to n
      invariant buf[..i] == text[..i]
    {
      buf[i] := text[i];
    }
    buf[n] := '\0';
    assert buf[..] == text[..n] + ['\0'] + buf[n + 1..];
    CStringStops(text[..n], buf[n + 1..]);
  }

  /** What `hypersh_exec` hands to the host. */
  method Printed(text: string) returns (cmd: string)
    requires '\0' !in text
    ensures cmd == Fit(text)
  {
    var buf := new char[50];
    Snprintf(buf, text);
    cmd := CString(buf[..]);
  }

  lemma {:induction false} DigitsAreDigits(v: nat, b: nat)
    requires Radix(b)
    ensures forall c :: c in Digits(v, b) ==> '0' <= c <= '9' || 'a' <= c <= 'f'
  {
    if v >= b { DigitsAreDigits(OtherDigits(v, b), b); }
  }

  /** Neither spaces nor NULs, and not empty: one word, to the host. */
  predicate Clean(w: string) {
    w != "" && ' ' !in w && '\0' !in w
  }

  lemma PointerIsClean(v: nat)
    ensures Clean(Pointer(v)) && Pointer(v)[0] != '-'
  {
    DigitsAreDigits(v, 16);
  }

  lemma DecimalIsClean(i: int)
    ensures Clean(Decimal(i)) && (Decimal(i)[0] == '-' <==> i < 0)
  {
    DigitsAreDigits(if i < 0 then -i else i, 10);
    assert Digits(if i < 0 then -i else i, 10)[0] in Digits(if i < 0 then -i else i, 10);
  }

  lemma HexIsClean(v: nat)
    ensures Clean("0x" + Digits(v, 16))
  {
    DigitsAreDigits(v, 16);
  }

  lemma SeparatedIsPrintable(a: string, b: string, c: string)
    requires '\0' !in a && '\0' !in b && '\0' !in c
    ensures '\0' !in a + b + " " + c
  {
  }

  method SegCreate(addr: nat, size: nat) returns (cmd: string)
    ensures cmd == Fit(CreateText(addr, size))
  {
    PointerIsClean(addr);
    HexIsClean(size);
    SeparatedIsPrintable("trace gmm create ", Pointer(addr), "0x" + Digits(size, 16));
    assert CreateText(addr, size) == "trace gmm create " + Pointer(addr) + " " + ("0x" + Digits(size, 16));
    cmd := Printed(CreateText(addr, size));
  }

  method SegAssign(addr: nat, policy: int) returns (cmd: string)
    ensures cmd == Fit(AssignText(addr, policy))
  {
    PointerIsClean(addr);
    DecimalIsClean(policy);
    SeparatedIsPrintable("trace gmm assign ", Pointer(addr), Decimal(policy));
    cmd := Printed(AssignText(addr, policy));
  }

  method SegDelete(addr: nat) returns (cmd: string)
    ensures cmd == Fit(DeleteText(addr))
  {
    PointerIsClean(addr);
    SeparatedIsPrintable("trace gmm delete ", Pointer(addr), "0");
    assert DeleteText(addr) == "trace gmm delete " + Pointer(addr) + " " + "0";
    cmd := Printed(DeleteText(addr));
  }

  method UserMsg(p: nat, q: nat) returns (cmd: string)
    ensures cmd == Fit(MessageText(p, q))
  {
    PointerIsClean(p);
    PointerIsClean(q);
    SeparatedIsPrintable("trace gmm message ", Pointer(p), Pointer(q));
    cmd := Printed(MessageText(p, q));
  }

  method GmmSync() returns (cmd: string)
    ensures cmd == "trace gmm sync 0 0"
  {
    cmd := "trace gmm sync 0 0";
  }

  method SetMagic(addr: nat) returns (cmd: string)
    ensures cmd == Fit(MagicText(addr))
  {
    PointerIsClean(addr);
    assert '\0' !in "trace magic ";
    cmd := Printed(MagicText(addr));
  }
}
