/** The text formats the recovery journal relies on: canonical decimals, identifiers and newline-joined fields. */
module Text {
  import opened Wrappers

  /** The content of a file or of an answer. */
  type Bytes = seq<bv8>

  const MAX_INT: nat := 0x7FFF_FFFF_FFFF_FFFF
  const ZERO: string := Zeros(64)

  function Zeros(n: nat): (s: string)
    ensures |s| == n && forall i | 0 <= i < n :: s[i] == '0'
  {
    if n == 0 then "" else "0" + Zeros(n - 1)
  }

  /** A field that cannot be confused with a separator. */
  predicate Plain(s: string) {
    '\n' !in s
  }

  predicate IsDigit(c: char) {
    '0' <= c <= '9'
  }

  predicate IsHex(c: char) {
    IsDigit(c) || 'a' <= c <= 'f'
  }

  predicate IsWord(c: char) {
    IsDigit(c) || 'a' <= c <= 'z' || 'A' <= c <= 'Z' || c == '_' || c == '-'
  }

  predicate Hex64(s: string) {
    |s| == 64 && forall i | 0 <= i < |s| :: IsHex(s[i])
  }

  predicate Identifier(s: string, limit: nat) {
    1 <= |s| <= limit && forall i | 0 <= i < |s| :: IsWord(s[i])
  }

  predicate KnowledgeBaseId(s: string) {
    1 <= |s| <= 128 && forall i | 0 <= i < |s| :: (IsWord(s[i]) || s[i] == '.')
  }

  /** A digest with the name of its algorithm. */
  predicate DigestOk(d: string) {
    |d| == 71 && d[..7] == "sha256:" && Hex64(d[7..])
  }

  /** Lower-case 8-4-4-4-12 hexadecimal form. */
  predicate Uuid(s: string) {
    |s| == 36 && forall i | 0 <= i < 36 :: if i in {8, 13, 18, 23} then s[i] == '-' else IsHex(s[i])
  }

  // ----- canonical decimals

  function Digit(n: nat): (c: char)
    requires n < 10
    ensures IsDigit(c)
  {
    '0' + n as char
  }

  function DigitValue(c: char): (n: nat)
    requires IsDigit(c)
    ensures n < 10
  {
    (c - '0') as nat
  }

  /** Python's str() of a nonnegative integer. */
  function Decimal(n: nat): (s: string)
    ensures |s| > 0
    ensures forall i | 0 <= i < |s| :: IsDigit(s[i])
    ensures |s| > 1 ==> s[0] != '0'
    ensures n > 0 ==> s[0] != '0'
  {
    if n < 10 then [Digit(n)] else Decimal(n / 10) + [Digit(n % 10)]
  }

  predicate Digits(s: string) {
    forall i | 0 <= i < |s| :: IsDigit(s[i])
  }

  /** Python's int() of a digit string. */
  function Value(s: string): nat
    requires Digits(s)
  {
    if s == "" then 0 else Value(s[..|s| - 1]) * 10 + DigitValue(s[|s| - 1])
  }

  /** The pattern `0|[1-9][0-9]{0,18}`. */
  predicate DecimalShape(s: string) {
    1 <= |s| <= 19 && Digits(s) && (|s| > 1 ==> s[0] != '0')
  }

  /** A bounded sequence number, or a refusal. */
  function Integer(s: string): (r: Result<nat>)
    ensures r.Ok? ==> r.value <= MAX_INT
  {
    if DecimalShape(s) && Value(s) <= MAX_INT then Ok(Value(s)) else Refused
  }

  predicate IsInteger(s: string) {
    Integer(s).Ok?
  }

  /** The number a validated sequence field stands for. */
  function Num(s: string): (n: nat)
    ensures n <= MAX_INT
  {
    if IsInteger(s) then Integer(s).value else 0
  }

  lemma {:induction false} ValueOfDecimal(n: nat)
    ensures Digits(Decimal(n)) && Value(Decimal(n)) == n
  {
    if n >= 10 {
      ValueOfDecimal(n / 10);
      var s := Decimal(n);
      assert s[..|s| - 1] == Decimal(n / 10);
    } else {
      assert Decimal(n)[..0] == "";
    }
  }

  lemma {:induction false} DecimalOfValue(s: string)
    requires |s| > 0 && Digits(s) && (|s| > 1 ==> s[0] != '0')
    ensures Decimal(Value(s)) == s
  {
    var init, last := s[..|s| - 1], s[|s| - 1];
    if |s| == 1 {
      assert Value(init) == 0;
      assert Digit(DigitValue(last)) == last;
    } else {
      DecimalOfValue(init);
      assert Decimal(0) == "0" && init[0] == s[0];
      assert (Value(init) * 10 + DigitValue(last)) / 10 == Value(init);
      assert Digit(DigitValue(last)) == last;
      assert s == init + [last];
    }
  }

  function Pow10(k: nat): (p: nat)
    ensures p > 0
  {
    if k == 0 then 1 else 10 * Pow10(k - 1)
  }

  lemma {:induction false} DecimalLength(n: nat, k: nat)
    requires k > 0 && n < Pow10(k)
    ensures |Decimal(n)| <= k
    decreases k
  {
    assert Pow10(1) == 10;
    if n >= 10 {
      DecimalLength(n / 10, k - 1);
    }
  }

  /** Accepted decimals and the numbers up to 2^63-1 are in one-to-one correspondence; larger numbers are refused. */
  lemma IntegerRoundTrip(n: nat)
    ensures Integer(Decimal(n)) == if n <= MAX_INT then Ok(n) else Refused
  {
    ValueOfDecimal(n);
    if n <= MAX_INT {
      assert Pow10(19) == 10_000_000_000_000_000_000 by {
        assert Pow10(5) == 100_000;
        assert Pow10(10) == 10_000_000_000;
        assert Pow10(15) == 1_000_000_000_000_000;
      }
      DecimalLength(n, 19);
    }
  }

  lemma DecimalRoundTrip(s: string)
    requires IsInteger(s)
    ensures Decimal(Num(s)) == s
  {
    DecimalOfValue(s);
  }

  lemma NumInjective(a: string, b: string)
    requires IsInteger(a) && IsInteger(b) && Num(a) == Num(b)
    ensures a == b
  {
    DecimalRoundTrip(a);
    DecimalRoundTrip(b);
  }

  lemma DecimalInjective(m: nat, n: nat)
    requires Decimal(m) == Decimal(n)
    ensures m == n
  {
    ValueOfDecimal(m);
    ValueOfDecimal(n);
  }

  /** Python's order on strings. */
  predicate Less(a: string, b: string) {
    if b == "" then false
    else if a == "" then true
    else a[0] < b[0] || (a[0] == b[0] && Less(a[1..], b[1..]))
  }

  // ----- newline-joined fields

  function Join(parts: seq<string>): string
    requires |parts| > 0
  {
    if |parts| == 1 then parts[0] else parts[0] + "\n" + Join(parts[1..])
  }

  predicate AllPlain(parts: seq<string>) {
    forall i | 0 <= i < |parts| :: Plain(parts[i])
  }

  /** A plain head followed by a newline can be read back from the joined text. */
  lemma HeadUnique(a: string, x: string, b: string, y: string)
    requires Plain(a) && Plain(b)
    requires a + "\n" + x == b + "\n" + y
    ensures a == b && x == y
  {
    var s, t := a + "\n" + x, b + "\n" + y;
    assert forall i | 0 <= i < |a| :: s[i] == a[i] && a[i] != '\n';
    assert forall i | 0 <= i < |b| :: t[i] == b[i] && b[i] != '\n';
    assert s[|a|] == '\n' && t[|b|] == '\n';
    assert |a| == |b|;
    assert a == s[..|a|] && b == t[..|b|];
    assert x == s[|a| + 1..] && y == t[|b| + 1..];
  }

  /** Joining newline-free fields loses nothing, not even the number of fields. */
  lemma {:induction false} JoinInjective(a: seq<string>, b: seq<string>)
    requires |a| > 0 && |b| > 0 && AllPlain(a) && AllPlain(b)
    requires Join(a) == Join(b)
    ensures a == b
    decreases |a|
  {
    if |a| > 1 && |b| > 1 {
      HeadUnique(a[0], Join(a[1..]), b[0], Join(b[1..]));
      JoinInjective(a[1..], b[1..]);
      assert a == [a[0]] + a[1..] && b == [b[0]] + b[1..];
    } else {
      JoinedIsNotPlain(a);
      JoinedIsNotPlain(b);
    }
  }

  lemma JoinedIsNotPlain(parts: seq<string>)
    requires |parts| > 0
    ensures |parts| == 1 ==> parts == [Join(parts)]
    ensures |parts| > 1 ==> !Plain(Join(parts))
  {
    if |parts| > 1 {
      assert Join(parts)[|parts[0]|] == '\n';
    }
  }

  // ----- lines of a file

  /** Python's iteration over a binary file: each line keeps its newline, a last fragment may lack it. */
  function Lines(file: string): (lines: seq<string>)
  {
    if file == "" then []
    else
      var k := FirstNewline(file);
      if k < |file| then [file[..k + 1]] + Lines(file[k + 1..]) else [file]
  }

  function FirstNewline(s: string): (k: nat)
    ensures k <= |s|
    ensures Plain(s[..k])
    ensures k < |s| ==> s[k] == '\n'
  {
    if s == "" || s[0] == '\n' then 0 else 1 + FirstNewline(s[1..])
  }

  predicate Terminated(file: string) {
    file == "" || file[|file| - 1] == '\n'
  }

  lemma FirstNewlineIs(head: string, rest: string)
    requires Plain(head)
    ensures FirstNewline(head + "\n" + rest) == |head|
  {
    var s := head + "\n" + rest;
    var k := FirstNewline(s);
    assert forall i | 0 <= i < |head| :: s[i] == head[i] && head[i] != '\n';
    assert forall i | 0 <= i < k :: s[..k][i] == s[i];
    assert s[|head|] == '\n';
  }

  /** A terminated file starts with one complete line; whatever follows it is split on its own. */
  lemma LinesStep(file: string, tail: string) returns (rest: string)
    requires Terminated(file) && file != ""
    ensures |rest| < |file| && Terminated(rest)
    ensures |Lines(file)| > 0 && Lines(file) == [Lines(file)[0]] + Lines(rest)
    ensures Lines(file + tail) == [Lines(file)[0]] + Lines(rest + tail)
  {
    var k := FirstNewline(file);
    assert forall i | 0 <= i < k :: file[..k][i] == file[i];
    assert file[|file| - 1] == '\n';
    rest := file[k + 1..];
    var whole := file + tail;
    assert file == file[..k] + "\n" + rest;
    assert whole == file[..k] + "\n" + (rest + tail);
    FirstNewlineIs(file[..k], rest + tail);
    assert whole[..k + 1] == file[..k + 1];
    assert whole[k + 1..] == rest + tail;
    assert rest != "" ==> rest[|rest| - 1] == file[|file| - 1];
  }

  /** Appending one terminated line to a terminated file adds exactly that line. */
  lemma {:induction false} LinesAppend(file: string, line: string)
    requires Terminated(file) && Plain(line)
    ensures Lines(file + (line + "\n")) == Lines(file) + [line + "\n"]
    decreases |file|
  {
    if file == "" {
      FirstNewlineIs(line, "");
      assert file + (line + "\n") == line + "\n" + "" == line + "\n";
      assert (line + "\n")[|line| + 1..] == "";
    } else {
      var rest := LinesStep(file, line + "\n");
      LinesAppend(rest, line);
    }
  }

  /** A torn line is seen as a last line without its newline. */
  lemma {:induction false} LinesTorn(file: string, fragment: string)
    requires Terminated(file) && Plain(fragment) && fragment != ""
    ensures Lines(file + fragment) == Lines(file) + [fragment]
    decreases |file|
  {
    if file == "" {
      assert file + fragment == fragment;
    } else {
      var rest := LinesStep(file, fragment);
      LinesTorn(rest, fragment);
    }
  }

  /** The last line ends where the file ends. */
  lemma {:induction false} LastLine(file: string)
    requires file != ""
    ensures var lines := Lines(file);
            |lines| > 0 && lines[|lines| - 1] != ""
            && lines[|lines| - 1][|lines[|lines| - 1]| - 1] == file[|file| - 1]
    decreases |file|
  {
    var k := FirstNewline(file);
    if k == |file| {
      assert Lines(file) == [file];
    } else if file[k + 1..] == "" {
      assert Lines(file) == [file[..k + 1]];
    } else {
      var rest := file[k + 1..];
      assert Lines(file) == [file[..k + 1]] + Lines(rest);
      hide Lines, FirstNewline;
      LastLine(rest);
    }
  }

  // ----- plainness of validated fields

  lemma HexPlain(s: string)
    requires Hex64(s)
    ensures Plain(s)
  {
  }

  lemma IdentifierPlain(s: string, limit: nat)
    requires Identifier(s, limit)
    ensures Plain(s)
  {
  }

  lemma KnowledgeBaseIdPlain(s: string)
    requires KnowledgeBaseId(s)
    ensures Plain(s)
  {
  }

  lemma UuidPlain(s: string)
    requires Uuid(s)
    ensures Plain(s)
  {
  }

  lemma IntegerPlain(s: string)
    requires IsInteger(s)
    ensures Plain(s)
  {
  }

  lemma DecimalPlain(n: nat)
    ensures Plain(Decimal(n))
  {
  }
}
