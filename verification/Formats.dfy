/** The text formats once more, as alphabets, lengths and the numbers that a text writes. */
module Formats {
  import opened Text

  const HEX := "0123456789abcdef"
  const UPPER := "ABCDEFGHIJKLMNOPQRSTUVWXYZ"
  const LOWER := "abcdefghijklmnopqrstuvwxyz"
  const DIGITS := "0123456789"
  const LETTERS := UPPER + LOWER + DIGITS
  const UUID := "xxxxxxxx-xxxx-xxxx-xxxx-xxxxxxxxxxxx"

  /** Every character is in the alphabet, and the length is within the bounds. */
  predicate Drawn(s: string, alphabet: string, least: nat, most: nat) {
    least <= |s| <= most && forall i | 0 <= i < |s| :: s[i] in alphabet
  }

  /** Where the pattern has an x there is a hexadecimal digit, and the pattern's own character elsewhere. */
  predicate Shaped(s: string, pattern: string) {
    |s| == |pattern| && forall i | 0 <= i < |s| :: if pattern[i] == 'x' then s[i] in HEX else s[i] == pattern[i]
  }

  /** str() of a number that a signed 64-bit integer can hold. */
  ghost predicate Writes(s: string, n: nat) {
    s == Decimal(n) && n <= 9223372036854775807
  }

  ghost predicate IsNumber(s: string) {
    exists n: nat :: Writes(s, n)
  }

  lemma HexAlphabet(c: char)
    ensures IsHex(c) <==> c in HEX
  {
  }

  lemma UpperAlphabet(c: char)
    ensures 'A' <= c <= 'Z' <==> c in UPPER
  {
  }

  lemma LowerAlphabet(c: char)
    ensures 'a' <= c <= 'z' <==> c in LOWER
  {
  }

  lemma DigitAlphabet(c: char)
    ensures IsDigit(c) <==> c in DIGITS
  {
  }

  lemma LetterAlphabet(c: char)
    ensures (IsDigit(c) || 'a' <= c <= 'z' || 'A' <= c <= 'Z') <==> c in LETTERS
  {
    UpperAlphabet(c);
    LowerAlphabet(c);
    DigitAlphabet(c);
    WithExtras(c, UPPER, LOWER);
    WithExtras(c, UPPER + LOWER, DIGITS);
  }

  lemma DigestExactly(s: string)
    ensures Hex64(s) <==> Drawn(s, HEX, 64, 64)
  {
    forall i | 0 <= i < |s| ensures IsHex(s[i]) <==> s[i] in HEX {
      HexAlphabet(s[i]);
    }
  }

  lemma WithExtras(c: char, alphabet: string, extras: string)
    ensures c in alphabet + extras <==> c in alphabet || c in extras
  {
  }

  /** sha256: and 64 hexadecimal digits. */
  ghost predicate IsDigest(d: string) {
    exists hex :: d == "sha256:" + hex && Drawn(hex, HEX, 64, 64)
  }

  lemma DigestIsExactly(d: string)
    ensures DigestOk(d) <==> IsDigest(d)
  {
    if DigestOk(d) {
      DigestExactly(d[7..]);
      assert d == "sha256:" + d[7..];
    }
    if IsDigest(d) {
      var hex :| d == "sha256:" + hex && Drawn(hex, HEX, 64, 64);
      DigestExactly(hex);
      assert d[..7] == "sha256:" && d[7..] == hex;
    }
  }

  lemma IdentifierExactly(s: string, limit: nat)
    ensures Identifier(s, limit) <==> Drawn(s, LETTERS + "_-", 1, limit)
  {
    forall i | 0 <= i < |s| ensures IsWord(s[i]) <==> s[i] in LETTERS + "_-" {
      LetterAlphabet(s[i]);
      WithExtras(s[i], LETTERS, "_-");
      hide IsDigit;
    }
  }

  lemma KnowledgeBaseExactly(s: string)
    ensures KnowledgeBaseId(s) <==> Drawn(s, LETTERS + "._-", 1, 128)
  {
    forall i | 0 <= i < |s| ensures IsWord(s[i]) || s[i] == '.' <==> s[i] in LETTERS + "._-" {
      LetterAlphabet(s[i]);
      WithExtras(s[i], LETTERS, "._-");
    }
  }

  lemma UuidExactly(s: string)
    ensures Uuid(s) <==> Shaped(s, UUID)
  {
    forall i | 0 <= i < |s| ensures IsHex(s[i]) <==> s[i] in HEX {
      HexAlphabet(s[i]);
    }
    hide IsHex;
    assert |UUID| == 36;
    assert forall i | 0 <= i < 36 :: UUID[i] == if i in {8, 13, 18, 23} then '-' else 'x';
  }

  /** A validated number is exactly a text that str() writes. */
  lemma NumberExactly(s: string)
    ensures IsInteger(s) <==> IsNumber(s)
    ensures forall n: nat | Writes(s, n) :: Num(s) == n
  {
    if IsInteger(s) {
      DecimalRoundTrip(s);
      assert Writes(s, Num(s));
    }
    forall n: nat | Writes(s, n) ensures IsInteger(s) && Num(s) == n {
      IntegerRoundTrip(n);
    }
  }

  /** The joined text of two lists is the joined texts with a newline between. */
  lemma {:induction false} JoinConcat(a: seq<string>, b: seq<string>)
    requires |a| > 0 && |b| > 0
    ensures Join(a + b) == Join(a) + "\n" + Join(b)
  {
    if |a| == 1 {
      assert (a + b)[1..] == b;
    } else {
      JoinConcat(a[1..], b);
      assert (a + b)[1..] == a[1..] + b;
    }
  }

  /** A field and a newline before the rest of a text. */
  function Row(field: string, rest: string): string {
    field + "\n" + rest
  }

  lemma JoinThree(a: string, b: string, c: string)
    ensures Join([a, b, c]) == Row(a, Row(b, c))
  {
    assert [a, b, c][1..] == [b, c] && [b, c][1..] == [c];
    assert Join([b, c]) == Row(b, Join([c]));
  }

  lemma JoinFive(a: string, b: string, c: string, d: string, e: string)
    ensures Join([a, b, c, d, e]) == Row(a, Row(b, Row(c, Row(d, e))))
  {
    JoinThree(c, d, e);
    assert [a, b, c, d, e][1..] == [b, c, d, e] && [b, c, d, e][1..] == [c, d, e];
  }

  lemma JoinSeven(a: string, b: string, c: string, d: string, e: string, f: string, g: string)
    ensures Join([a, b, c, d, e, f, g]) == Row(a, Row(b, Row(c, Row(d, Row(e, Row(f, g))))))
  {
    JoinFive(c, d, e, f, g);
    assert [a, b, c, d, e, f, g][1..] == [b, c, d, e, f, g] && [b, c, d, e, f, g][1..] == [c, d, e, f, g];
  }

  lemma JoinNine(a: string, b: string, c: string, d: string, e: string, f: string, g: string, h: string, i: string)
    ensures Join([a, b, c, d, e, f, g, h, i]) == Row(a, Row(b, Row(c, Row(d, Row(e, Row(f, Row(g, Row(h, i))))))))
  {
    JoinSeven(c, d, e, f, g, h, i);
    assert [a, b, c, d, e, f, g, h, i][1..] == [b, c, d, e, f, g, h, i];
    assert [b, c, d, e, f, g, h, i][1..] == [c, d, e, f, g, h, i];
  }

  // ----- the order of texts

  /** The texts agree up to some point, and there the first one ends or has the smaller character. */
  predicate Precedes(a: string, b: string) {
    exists k | 0 <= k <= |a| && k < |b| :: a[..k] == b[..k] && (k == |a| || a[k] < b[k])
  }

  lemma {:induction false} OrderExactly(a: string, b: string)
    ensures Less(a, b) <==> Precedes(a, b)
  {
    if b != "" && a != "" && a[0] == b[0] {
      OrderExactly(a[1..], b[1..]);
      if Less(a, b) {
        var k :| 0 <= k <= |a[1..]| && k < |b[1..]| && a[1..][..k] == b[1..][..k]
                 && (k == |a[1..]| || a[1..][k] < b[1..][k]);
        assert a[..k + 1] == [a[0]] + a[1..][..k] && b[..k + 1] == [b[0]] + b[1..][..k];
      }
      if Precedes(a, b) {
        var k :| 0 <= k <= |a| && k < |b| && a[..k] == b[..k] && (k == |a| || a[k] < b[k]);
        assert k > 0;
        assert a[1..][..k - 1] == a[..k][1..] && b[1..][..k - 1] == b[..k][1..];
      }
    } else if a != "" && b != "" {
      forall k | 1 <= k <= |a| && k < |b| ensures a[..k] != b[..k] {
        assert a[..k][0] == a[0] && b[..k][0] == b[0];
      }
      assert a[..0] == b[..0];
    } else {
      assert a[..0] == b[..0];
    }
  }
}
