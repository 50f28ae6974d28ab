/** What the scanner of Go text counts, on texts that are put together from tokens. */
module Tokens {
  import opened Contract

  /** A character of a quotation, or an escaped one. */
  datatype Unit = Plain(c: char) | Escaped(c: char)

  datatype Token =
    | Mark(c: char)
    | LineNote(note: string)
    | BlockNote(note: string)
    | Literal(quote: char, units: seq<Unit>)

  function Written(units: seq<Unit>): string {
    if units == [] then ""
    else Written(units[..|units| - 1]) + match units[|units| - 1]
                                         case Plain(c) => [c]
                                         case Escaped(c) => ['\\', c]
  }

  function Spelt(t: Token): (s: string)
    ensures s != ""
  {
    match t
    case Mark(c) => [c]
    case LineNote(note) => "//" + note + "\n"
    case BlockNote(note) => "/*" + note + "*/"
    case Literal(quote, units) => [quote] + Written(units) + [quote]
  }

  function Source(tokens: seq<Token>): string {
    if tokens == [] then "" else Source(tokens[..|tokens| - 1]) + Spelt(tokens[|tokens| - 1])
  }

  /** The depth that brackets outside of comments and quotations add up to. */
  function Nesting(tokens: seq<Token>, opener: char, closer: char): int {
    if tokens == [] then 0
    else Nesting(tokens[..|tokens| - 1], opener, closer) + Step(tokens[|tokens| - 1], opener, closer)
  }

  function Step(t: Token, opener: char, closer: char): int {
    if t == Mark(opener) then 1 else if t == Mark(closer) then -1 else 0
  }

  /** A token as Go has them: a comment ends where it must, and so does a quotation of one of the three kinds; between
      backquotes there are no escapes. */
  predicate WellFormed(t: Token) {
    match t
    case Mark(c) => c != '"' && c != '\'' && c != '`'
    case LineNote(note) => forall i | 0 <= i < |note| :: note[i] != '\n'
    case BlockNote(note) => forall i | 1 <= i < |Spelt(t)| - 2 :: Spelt(t)[i] != '*' || Spelt(t)[i + 1] != '/'
    case Literal(quote, units) =>
      && (quote == '"' || quote == '\'' || quote == '`')
      && forall u | u in units ::
           if u.Plain? then u.c != quote && (quote == '`' || u.c != '\\') else quote != '`'
  }

  /** No comment seems to begin at the end of a slash or of a block comment. */
  predicate Separate(tokens: seq<Token>) {
    forall k | 0 <= k < |tokens| - 1 && (tokens[k] == Mark('/') || tokens[k].BlockNote?) ::
      Spelt(tokens[k + 1])[0] != '/' && Spelt(tokens[k + 1])[0] != '*'
  }

  // ----- one token

  /** The text has the token at `pos`, and what follows it does not make a comment of its end. */
  predicate HasAt(text: string, pos: nat, t: Token) {
    && pos + |Spelt(t)| <= |text| && text[pos..pos + |Spelt(t)|] == Spelt(t)
    && (t == Mark('/') || t.BlockNote? ==>
          pos + |Spelt(t)| < |text| ==> text[pos + |Spelt(t)|] != '/' && text[pos + |Spelt(t)|] != '*')
  }

  lemma CharAt(text: string, pos: nat, t: Token, i: nat)
    requires HasAt(text, pos, t) && i < |Spelt(t)|
    ensures text[pos + i] == Spelt(t)[i]
  {
    assert text[pos..pos + |Spelt(t)|][i] == text[pos + i];
  }

  lemma PairAt(text: string, pos: nat)
    requires pos < |text|
    ensures Following(text, pos) == "//" <==> pos + 1 < |text| && text[pos] == '/' && text[pos + 1] == '/'
    ensures Following(text, pos) == "/*" <==> pos + 1 < |text| && text[pos] == '/' && text[pos + 1] == '*'
    ensures Following(text, pos) == "*/" <==> pos + 1 < |text| && text[pos] == '*' && text[pos + 1] == '/'
  {
    if pos + 1 < |text| {
      Two(text, pos);
    }
  }

  /** Where the scan is after some characters: outside of comments and quotations, and at this depth. */
  predicate At(text: string, pos: nat, mode: Mode, depth: int, opener: char, closer: char) {
    pos <= |text| && ModeAt(text, 0, pos) == mode && DepthAt(text, 0, pos, opener, closer) == depth
  }

  lemma OneChar(text: string, pos: nat, mode: Mode, depth: int, opener: char, closer: char)
    requires At(text, pos, mode, depth, opener, closer) && pos < |text|
    ensures At(text, pos + 1, NextMode(text, pos, mode), depth + Change(text, pos, mode, opener, closer), opener,
               closer)
  {
    hide NextMode, Change;
  }

  lemma MarkStep(text: string, pos: nat, t: Token, depth: int, opener: char, closer: char)
    requires At(text, pos, Code, depth, opener, closer) && HasAt(text, pos, t) && t.Mark? && WellFormed(t)
    ensures At(text, pos + 1, Code, depth + Step(t, opener, closer), opener, closer)
  {
    OneChar(text, pos, Code, depth, opener, closer);
    CharAt(text, pos, t, 0);
    PairAt(text, pos);
    hide Following, At;
  }

  lemma {:induction false} LineRun(text: string, first: nat, last: nat, depth: int, opener: char, closer: char)
    requires first <= last <= |text| && At(text, first, Line, depth, opener, closer)
    requires forall i | first <= i < last :: text[i] != '\n'
    ensures At(text, last, Line, depth, opener, closer)
    decreases last
  {
    hide At, Following;
    if first < last {
      LineRun(text, first, last - 1, depth, opener, closer);
      OneChar(text, last - 1, Line, depth, opener, closer);
    }
  }

  lemma LineSpelling(t: Token)
    requires t.LineNote? && WellFormed(t)
    ensures var s := Spelt(t);
            && |s| >= 3 && s[0] == '/' && s[1] == '/' && s[|s| - 1] == '\n'
            && forall i | 1 <= i < |s| - 1 :: s[i] != '\n'
  {
  }

  lemma LineThere(text: string, pos: nat, t: Token)
    requires HasAt(text, pos, t) && t.LineNote? && WellFormed(t)
    ensures var end := pos + |Spelt(t)|;
            && pos + 3 <= end <= |text| && text[pos] == '/' && text[pos + 1] == '/' && text[end - 1] == '\n'
            && forall i | pos + 1 <= i < end - 1 :: text[i] != '\n'
  {
    LineSpelling(t);
    hide Spelt, WellFormed;
    var end := pos + |Spelt(t)|;
    CharAt(text, pos, t, 0);
    CharAt(text, pos, t, 1);
    CharAt(text, pos, t, |Spelt(t)| - 1);
    forall i | pos + 1 <= i < end - 1 ensures text[i] != '\n' {
      CharAt(text, pos, t, i - pos);
    }
  }

  lemma LineStep(text: string, pos: nat, end: nat, depth: int, opener: char, closer: char)
    requires At(text, pos, Code, depth, opener, closer) && pos + 3 <= end <= |text|
    requires text[pos] == '/' && text[pos + 1] == '/' && text[end - 1] == '\n'
    requires forall i | pos + 1 <= i < end - 1 :: text[i] != '\n'
    ensures At(text, end, Code, depth, opener, closer)
  {
    hide *;
    CommentOpens(text, pos, depth, opener, closer);
    LineRun(text, pos + 1, end - 1, depth, opener, closer);
    LineCloses(text, end - 1, depth, opener, closer);
  }

  lemma CommentOpens(text: string, pos: nat, depth: int, opener: char, closer: char)
    requires At(text, pos, Code, depth, opener, closer) && pos + 1 < |text| && text[pos] == '/'
    ensures text[pos + 1] == '/' ==> At(text, pos + 1, Line, depth, opener, closer)
    ensures text[pos + 1] == '*' ==> At(text, pos + 1, Block, depth, opener, closer)
  {
    PairAt(text, pos);
    OneChar(text, pos, Code, depth, opener, closer);
    hide At, Following;
  }

  lemma LineCloses(text: string, pos: nat, depth: int, opener: char, closer: char)
    requires At(text, pos, Line, depth, opener, closer) && pos < |text| && text[pos] == '\n'
    ensures At(text, pos + 1, Code, depth, opener, closer)
  {
    OneChar(text, pos, Line, depth, opener, closer);
    hide At, Following;
  }

  lemma {:induction false} BlockRun(text: string, first: nat, last: nat, depth: int, opener: char, closer: char)
    requires first <= last < |text| && At(text, first, Block, depth, opener, closer)
    requires forall i | first <= i < last :: Following(text, i) != "*/"
    ensures At(text, last, Block, depth, opener, closer)
    decreases last
  {
    hide At, Following;
    if first < last {
      BlockRun(text, first, last - 1, depth, opener, closer);
      OneChar(text, last - 1, Block, depth, opener, closer);
    }
  }

  lemma BlockSpelling(t: Token)
    requires t.BlockNote? && WellFormed(t)
    ensures var s := Spelt(t);
            && |s| >= 4 && s[0] == '/' && s[1] == '*' && s[|s| - 2] == '*' && s[|s| - 1] == '/'
            && forall i | 1 <= i < |s| - 2 :: !(s[i] == '*' && s[i + 1] == '/')
  {
  }

  lemma BlockThere(text: string, pos: nat, t: Token)
    requires HasAt(text, pos, t) && t.BlockNote? && WellFormed(t)
    ensures var end := pos + |Spelt(t)|;
            && pos + 4 <= end <= |text| && text[pos] == '/' && text[pos + 1] == '*'
            && text[end - 2] == '*' && text[end - 1] == '/'
            && (end < |text| ==> text[end] != '/' && text[end] != '*')
            && forall i | pos + 1 <= i < end - 2 :: Following(text, i) != "*/"
  {
    BlockSpelling(t);
    hide Following, Spelt, WellFormed;
    var end := pos + |Spelt(t)|;
    CharAt(text, pos, t, 0);
    CharAt(text, pos, t, 1);
    CharAt(text, pos, t, |Spelt(t)| - 2);
    CharAt(text, pos, t, |Spelt(t)| - 1);
    forall i | pos + 1 <= i < end - 2 ensures Following(text, i) != "*/" {
      CharAt(text, pos, t, i - pos);
      CharAt(text, pos, t, i - pos + 1);
      PairAt(text, i);
    }
  }

  lemma BlockStep(text: string, pos: nat, end: nat, depth: int, opener: char, closer: char)
    requires At(text, pos, Code, depth, opener, closer) && pos + 4 <= end <= |text| && Brackets(opener, closer)
    requires text[pos] == '/' && text[pos + 1] == '*' && text[end - 2] == '*' && text[end - 1] == '/'
    requires end < |text| ==> text[end] != '/' && text[end] != '*'
    requires forall i | pos + 1 <= i < end - 2 :: Following(text, i) != "*/"
    ensures At(text, end, Code, depth, opener, closer)
  {
    hide *;
    CommentOpens(text, pos, depth, opener, closer);
    BlockRun(text, pos + 1, end - 2, depth, opener, closer);
    BlockCloses(text, end - 2, depth, opener, closer);
  }

  lemma BlockCloses(text: string, pos: nat, depth: int, opener: char, closer: char)
    requires At(text, pos, Block, depth, opener, closer) && pos + 2 <= |text| && Brackets(opener, closer)
    requires text[pos] == '*' && text[pos + 1] == '/'
    requires pos + 2 < |text| ==> text[pos + 2] != '/' && text[pos + 2] != '*'
    ensures At(text, pos + 2, Code, depth, opener, closer)
  {
    PairAt(text, pos);
    PairAt(text, pos + 1);
    OneChar(text, pos, Block, depth, opener, closer);
    OneChar(text, pos + 1, Code, depth, opener, closer);
    hide At, Following;
  }

  lemma {:induction false} UnitsRun(text: string, pos: nat, quote: char, units: seq<Unit>, depth: int, opener: char,
                                    closer: char)
    requires At(text, pos, Quoted(quote, false), depth, opener, closer) && WellFormed(Literal(quote, units))
    requires pos + |Written(units)| <= |text| && text[pos..pos + |Written(units)|] == Written(units)
    ensures At(text, pos + |Written(units)|, Quoted(quote, false), depth, opener, closer)
    decreases |units|
  {
    hide At;
    if units != [] {
      var init, last := units[..|units| - 1], units[|units| - 1];
      var w := Written(units);
      assert w[..|Written(init)|] == Written(init);
      assert text[pos..pos + |Written(init)|] == text[pos..pos + |w|][..|Written(init)|];
      UnitsRun(text, pos, quote, init, depth, opener, closer);
      var p := pos + |Written(init)|;
      assert text[p] == text[pos..pos + |w|][|Written(init)|];
      assert last in units;
      OneChar(text, p, Quoted(quote, false), depth, opener, closer);
      if last.Escaped? {
        assert text[p + 1] == text[pos..pos + |w|][|Written(init)| + 1];
        OneChar(text, p + 1, Quoted(quote, true), depth, opener, closer);
      }
    }
  }

  lemma LiteralThere(text: string, pos: nat, t: Token)
    requires HasAt(text, pos, t) && t.Literal?
    ensures var w := Written(t.units);
            && |Spelt(t)| == |w| + 2 && pos + |w| + 2 <= |text| && text[pos] == t.quote
            && text[pos + |w| + 1] == t.quote && text[pos + 1..pos + 1 + |w|] == w
  {
    var w := Written(t.units);
    hide Written;
    var s := [t.quote] + w + [t.quote];
    assert text[pos..pos + |s|] == s;
    assert s[0] == t.quote && s[|w| + 1] == t.quote && s[1..|w| + 1] == w;
    SliceOfSlice(text, pos, s, w);
  }

  lemma SliceOfSlice(text: string, pos: nat, s: string, w: string)
    requires pos + |s| <= |text| && text[pos..pos + |s|] == s && |s| == |w| + 2 && s[1..|w| + 1] == w
    ensures text[pos] == s[0] && text[pos + |w| + 1] == s[|w| + 1] && text[pos + 1..pos + 1 + |w|] == w
  {
    var piece, inner := text[pos..pos + |s|], text[pos + 1..pos + 1 + |w|];
    assert piece[0] == text[pos] && piece[|w| + 1] == text[pos + |w| + 1];
    forall i | 0 <= i < |w| ensures inner[i] == w[i] {
      assert inner[i] == piece[1 + i] && s[1..|w| + 1][i] == s[1 + i];
    }
  }

  lemma LiteralStep(text: string, pos: nat, quote: char, units: seq<Unit>, depth: int, opener: char, closer: char)
    requires At(text, pos, Code, depth, opener, closer) && WellFormed(Literal(quote, units))
    requires var n := |Written(units)|;
             && pos + n + 2 <= |text| && text[pos] == quote && text[pos + n + 1] == quote
             && text[pos + 1..pos + 1 + n] == Written(units)
    ensures At(text, pos + |Written(units)| + 2, Code, depth, opener, closer)
  {
    IsAQuote(Literal(quote, units));
    hide *;
    QuoteOpens(text, pos, quote, depth, opener, closer);
    UnitsRun(text, pos + 1, quote, units, depth, opener, closer);
    QuoteCloses(text, pos + 1 + |Written(units)|, quote, depth, opener, closer);
  }

  lemma IsAQuote(t: Token)
    requires t.Literal? && WellFormed(t)
    ensures t.quote == '"' || t.quote == '\'' || t.quote == '`'
    ensures WellFormed(Literal(t.quote, t.units))
  {
  }

  lemma QuoteOpens(text: string, pos: nat, quote: char, depth: int, opener: char, closer: char)
    requires At(text, pos, Code, depth, opener, closer) && pos < |text| && text[pos] == quote
    requires quote == '"' || quote == '\'' || quote == '`'
    ensures At(text, pos + 1, Quoted(quote, false), depth, opener, closer)
  {
    PairAt(text, pos);
    OneChar(text, pos, Code, depth, opener, closer);
    hide At, Following;
  }

  lemma QuoteCloses(text: string, pos: nat, quote: char, depth: int, opener: char, closer: char)
    requires At(text, pos, Quoted(quote, false), depth, opener, closer) && pos < |text| && text[pos] == quote
    requires quote == '"' || quote == '\'' || quote == '`'
    ensures At(text, pos + 1, Code, depth, opener, closer)
  {
    OneChar(text, pos, Quoted(quote, false), depth, opener, closer);
    hide At, Following;
  }

  lemma TokenStep(text: string, pos: nat, t: Token, depth: int, opener: char, closer: char)
    requires At(text, pos, Code, depth, opener, closer) && HasAt(text, pos, t) && WellFormed(t)
    requires Brackets(opener, closer)
    ensures At(text, pos + |Spelt(t)|, Code, depth + Step(t, opener, closer), opener, closer)
  {
    hide At, HasAt, WellFormed, Brackets, Written, Following;
    match t
    case Mark(_) => MarkStep(text, pos, t, depth, opener, closer);
    case LineNote(_) =>
      LineThere(text, pos, t);
      LineStep(text, pos, pos + |Spelt(t)|, depth, opener, closer);
    case BlockNote(_) =>
      BlockThere(text, pos, t);
      BlockStep(text, pos, pos + |Spelt(t)|, depth, opener, closer);
    case Literal(quote, units) =>
      LiteralThere(text, pos, t);
      LiteralStep(text, pos, quote, units, depth, opener, closer);
  }

  // ----- the whole text

  lemma {:induction false} SourcePrefix(tokens: seq<Token>, k: nat)
    requires k <= |tokens|
    ensures Source(tokens[..k]) <= Source(tokens)
    ensures k < |tokens| ==> Source(tokens[..k]) + Spelt(tokens[k]) <= Source(tokens)
    decreases |tokens|
  {
    hide Spelt;
    if k == |tokens| {
      assert tokens[..k] == tokens;
    } else {
      var init := tokens[..|tokens| - 1];
      assert init[..k] == tokens[..k];
      SourcePrefix(init, k);
    }
  }

  lemma Inside(text: string, before: string, middle: string)
    requires before + middle <= text
    ensures |before| + |middle| <= |text| && text[|before|..|before| + |middle|] == middle
  {
    assert text[|before|..|before| + |middle|] == (before + middle)[|before|..];
  }

  lemma HasToken(tokens: seq<Token>, k: nat)
    requires k < |tokens| && Separate(tokens)
    ensures HasAt(Source(tokens), |Source(tokens[..k])|, tokens[k])
  {
    hide Spelt;
    var text, before, t := Source(tokens), Source(tokens[..k]), tokens[k];
    SourcePrefix(tokens, k);
    Inside(text, before, Spelt(t));
    assert tokens[..k + 1][..k] == tokens[..k];
    assert Source(tokens[..k + 1]) == before + Spelt(t);
    if k + 1 < |tokens| {
      SourcePrefix(tokens, k + 1);
      Inside(text, before + Spelt(t), Spelt(tokens[k + 1]));
      assert text[|before + Spelt(t)|] == Spelt(tokens[k + 1])[0];
    } else {
      assert tokens[..k + 1] == tokens;
    }
  }

  lemma SourceStep(tokens: seq<Token>, k: nat, opener: char, closer: char)
    requires 0 < k <= |tokens|
    ensures Source(tokens[..k]) == Source(tokens[..k - 1]) + Spelt(tokens[k - 1])
    ensures Nesting(tokens[..k], opener, closer)
         == Nesting(tokens[..k - 1], opener, closer) + Step(tokens[k - 1], opener, closer)
  {
    assert tokens[..k][..k - 1] == tokens[..k - 1];
  }

  lemma ScanStep(tokens: seq<Token>, text: string, k: nat, pos: nat, depth: int, opener: char, closer: char)
    requires k < |tokens| && Separate(tokens) && Brackets(opener, closer) && WellFormed(tokens[k])
    requires text == Source(tokens) && pos == |Source(tokens[..k])| && depth == Nesting(tokens[..k], opener, closer)
    requires At(text, pos, Code, depth, opener, closer)
    ensures At(text, |Source(tokens[..k + 1])|, Code, Nesting(tokens[..k + 1], opener, closer), opener, closer)
  {
    hide *;
    HasToken(tokens, k);
    TokenStep(text, pos, tokens[k], depth, opener, closer);
    SourceStep(tokens, k + 1, opener, closer);
  }

  lemma {:induction false} ScannedUpTo(tokens: seq<Token>, k: nat, opener: char, closer: char)
    requires k <= |tokens| && Separate(tokens) && Brackets(opener, closer) && forall t | t in tokens :: WellFormed(t)
    ensures At(Source(tokens), |Source(tokens[..k])|, Code, Nesting(tokens[..k], opener, closer), opener, closer)
  {
    if k == 0 {
      assert tokens[..0] == [];
    } else {
      hide *;
      ScannedUpTo(tokens, k - 1, opener, closer);
      assert tokens[k - 1] in tokens;
      var text, pos := Source(tokens), |Source(tokens[..k - 1])|;
      ScanStep(tokens, text, k - 1, pos, Nesting(tokens[..k - 1], opener, closer), opener, closer);
    }
  }

  /** The scanner counts exactly the brackets outside of comments and of the three kinds of quotations: after each token
      it is back in code, at the depth that the tokens so far add up to. */
  lemma CountsOutsideOnly(tokens: seq<Token>, k: nat, opener: char, closer: char)
    requires k <= |tokens| && Separate(tokens) && Brackets(opener, closer) && forall t | t in tokens :: WellFormed(t)
    ensures var text, pos := Source(tokens), |Source(tokens[..k])|;
            && pos <= |text| && ModeAt(text, 0, pos) == Code
            && DepthAt(text, 0, pos, opener, closer) == Nesting(tokens[..k], opener, closer)
  {
    ScannedUpTo(tokens, k, opener, closer);
  }
}
