/** The source scanner of the contract checker: balanced Go expressions and schema references. */
module Contract {
  import opened Wrappers

  // ----- the lexer state of the scanning loop

  datatype Mode = Code | Line | Block | Quoted(quote: char, escape: bool)

  predicate IsQuote(c: char) {
    c == '"' || c == '\'' || c == '`'
  }

  /** The one or two characters at a position. */
  function Following(text: string, pos: nat): string
    requires pos < |text|
  {
    if pos + 2 <= |text| then text[pos..pos + 2] else text[pos..]
  }

  /** The state after the character at `pos`, exactly as the loop updates it: each character is looked at on its own,
      and only the end of a comment or of a quotation is skipped with it. */
  function NextMode(text: string, pos: nat, mode: Mode): Mode
    requires pos < |text|
  {
    var c, two := text[pos], Following(text, pos);
    match mode
    case Line => if c == '\n' then Code else Line
    case Block => if two == "*/" then Code else Block
    case Quoted(quote, escape) =>
      if escape then Quoted(quote, false)
      else if c == '\\' && quote != '`' then Quoted(quote, true)
      else if c == quote then Code
      else mode
    case Code =>
      if two == "//" then Line
      else if two == "/*" then Block
      else if IsQuote(c) then Quoted(c, false)
      else Code
  }

  /** The character at `pos` counts: it is code, and it opens neither a comment nor a quotation. */
  predicate Counts(text: string, pos: nat, mode: Mode)
    requires pos < |text|
  {
    mode.Code? && Following(text, pos) != "//" && Following(text, pos) != "/*" && !IsQuote(text[pos])
  }

  function Change(text: string, pos: nat, mode: Mode, opener: char, closer: char): int
    requires pos < |text|
  {
    if !Counts(text, pos, mode) then 0 else if text[pos] == opener then 1 else if text[pos] == closer then -1 else 0
  }

  /** Lexer state and nesting depth before the character at `pos`, for a scan that begins at `start`. */
  function ModeAt(text: string, start: nat, pos: nat): Mode
    requires start <= pos <= |text|
  {
    if pos == start then Code else NextMode(text, pos - 1, ModeAt(text, start, pos - 1))
  }

  function DepthAt(text: string, start: nat, pos: nat, opener: char, closer: char): int
    requires start <= pos <= |text|
  {
    if pos == start then 0
    else DepthAt(text, start, pos - 1, opener, closer)
         + Change(text, pos - 1, ModeAt(text, start, pos - 1), opener, closer)
  }

  /** A closing bracket at `pos` brings the depth back to zero. */
  predicate Closes(text: string, start: nat, pos: nat, opener: char, closer: char)
    requires start <= pos < |text|
  {
    && Change(text, pos, ModeAt(text, start, pos), opener, closer) == -1
    && DepthAt(text, start, pos + 1, opener, closer) == 0
  }

  predicate NeverCloses(text: string, start: nat, end: nat, opener: char, closer: char)
    requires start <= end <= |text|
  {
    forall pos | start <= pos < end :: !Closes(text, start, pos, opener, closer)
  }

  /** Returns the shortest slice from `start` whose closing bracket brings the depth back to zero. */
  method Span(text: string, start: nat, opener: char, closer: char) returns (r: Result<string>)
    ensures r.Ok? ==>
              && 0 < |r.value| && start + |r.value| <= |text| && r.value == text[start..start + |r.value|]
              && text[start] == opener
              && Closes(text, start, start + |r.value| - 1, opener, closer)
              && NeverCloses(text, start, start + |r.value| - 1, opener, closer)
    ensures r.Refused? ==>
              start >= |text| || text[start] != opener || NeverCloses(text, start, |text|, opener, closer)
  {
    hide NextMode, Change, Counts, Following;
    if start >= |text| || text[start] != opener {
      return Refused;
    }
    var depth, mode := 0, Code;
    for pos := start to |text|
      invariant mode == ModeAt(text, start, pos) && depth == DepthAt(text, start, pos, opener, closer)
      invariant NeverCloses(text, start, pos, opener, closer)
    {
      var change := Change(text, pos, mode, opener, closer);
      mode, depth := NextMode(text, pos, mode), depth + change;
      if change == -1 && depth == 0 {
        return Ok(text[start..pos + 1]);
      }
    }
    r := Refused;
  }

  /** Brackets that the lexer gives no other meaning. */
  predicate Brackets(opener: char, closer: char) {
    opener != closer && !IsQuote(opener) && !IsQuote(closer) && opener != '/' && closer != '/'
  }

  /** For brackets, what `Span` returns is balanced, and no shorter beginning of it is: the depth is positive at every
      position inside it and zero at its end. */
  lemma {:induction false} InsideIsNested(text: string, start: nat, pos: nat, opener: char, closer: char)
    requires start < pos <= |text| && Brackets(opener, closer) && text[start] == opener
    requires NeverCloses(text, start, pos, opener, closer)
    ensures DepthAt(text, start, pos, opener, closer) > 0
  {
    if pos == start + 1 {
      assert DepthAt(text, start, start, opener, closer) == 0;
      assert Following(text, start)[0] == opener;
    } else {
      InsideIsNested(text, start, pos - 1, opener, closer);
      assert !Closes(text, start, pos - 1, opener, closer);
    }
  }

  // ----- Go's own lexical structure

  /** As `Mode`, with the second characters of the comment brackets told apart. */
  datatype GoMode = GoCode | GoLine | GoBlock | Opening | Closing | GoQuoted(quote: char, escape: bool)

  /** In Go, both characters of a comment bracket belong to it. */
  function NextGo(text: string, pos: nat, mode: GoMode): GoMode
    requires pos < |text|
  {
    var c, two := text[pos], Following(text, pos);
    match mode
    case GoLine => if c == '\n' then GoCode else GoLine
    case Opening => GoBlock
    case GoBlock => if two == "*/" then Closing else GoBlock
    case Closing => GoCode
    case GoQuoted(quote, escape) =>
      if escape then GoQuoted(quote, false)
      else if c == '\\' && quote != '`' then GoQuoted(quote, true)
      else if c == quote then GoCode
      else mode
    case GoCode =>
      if two == "//" then GoLine
      else if two == "/*" then Opening
      else if IsQuote(c) then GoQuoted(c, false)
      else GoCode
  }

  function GoAt(text: string, start: nat, pos: nat): GoMode
    requires start <= pos <= |text|
  {
    if pos == start then GoCode else NextGo(text, pos - 1, GoAt(text, start, pos - 1))
  }

  function GoDepth(text: string, start: nat, pos: nat, opener: char, closer: char): int
    requires start <= pos <= |text|
  {
    if pos == start then 0
    else GoDepth(text, start, pos - 1, opener, closer)
         + if !GoCounts(text, pos - 1, GoAt(text, start, pos - 1)) then 0
           else if text[pos - 1] == opener then 1 else if text[pos - 1] == closer then -1 else 0
  }

  predicate GoCounts(text: string, pos: nat, mode: GoMode)
    requires pos < |text|
  {
    mode.GoCode? && Following(text, pos) != "//" && Following(text, pos) != "/*" && !IsQuote(text[pos])
  }

  /** The second character of a comment bracket is also the first of another one: the star of an opening bracket
      before a slash, or the slash of a closing one before a slash or a star. */
  predicate Overlap(text: string, start: nat, pos: nat)
    requires start <= pos < |text|
  {
    match GoAt(text, start, pos)
    case Opening => Following(text, pos) == "*/"
    case Closing => Following(text, pos) == "//" || Following(text, pos) == "/*"
    case _ => false
  }

  predicate NoOverlap(text: string, start: nat, end: nat)
    requires start <= end <= |text|
  {
    forall pos | start <= pos < end :: !Overlap(text, start, pos)
  }

  function Seen(mode: GoMode): Mode {
    match mode
    case GoCode => Code
    case Closing => Code
    case GoLine => Line
    case GoBlock => Block
    case Opening => Block
    case GoQuoted(quote, escape) => Quoted(quote, escape)
  }

  /** The second character of a comment bracket is what it must be. */
  lemma {:induction false} SecondCharacter(text: string, start: nat, pos: nat)
    requires start <= pos < |text|
    ensures GoAt(text, start, pos).Opening? ==> text[pos] == '*'
    ensures GoAt(text, start, pos).Closing? ==> text[pos] == '/'
  {
    if pos > start {
      var two := Following(text, pos - 1);
      assert two == text[pos - 1..pos + 1] && two[1] == text[pos];
    }
  }

  /** Where no comment brackets overlap, the loop follows Go's lexical structure and counts the same depth. */
  lemma {:induction false} ScansAsGo(text: string, start: nat, pos: nat, opener: char, closer: char)
    requires start <= pos <= |text| && Brackets(opener, closer) && NoOverlap(text, start, pos)
    ensures ModeAt(text, start, pos) == Seen(GoAt(text, start, pos))
    ensures DepthAt(text, start, pos, opener, closer) == GoDepth(text, start, pos, opener, closer)
  {
    if pos > start {
      ScansAsGo(text, start, pos - 1, opener, closer);
      SecondCharacter(text, start, pos - 1);
      assert !Overlap(text, start, pos - 1);
    }
  }

  predicate Agrees(text: string, start: nat, pos: nat)
    requires start <= pos <= |text|
  {
    ModeAt(text, start, pos) == Seen(GoAt(text, start, pos))
  }

  /** The loop's state is Go's everywhere exactly if no comment brackets overlap. */
  lemma ScansAsGoExactly(text: string, start: nat, end: nat)
    requires start <= end <= |text|
    ensures NoOverlap(text, start, end) <==> forall pos | start <= pos <= end :: Agrees(text, start, pos)
  {
    if NoOverlap(text, start, end) {
      forall pos | start <= pos <= end ensures Agrees(text, start, pos) {
        ScansAsGo(text, start, pos, '{', '}');
      }
    } else {
      var pos :| start <= pos < end && Overlap(text, start, pos);
      OverlapDiverges(text, start, pos);
    }
  }

  lemma OverlapDiverges(text: string, start: nat, pos: nat)
    requires start <= pos < |text| && Overlap(text, start, pos)
    ensures !(Agrees(text, start, pos) && Agrees(text, start, pos + 1))
  {
    if Agrees(text, start, pos) {
      assert ModeAt(text, start, pos + 1) == NextMode(text, pos, ModeAt(text, start, pos));
    }
  }

  lemma Two(text: string, pos: nat)
    requires pos + 2 <= |text|
    ensures Following(text, pos) == [text[pos], text[pos + 1]]
  {
  }

  /** Where they overlap it need not: here the loop takes the comment to end at its own opening bracket and returns a
      slice that Go would not close. */
  lemma OverlapMisleads()
    ensures var text := "{/*/}*/}";
            && Closes(text, 0, 4, '{', '}') && NeverCloses(text, 0, 4, '{', '}')
            && GoDepth(text, 0, 5, '{', '}') == 1 && GoDepth(text, 0, 8, '{', '}') == 0 && Overlap(text, 0, 2)
  {
    var text := "{/*/}*/}";
    LoopOverlap(text);
    GoOverlap(text);
  }

  lemma LoopOverlap(text: string)
    requires text == "{/*/}*/}"
    ensures Closes(text, 0, 4, '{', '}') && NeverCloses(text, 0, 4, '{', '}')
  {
    Two(text, 0);
    Two(text, 1);
    Two(text, 2);
    Two(text, 3);
    Two(text, 4);
    assert ModeAt(text, 0, 1) == Code && DepthAt(text, 0, 1, '{', '}') == 1;
    assert ModeAt(text, 0, 2) == Block && DepthAt(text, 0, 2, '{', '}') == 1;
    assert ModeAt(text, 0, 3) == Code && DepthAt(text, 0, 3, '{', '}') == 1;
    assert ModeAt(text, 0, 4) == Code && DepthAt(text, 0, 4, '{', '}') == 1;
  }

  lemma GoOverlap(text: string)
    requires text == "{/*/}*/}"
    ensures GoDepth(text, 0, 5, '{', '}') == 1 && GoDepth(text, 0, 8, '{', '}') == 0 && Overlap(text, 0, 2)
  {
    Two(text, 0);
    Two(text, 1);
    Two(text, 2);
    Two(text, 3);
    Two(text, 4);
    Two(text, 5);
    Two(text, 6);
    assert GoAt(text, 0, 1) == GoCode && GoDepth(text, 0, 1, '{', '}') == 1;
    assert GoAt(text, 0, 2) == Opening && GoDepth(text, 0, 2, '{', '}') == 1;
    assert GoAt(text, 0, 3) == GoBlock && GoDepth(text, 0, 3, '{', '}') == 1;
    assert GoAt(text, 0, 4) == GoBlock && GoDepth(text, 0, 4, '{', '}') == 1;
    assert GoAt(text, 0, 5) == GoBlock && GoDepth(text, 0, 5, '{', '}') == 1;
    assert GoAt(text, 0, 6) == Closing && GoDepth(text, 0, 6, '{', '}') == 1;
    assert GoAt(text, 0, 7) == GoCode && GoDepth(text, 0, 7, '{', '}') == 1;
  }

  // ----- schema references

  /** A schema: its reference if it has one; `Invalid` stands for a reference that is no string with the prefix. */
  datatype Ref = NoRef | To(name: string) | Invalid

  datatype Schema = Schema(ref: Ref, rest: string)

  type Schemas = map<string, Schema>

  /** The schema after `n` references, if all of them can be followed. */
  function Follow(schemas: Schemas, schema: Schema, n: nat): Option<Schema> {
    if n == 0 then Some(schema)
    else
      var before := Follow(schemas, schema, n - 1);
      if before.Some? && before.value.ref.To? && before.value.ref.name in schemas then
          Some(schemas[before.value.ref.name])
      else None
  }

  /** The chain of references ends, after `n` of them, at a schema that has none. */
  predicate EndsAfter(schemas: Schemas, schema: Schema, n: nat) {
    Follow(schemas, schema, n).Some? && Follow(schemas, schema, n).value.ref.NoRef?
  }

  /** Follows references until there is none; refuses a reference that is invalid, that leads nowhere, or that was
      followed before. It succeeds exactly for chains that end, and returns their end. */
  method ResolveSchema(schemas: Schemas, schema: Schema) returns (r: Result<Schema>)
    ensures r.Ok? <==> exists n: nat :: EndsAfter(schemas, schema, n)
    ensures r.Ok? ==> forall n: nat | EndsAfter(schemas, schema, n) :: Follow(schemas, schema, n) == Some(r.value)
  {
    var current := schema;
    var seen: set<string> := {};
    ghost var n, passed := 0, [];
    while !current.ref.NoRef?
      invariant Follow(schemas, schema, n) == Some(current)
      invariant seen <= schemas.Keys && n == |passed| && (forall name :: name in seen <==> name in passed)
      invariant forall k | 0 <= k < n :: Follow(schemas, schema, k).Some?
                                         && Follow(schemas, schema, k).value.ref == To(passed[k])
      decreases schemas.Keys - seen
    {
      if current.ref.Invalid? || current.ref.name !in schemas {
        StuckNeverEnds(schemas, schema, n);
        return Refused;
      }
      var name := current.ref.name;
      if name in seen {
        ghost var k :| 0 <= k < n && passed[k] == name;
        CycleNeverEnds(schemas, schema, k, n);
        return Refused;
      }
      seen, current := seen + {name}, schemas[name];
      n, passed := n + 1, passed + [name];
    }
    r := Ok(current);
    assert EndsAfter(schemas, schema, n);
    forall m: nat | EndsAfter(schemas, schema, m) ensures m == n {
      OneEnd(schemas, schema, m, n);
    }
  }

  lemma {:induction false} FollowedBefore(schemas: Schemas, schema: Schema, n: nat, m: nat)
    requires n <= m && Follow(schemas, schema, m).Some?
    ensures Follow(schemas, schema, n).Some?
    ensures n < m ==> Follow(schemas, schema, n).value.ref.To?
    decreases m
  {
    if n < m {
      FollowedBefore(schemas, schema, n, m - 1);
    }
  }

  lemma OneEnd(schemas: Schemas, schema: Schema, m: nat, n: nat)
    requires EndsAfter(schemas, schema, m) && EndsAfter(schemas, schema, n)
    ensures m == n
  {
    if m < n {
      FollowedBefore(schemas, schema, m, n);
    } else if n < m {
      FollowedBefore(schemas, schema, n, m);
    }
  }

  lemma StuckNeverEnds(schemas: Schemas, schema: Schema, n: nat)
    requires Follow(schemas, schema, n).Some?
    requires var ref := Follow(schemas, schema, n).value.ref; ref.Invalid? || (ref.To? && ref.name !in schemas)
    ensures !exists m: nat :: EndsAfter(schemas, schema, m)
  {
    forall m: nat ensures !EndsAfter(schemas, schema, m) {
      if EndsAfter(schemas, schema, m) {
        if m <= n {
          FollowedBefore(schemas, schema, m, n);
        } else {
          FollowedBefore(schemas, schema, n + 1, m);
        }
      }
    }
  }

  lemma {:induction false} Repeats(schemas: Schemas, schema: Schema, i: nat, j: nat, m: nat)
    requires Follow(schemas, schema, i + 1) == Follow(schemas, schema, j + 1)
    ensures Follow(schemas, schema, i + 1 + m) == Follow(schemas, schema, j + 1 + m)
  {
    if m > 0 {
      Repeats(schemas, schema, i, j, m - 1);
    }
  }

  lemma CycleNeverEnds(schemas: Schemas, schema: Schema, i: nat, j: nat)
    requires i < j && Follow(schemas, schema, i).Some? && Follow(schemas, schema, j).Some?
    requires Follow(schemas, schema, i).value.ref.To?
    requires Follow(schemas, schema, i).value.ref == Follow(schemas, schema, j).value.ref
    ensures !exists m: nat :: EndsAfter(schemas, schema, m)
  {
    forall m: nat ensures !EndsAfter(schemas, schema, m) {
      if EndsAfter(schemas, schema, m) {
        if m <= j {
          FollowedBefore(schemas, schema, m, j);
        } else {
          Repeats(schemas, schema, i, j, m - j - 1);
          OneEnd(schemas, schema, m - (j - i), m);
        }
      }
    }
  }
}
