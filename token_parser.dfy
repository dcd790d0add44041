/** gosiuml's token configuration reader `parse_token_file`. Lines of the form
    `TOKEN: 0x<id> <type> <zone>` are counted and each becomes a freshly
    allocated token; lines of the form `RELATION: 0x<src> -> 0x<dst> : <type>`
    are recognised and only reported. The two `sscanf` calls are modelled by a
    small interpreter of their directives, following the `fscanf` rules of
    section 7.21.6.2 of ISO/IEC 9899:2011 (C11). */
module TokenParser {
  import opened Options
  import opened PhenoStateMachine

  // ---------------------------------------------------------------------------
  // Characters and digit strings
  // ---------------------------------------------------------------------------

  /** `isspace` in the C locale: space, and tab up to carriage return. */
  predicate IsSpace(c: char) {
    c == ' ' || ('\t' <= c <= '\r')
  }

  predicate IsHexDigit(c: char) {
    ('0' <= c <= '9') || ('a' <= c <= 'f') || ('A' <= c <= 'F')
  }

  predicate IsDecimalDigit(c: char) {
    '0' <= c <= '9'
  }

  function HexDigitValue(c: char): (d: nat)
    requires IsHexDigit(c)
    ensures d < 16
  {
    if '0' <= c <= '9' then c as int - '0' as int
    else if 'a' <= c <= 'f' then c as int - 'a' as int + 10
    else c as int - 'A' as int + 10
  }

  predicate AllHex(ds: string) {
    forall k :: 0 <= k < |ds| ==> IsHexDigit(ds[k])
  }

  predicate AllDecimal(ds: string) {
    forall k :: 0 <= k < |ds| ==> IsDecimalDigit(ds[k])
  }

  /** The number a string of hex digits denotes, most significant digit first. */
  function HexValue(ds: string): nat
    requires AllHex(ds)
  {
    if |ds| == 0 then 0 else 16 * HexValue(ds[..|ds| - 1]) + HexDigitValue(ds[|ds| - 1])
  }

  /** The number a string of decimal digits denotes, most significant digit first. */
  function DecimalValue(ds: string): nat
    requires AllDecimal(ds)
  {
    if |ds| == 0 then 0
    else 10 * DecimalValue(ds[..|ds| - 1]) + (ds[|ds| - 1] as int - '0' as int)
  }

  // ---------------------------------------------------------------------------
  // Runs of characters
  // ---------------------------------------------------------------------------

  /** The first position at or after `i` that does not hold white space. */
  function SkipSpace(s: string, i: nat): (j: nat)
    requires i <= |s|
    ensures i <= j <= |s|
    ensures forall k :: i <= k < j ==> IsSpace(s[k])
    ensures j == |s| || !IsSpace(s[j])
    decreases |s| - i
  {
    if i == |s| || !IsSpace(s[i]) then i else SkipSpace(s, i + 1)
  }

  /** The end of the longest run of hex digits that starts at `i`. */
  function HexRunEnd(s: string, i: nat): (j: nat)
    requires i <= |s|
    ensures i <= j <= |s|
    ensures forall k :: i <= k < j ==> IsHexDigit(s[k])
    ensures j == |s| || !IsHexDigit(s[j])
    decreases |s| - i
  {
    if i == |s| || !IsHexDigit(s[i]) then i else HexRunEnd(s, i + 1)
  }

  /** The end of the longest run of decimal digits that starts at `i`. */
  function DecimalRunEnd(s: string, i: nat): (j: nat)
    requires i <= |s|
    ensures i <= j <= |s|
    ensures forall k :: i <= k < j ==> IsDecimalDigit(s[k])
    ensures j == |s| || !IsDecimalDigit(s[j])
    decreases |s| - i
  {
    if i == |s| || !IsDecimalDigit(s[i]) then i else DecimalRunEnd(s, i + 1)
  }

  /** The end of the longest run of non-white-space characters that starts at `i`. */
  function WordEnd(s: string, i: nat): (j: nat)
    requires i <= |s|
    ensures i <= j <= |s|
    ensures forall k :: i <= k < j ==> !IsSpace(s[k])
    ensures j == |s| || IsSpace(s[j])
    decreases |s| - i
  {
    if i == |s| || IsSpace(s[i]) then i else WordEnd(s, i + 1)
  }

  /** `strstr(s, p) != NULL`: `p` occurs somewhere in `s`. */
  predicate Contains(s: string, p: string)
    decreases |s|
  {
    |p| <= |s| && (s[..|p|] == p || Contains(s[1..], p))
  }

  // ---------------------------------------------------------------------------
  // The scanf directives
  // ---------------------------------------------------------------------------

  /** A directive of a format string: ordinary characters that must appear
      as they are, a run of white space (which matches any amount of input
      white space, none included), `%x` and `%s`. */
  datatype Directive = Literal(text: string) | Space | HexConversion | StringConversion

  /** A format string as its list of directives. */
  datatype Format = Done | Then(head: Directive, rest: Format)

  /** What a conversion reads: a signed hexadecimal magnitude, or a word. */
  datatype Converted = Hex(negative: bool, magnitude: nat) | Word(chars: string)

  /** A conversion and the position just after the characters it consumed. */
  datatype Matched = Matched(value: Converted, end: nat)

  /** `%x` at position `i`: after leading white space, an optional sign, an
      optional `0x` or `0X` prefix, and one or more hex digits (the subject
      sequence of `strtoul` with base 16). A prefix not followed by a hex
      digit, or a sign followed by nothing acceptable, is a matching failure:
      the longest prefix of a matching sequence is then not one itself. */
  function MatchHex(s: string, i: nat): (r: Option<Matched>)
    requires i <= |s|
    ensures r.Some? ==> i < r.value.end <= |s| && r.value.value.Hex?
  {
    var j := SkipSpace(s, i);
    if j < |s| && (s[j] == '+' || s[j] == '-') then HexSubject(s, j + 1, s[j] == '-')
    else HexSubject(s, j, false)
  }

  /** The part of `%x` after the sign. */
  function HexSubject(s: string, k: nat, negative: bool): (r: Option<Matched>)
    requires k <= |s|
    ensures r.Some? ==> k < r.value.end <= |s| && r.value.value.Hex?
  {
    if k + 1 < |s| && s[k] == '0' && (s[k + 1] == 'x' || s[k + 1] == 'X') then
      if k + 2 < |s| && IsHexDigit(s[k + 2]) then Some(HexDigitsFrom(s, k + 2, negative)) else None
    else if k < |s| && IsHexDigit(s[k]) then Some(HexDigitsFrom(s, k, negative))
    else None
  }

  /** The longest run of hex digits at `k`, which holds at least one. */
  function HexDigitsFrom(s: string, k: nat, negative: bool): (m: Matched)
    requires k < |s| && IsHexDigit(s[k])
    ensures k < m.end <= |s| && m.value.Hex?
  {
    var e := HexRunEnd(s, k);
    Matched(Hex(negative, HexValue(s[k..e])), e)
  }

  /** `%s` at position `i`: after leading white space, the longest non-empty
      run of non-white-space characters. */
  function MatchWord(s: string, i: nat): (r: Option<Matched>)
    requires i <= |s|
    ensures r.Some? ==> i < r.value.end <= |s| && r.value.value.Word? && IsWord(r.value.value.chars)
  {
    var j := SkipSpace(s, i);
    if j == |s| then None
    else
      var e := WordEnd(s, j);
      Some(Matched(Word(s[j..e]), e))
  }

  /** A non-empty string without white space: what `%s` stores. */
  predicate IsWord(w: string) {
    |w| > 0 && forall k :: 0 <= k < |w| ==> !IsSpace(w[k])
  }

  /** The conversions `sscanf(s + i, fmt, ...)` completes, in order, before
      the first directive that fails; their number is what `sscanf` returns
      when it returns a non-negative count. */
  function Scan(fmt: Format, s: string, i: nat): (vs: seq<Converted>)
    requires i <= |s|
  {
    match fmt
    case Done => []
    case Then(d, rest) =>
      match d
      case Literal(t) =>
        if i + |t| <= |s| && s[i..i + |t|] == t then Scan(rest, s, i + |t|) else []
      case Space => Scan(rest, s, SkipSpace(s, i))
      case HexConversion =>
        (match MatchHex(s, i)
         case None => []
         case Some(m) => [m.value] + Scan(rest, s, m.end))
      case StringConversion =>
        (match MatchWord(s, i)
         case None => []
         case Some(m) => [m.value] + Scan(rest, s, m.end))
  }

  /** For each conversion directive in order, whether it is `%x`. */
  function HexKinds(fmt: Format): seq<bool> {
    match fmt
    case Done => []
    case Then(HexConversion, rest) => [true] + HexKinds(rest)
    case Then(StringConversion, rest) => [false] + HexKinds(rest)
    case Then(_, rest) => HexKinds(rest)
  }

  /** The k-th value `Scan` yields comes from the k-th conversion directive:
      a number for `%x`, a word for `%s`. */
  lemma {:induction false} ScanKinds(fmt: Format, s: string, i: nat)
    requires i <= |s|
    ensures |Scan(fmt, s, i)| <= |HexKinds(fmt)|
    ensures forall k :: 0 <= k < |Scan(fmt, s, i)| ==>
              (Scan(fmt, s, i)[k].Hex? <==> HexKinds(fmt)[k])
  {
    match fmt
    case Done =>
    case Then(d, rest) =>
      match d
      case Literal(t) =>
        if i + |t| <= |s| && s[i..i + |t|] == t { ScanKinds(rest, s, i + |t|); }
      case Space => ScanKinds(rest, s, SkipSpace(s, i));
      case HexConversion =>
        var m := MatchHex(s, i);
        if m.Some? {
          ScanKinds(rest, s, m.value.end);
          ConsKinds(m.value.value, Scan(rest, s, m.value.end), true, HexKinds(rest));
        }
      case StringConversion =>
        var m := MatchWord(s, i);
        if m.Some? {
          ScanKinds(rest, s, m.value.end);
          ConsKinds(m.value.value, Scan(rest, s, m.value.end), false, HexKinds(rest));
        }
  }

  lemma ConsKinds(v: Converted, vs: seq<Converted>, b: bool, bs: seq<bool>)
    requires |vs| <= |bs| && (v.Hex? <==> b)
    requires forall k :: 0 <= k < |vs| ==> (vs[k].Hex? <==> bs[k])
    ensures |[v] + vs| <= |[b] + bs|
    ensures forall k :: 0 <= k < |[v] + vs| ==> (([v] + vs)[k].Hex? <==> ([b] + bs)[k])
  {
    forall k | 0 <= k < |[v] + vs|
      ensures ([v] + vs)[k].Hex? <==> ([b] + bs)[k]
    {
      if k > 0 { assert ([v] + vs)[k] == vs[k - 1] && ([b] + bs)[k] == bs[k - 1]; }
    }
  }

  /** `"TOKEN: 0x%x %s %s"`. */
  const TOKEN_FORMAT: Format :=
    Then(Literal("TOKEN:"), Then(Space, Then(Literal("0x"), Then(HexConversion,
    Then(Space, Then(StringConversion, Then(Space, Then(StringConversion, Done))))))))

  /** `"RELATION: 0x%x -> 0x%x : %s"`. */
  const RELATION_FORMAT: Format :=
    Then(Literal("RELATION:"), Then(Space, Then(Literal("0x"), Then(HexConversion,
    Then(Space, Then(Literal("->"), Then(Space, Then(Literal("0x"), Then(HexConversion,
    Then(Space, Then(Literal(":"), Then(Space, Then(StringConversion, Done)))))))))))))

  lemma FormatKinds()
    ensures HexKinds(TOKEN_FORMAT) == [true, false, false]
    ensures HexKinds(RELATION_FORMAT) == [true, true, false]
  {
  }

  // ---------------------------------------------------------------------------
  // What the parser stores
  // ---------------------------------------------------------------------------

  /** The value a `%x` conversion stores in a `uint32_t`, as glibc does it:
      the numeral goes through `strtoul` on a 64-bit `unsigned long`, which
      saturates at 2^64 - 1 when the magnitude does not fit and otherwise
      negates modulo 2^64 for a minus sign; the store into `unsigned int`
      then keeps the low 32 bits. */
  function Stored32(c: Converted): bv32
    requires c.Hex?
  {
    if c.magnitude >= ULONG_LIMIT then 0xFFFF_FFFF
    else if !c.negative && c.magnitude < 0x1_0000_0000 then c.magnitude as bv32
    else
      var m: int := c.magnitude % 0x1_0000_0000;
      ((if c.negative then -m else m) % 0x1_0000_0000) as bv32
  }

  /** 2^64: the first magnitude `strtoul` cannot represent. */
  const ULONG_LIMIT: int := 0x1_0000_0000_0000_0000

  /** `atoi`: leading white space, an optional sign and the longest run of
      decimal digits; 0 when there are no digits. */
  function Atoi(w: string): int {
    var j := SkipSpace(w, 0);
    var negative := j < |w| && w[j] == '-';
    var k := if j < |w| && (w[j] == '-' || w[j] == '+') then j + 1 else j;
    var e := DecimalRunEnd(w, k);
    var m: int := DecimalValue(w[k..e]);
    if negative then -m else m
  }

  /** glibc's `atoi` is `(int) strtol(w, NULL, 10)`: the value saturates at
      the bounds of a 64-bit `long`. */
  function Strtol(w: string): (r: int)
    ensures -LONG_LIMIT <= r < LONG_LIMIT
    ensures -LONG_LIMIT <= Atoi(w) < LONG_LIMIT ==> r == Atoi(w)
  {
    var n := Atoi(w);
    if n >= LONG_LIMIT then LONG_LIMIT - 1
    else if n < -LONG_LIMIT then -LONG_LIMIT
    else n
  }

  /** 2^63: `long` holds -2^63 up to 2^63 - 1. */
  const LONG_LIMIT: int := 0x8000_0000_0000_0000

  /** `memory_zone = atoi(zone)`: the narrowing to `int` and then to
      `uint8_t` keeps the saturated `strtol` value modulo 256. */
  function ZoneByte(w: string): bv8 {
    (Strtol(w) % 256) as bv8
  }

  /** A zone numeral too large for a `long` stores 0xFF, one too small
      stores 0, and an id numeral too large for an `unsigned long` stores
      0xFFFFFFFF whatever its sign. */
  lemma SaturatedConversions(w: string, c: Converted)
    requires c.Hex? && c.magnitude >= ULONG_LIMIT
    ensures Atoi(w) >= LONG_LIMIT ==> ZoneByte(w) == 0xFF
    ensures Atoi(w) < -LONG_LIMIT ==> ZoneByte(w) == 0
    ensures Stored32(c) == 0xFFFF_FFFF
  {
    if Atoi(w) >= LONG_LIMIT {
      assert Strtol(w) == LONG_LIMIT - 1;
      assert (LONG_LIMIT - 1) % 256 == 255;
    }
    if Atoi(w) < -LONG_LIMIT {
      assert Strtol(w) == -LONG_LIMIT;
      assert -LONG_LIMIT % 256 == 0;
    }
  }

  /** `strncpy(sentinel, type, 15); sentinel[15] = '\0'`: as a C string, the
      first 15 characters of `type` at most. */
  function SentinelOf(w: string): (s: string)
    ensures |s| <= 15 && s <= w
    ensures |w| <= 15 ==> s == w
  {
    if |w| <= 15 then w else w[..15]
  }

  /** The three values `sscanf(line, "TOKEN: 0x%x %s %s", ...)` stores when
      it returns 3. */
  datatype TokenEntry = TokenEntry(id: bv32, typeName: string, zoneName: string)

  function ScanTokenLine(line: string): Option<TokenEntry> {
    var vs := Scan(TOKEN_FORMAT, line, 0);
    if |vs| == 3 && vs[0].Hex? && vs[1].Word? && vs[2].Word? then
      Some(TokenEntry(Stored32(vs[0]), vs[1].chars, vs[2].chars))
    else None
  }

  /** The entry exists exactly when `sscanf` returns 3. */
  lemma ScanTokenLineIffThree(line: string)
    ensures ScanTokenLine(line).Some? <==> |Scan(TOKEN_FORMAT, line, 0)| == 3
  {
    ScanKinds(TOKEN_FORMAT, line, 0);
    FormatKinds();
  }

  /** The three values `sscanf(line, "RELATION: 0x%x -> 0x%x : %s", ...)`
      stores when it returns 3. */
  datatype RelationEntry = RelationEntry(source: bv32, target: bv32, relationType: string)

  function ScanRelationLine(line: string): Option<RelationEntry> {
    var vs := Scan(RELATION_FORMAT, line, 0);
    if |vs| == 3 && vs[0].Hex? && vs[1].Hex? && vs[2].Word? then
      Some(RelationEntry(Stored32(vs[0]), Stored32(vs[1]), vs[2].chars))
    else None
  }

  /** The entry exists exactly when `sscanf` returns 3. */
  lemma ScanRelationLineIffThree(line: string)
    ensures ScanRelationLine(line).Some? <==> |Scan(RELATION_FORMAT, line, 0)| == 3
  {
    ScanKinds(RELATION_FORMAT, line, 0);
    FormatKinds();
  }

  // ---------------------------------------------------------------------------
  // Lines
  // ---------------------------------------------------------------------------

  /** Comment lines and empty lines are skipped before anything else. */
  predicate Skipped(line: string) {
    |line| > 0 && (line[0] == '#' || line[0] == '\n')
  }

  /** A line that is counted as a token definition. */
  predicate IsTokenLine(line: string) {
    !Skipped(line) && Contains(line, "TOKEN:") && ScanTokenLine(line).Some?
  }

  /** A line that is reported as a relation definition. */
  predicate IsRelationLine(line: string) {
    !Skipped(line) && Contains(line, "RELATION:") && ScanRelationLine(line).Some?
  }

  /** The lines on which `parse_token_file` is defined: what `fgets` returns
      into its 256-byte buffer (one to 255 characters, no NUL), and no `%s`
      word longer than the array it is stored in (`type[32]`, `zone[16]`,
      `rel_type[32]`), however far each `sscanf` gets. */
  predicate Defined(line: string) {
    1 <= |line| <= 255 && (forall k :: 0 <= k < |line| ==> line[k] != '\0') &&
    (!Skipped(line) && Contains(line, "TOKEN:") ==> TokenWordsFit(Scan(TOKEN_FORMAT, line, 0))) &&
    (!Skipped(line) && Contains(line, "RELATION:") ==> RelationWordsFit(Scan(RELATION_FORMAT, line, 0)))
  }

  predicate TokenWordsFit(vs: seq<Converted>) {
    (|vs| >= 2 && vs[1].Word? ==> |vs[1].chars| <= 31) &&
    (|vs| >= 3 && vs[2].Word? ==> |vs[2].chars| <= 15)
  }

  predicate RelationWordsFit(vs: seq<Converted>) {
    |vs| >= 3 && vs[2].Word? ==> |vs[2].chars| <= 31
  }

  /** The number of token lines: what `parse_token_file` returns for a file
      it could open. */
  function CountTokens(lines: seq<string>): nat
    decreases |lines|
  {
    if lines == [] then 0
    else CountTokens(lines[..|lines| - 1]) + (if IsTokenLine(lines[|lines| - 1]) then 1 else 0)
  }

  /** The token a granted allocation holds once the fields of a token line
      are written into it; its flag words stay as the allocator left them. */
  function Stored(a: Allocation, e: TokenEntry): (t: TokenView)
    requires a.Granted?
    ensures t.id == e.id && t.sentinel == SentinelOf(e.typeName) && t.zone == ZoneByte(e.zoneName)
    ensures t.flags == 0 && t.refCount == 0 && t.degradation == 0 && t.owner.None?
  {
    FreshToken(a).value.(id := e.id, sentinel := SentinelOf(e.typeName), zone := ZoneByte(e.zoneName))
  }

  /** The tokens `parse_token_file` allocates and fills, in file order, when
      `allocs[k]` is what the allocator answers to its k-th request. Every token
      line makes one request; lines whose request fails leave no token. */
  function TokenViews(lines: seq<string>, allocs: seq<Allocation>): seq<TokenView>
    requires CountTokens(lines) <= |allocs|
    decreases |lines|
  {
    if lines == [] then []
    else
      var init := lines[..|lines| - 1];
      var line := lines[|lines| - 1];
      if IsTokenLine(line) && allocs[CountTokens(init)].Granted? then
        TokenViews(init, allocs) + [Stored(allocs[CountTokens(init)], ScanTokenLine(line).value)]
      else TokenViews(init, allocs)
  }

  /** `parse_token_file`. The file is `None` when it cannot be opened, and
      otherwise the lines `fgets` returns; `allocs` are the allocator's answers.
      Returns the count and, as the C leaves them allocated, the tokens made. */
  method ParseTokenFile(file: Option<seq<string>>, allocs: seq<Allocation>)
    returns (count: int, tokens: seq<Token>)
    requires file.Some? ==> forall k :: 0 <= k < |file.value| ==> Defined(file.value[k])
    requires file.Some? ==> CountTokens(file.value) <= |allocs|
    ensures file.None? ==> count == -1 && tokens == []
    ensures file.Some? ==> count == CountTokens(file.value)
    ensures file.Some? ==> |tokens| == |TokenViews(file.value, allocs)|
    ensures file.Some? ==> forall k :: 0 <= k < |tokens| ==> tokens[k].View() == TokenViews(file.value, allocs)[k]
    ensures forall k :: 0 <= k < |tokens| ==> fresh(tokens[k]) && fresh(tokens[k].mem)
  {
    if file.None? {
      return -1, [];
    }
    count, tokens := ReadLines(file.value, allocs);
  }

  /** The reading loop of `parse_token_file` over the lines of an opened file. */
  method ReadLines(lines: seq<string>, allocs: seq<Allocation>) returns (count: nat, tokens: seq<Token>)
    requires forall k :: 0 <= k < |lines| ==> |lines[k]| > 0
    requires CountTokens(lines) <= |allocs|
    ensures count == CountTokens(lines)
    ensures |tokens| == |TokenViews(lines, allocs)|
    ensures forall k :: 0 <= k < |tokens| ==> tokens[k].View() == TokenViews(lines, allocs)[k]
    ensures forall k :: 0 <= k < |tokens| ==> fresh(tokens[k]) && fresh(tokens[k].mem)
  {
    count := 0;
    tokens := [];
    var i := 0;
    ghost var views: seq<TokenView> := [];
    while i < |lines|
      invariant 0 <= i <= |lines|
      invariant count == CountTokens(lines[..i]) <= |allocs|
      invariant views == TokenViews(lines[..i], allocs)
      invariant |tokens| == |views|
      invariant forall k :: 0 <= k < |tokens| ==> tokens[k].View() == views[k]
      invariant forall k :: 0 <= k < |tokens| ==> fresh(tokens[k]) && fresh(tokens[k].mem)
    {
      CountTokensMonotone(lines, i + 1);
      count, tokens, views := ReadLine(lines, allocs, i, count, tokens, views);
      i := i + 1;
    }
    assert lines[..|lines|] == lines;
  }

  /** One pass of the reading loop, on line `i`: the count and the tokens
      so far for the lines before it become those for the lines up to it. */
  method ReadLine(lines: seq<string>, allocs: seq<Allocation>, i: nat, count: nat, tokens: seq<Token>,
                  ghost views: seq<TokenView>)
    returns (count': nat, tokens': seq<Token>, ghost views': seq<TokenView>)
    requires i < |lines| && |lines[i]| > 0 && CountTokens(lines[..i + 1]) <= |allocs|
    requires count == CountTokens(lines[..i]) <= |allocs|
    requires views == TokenViews(lines[..i], allocs)
    requires |tokens| == |views|
    requires forall k :: 0 <= k < |tokens| ==> tokens[k].View() == views[k]
    ensures count' == CountTokens(lines[..i + 1])
    ensures views' == TokenViews(lines[..i + 1], allocs)
    ensures |tokens'| == |views'|
    ensures forall k :: 0 <= k < |tokens'| ==> tokens'[k].View() == views'[k]
    ensures forall k :: 0 <= k < |tokens'| ==> tokens'[k] in tokens || (fresh(tokens'[k]) && fresh(tokens'[k].mem))
  {
    TokenViewsPrefix(lines, allocs, i);
    var counted, token := ParseLine(lines[i], allocs, count);
    count' := if counted then count + 1 else count;
    if token == null {
      tokens', views' := tokens, views;
    } else {
      tokens', views' := tokens + [token], views + [token.View()];
    }
  }

  /** One pass of the reading loop: whether the line is counted, and the
      token made for it, if any. `count` is the number of requests made so
      far, so a counted line asks the allocator for `allocs[count]`. Relation
      lines are only reported, so they take no part here. */
  method ParseLine(line: string, allocs: seq<Allocation>, count: nat) returns (counted: bool, token: Token?)
    requires |line| > 0
    requires IsTokenLine(line) ==> count < |allocs|
    ensures counted == IsTokenLine(line)
    ensures token == null <==> !counted || allocs[count].Exhausted?
    ensures token != null ==>
              fresh(token) && fresh(token.mem) && token.View() == Stored(allocs[count], ScanTokenLine(line).value)
  {
    counted := false;
    token := null;
    if !(line[0] == '#' || line[0] == '\n') && Contains(line, "TOKEN:") {
      var entry := ScanTokenLine(line);
      if entry.Some? {
        counted := true;
        token := MakeToken(entry.value, allocs[count]);
      }
    }
  }

  /** The body of a matched token line: `pheno_token_alloc` and, when it
      succeeds, the three field assignments. */
  method MakeToken(e: TokenEntry, alloc: Allocation) returns (token: Token?)
    ensures token == null <==> alloc.Exhausted?
    ensures token != null ==> fresh(token) && fresh(token.mem) && token.View() == Stored(alloc, e)
  {
    token := AllocToken(alloc);
    if token != null {
      token.tokenId := e.id;
      token.sentinel := SentinelOf(e.typeName);
      token.memoryZone := ZoneByte(e.zoneName);
    }
  }

  lemma TokenViewsPrefix(lines: seq<string>, allocs: seq<Allocation>, i: nat)
    requires i < |lines| && CountTokens(lines[..i + 1]) <= |allocs|
    ensures CountTokens(lines[..i + 1]) == CountTokens(lines[..i]) + (if IsTokenLine(lines[i]) then 1 else 0)
    ensures TokenViews(lines[..i + 1], allocs)
            == TokenViews(lines[..i], allocs) +
               (if IsTokenLine(lines[i]) && allocs[CountTokens(lines[..i])].Granted?
                then [Stored(allocs[CountTokens(lines[..i])], ScanTokenLine(lines[i]).value)]
                else [])
  {
    CountTokensPrefix(lines, i);
  }

  /** A prefix of the file holds at most as many token lines as the file. */
  lemma {:induction false} CountTokensMonotone(lines: seq<string>, i: nat)
    requires i <= |lines|
    ensures CountTokens(lines[..i]) <= CountTokens(lines)
    decreases |lines| - i
  {
    if i < |lines| {
      CountTokensPrefix(lines, i);
      CountTokensMonotone(lines, i + 1);
      if i + 1 == |lines| { assert lines[..i + 1] == lines; }
    } else {
      assert lines[..i] == lines;
    }
  }

  /** One more line extends the count of a prefix by that line's contribution. */
  lemma CountTokensPrefix(lines: seq<string>, i: nat)
    requires i < |lines|
    ensures lines[..i + 1][..i] == lines[..i] && lines[..i + 1][i] == lines[i]
    ensures CountTokens(lines[..i + 1]) == CountTokens(lines[..i]) + (if IsTokenLine(lines[i]) then 1 else 0)
  {
    assert lines[..i + 1][..i] == lines[..i];
  }

  // ---------------------------------------------------------------------------
  // Properties of the line classification
  // ---------------------------------------------------------------------------

  /** Whatever `Scan` yields for a format opening with ordinary characters was
      read after those characters, found at the very start of the line. */
  lemma ScanOpensWithLiteral(t: string, rest: Format, s: string)
    requires |Scan(Then(Literal(t), rest), s, 0)| > 0
    ensures |t| <= |s| && s[..|t|] == t
  {
  }

  /** A line is counted exactly when `"TOKEN: 0x%x %s %s"` completes all three
      conversions on it: such a line opens with `TOKEN:`, so it is neither a
      comment nor empty, and `strstr` finds the marker. */
  lemma TokenLineIffFullMatch(line: string)
    ensures IsTokenLine(line) <==> |Scan(TOKEN_FORMAT, line, 0)| == 3
  {
    ScanTokenLineIffThree(line);
    if |Scan(TOKEN_FORMAT, line, 0)| == 3 {
      ScanOpensWithLiteral("TOKEN:", TOKEN_FORMAT.rest, line);
      assert line[0] == "TOKEN:"[0];
    }
  }

  /** An indented line passes the `strstr` test but is not counted: the
      format's ordinary characters must match from the first character. */
  lemma IndentedTokenLineNotCounted(line: string)
    requires 7 <= |line| && IsSpace(line[0]) && line[1..7] == "TOKEN:"
    ensures Contains(line, "TOKEN:")
    ensures !IsTokenLine(line)
  {
    assert line[1..][..6] == "TOKEN:";
  }

  /** A relation line is never a token line, so relation lines never change
      the count. */
  lemma RelationLineNotCounted(lines: seq<string>, line: string)
    requires IsRelationLine(line)
    ensures !IsTokenLine(line)
    ensures CountTokens(lines + [line]) == CountTokens(lines)
  {
    ScanRelationLineIffThree(line);
    ScanTokenLineIffThree(line);
    ScanOpensWithLiteral("RELATION:", RELATION_FORMAT.rest, line);
    if |Scan(TOKEN_FORMAT, line, 0)| > 0 {
      ScanOpensWithLiteral("TOKEN:", TOKEN_FORMAT.rest, line);
    }
    assert (lines + [line])[..|lines|] == lines;
  }

  /** Each line adds its own contribution to the count. */
  lemma CountTokensAppend(lines: seq<string>, more: seq<string>)
    ensures CountTokens(lines + more) == CountTokens(lines) + CountTokens(more)
    decreases |more|
  {
    if more != [] {
      var init := more[..|more| - 1];
      assert (lines + more)[..|lines + more| - 1] == lines + init;
      CountTokensAppend(lines, init);
    } else {
      assert lines + more == lines;
    }
  }

  /** Comment and empty lines never count. */
  lemma SkippedLineNotCounted(lines: seq<string>, line: string)
    requires Skipped(line)
    ensures CountTokens(lines + [line]) == CountTokens(lines)
  {
    assert (lines + [line])[..|lines|] == lines;
  }

  /** The count does not depend on allocation: at most one token per counted
      line is made, and exactly one when the allocator never fails. */
  lemma {:induction false} TokensAtMostCount(lines: seq<string>, allocs: seq<Allocation>)
    requires CountTokens(lines) <= |allocs|
    ensures |TokenViews(lines, allocs)| <= CountTokens(lines)
    ensures (forall k :: 0 <= k < |allocs| ==> allocs[k].Granted?) ==>
              |TokenViews(lines, allocs)| == CountTokens(lines)
    decreases |lines|
  {
    if lines != [] {
      TokensAtMostCount(lines[..|lines| - 1], allocs);
    }
  }

  // ---------------------------------------------------------------------------
  // Round trip
  // ---------------------------------------------------------------------------

  function LowerHexDigit(d: nat): (c: char)
    requires d < 16
    ensures IsHexDigit(c) && HexDigitValue(c) == d && !IsSpace(c)
  {
    if d < 10 then ('0' as int + d) as char else ('a' as int + d - 10) as char
  }

  /** The digits `printf("%x", n)` writes. */
  function HexNumeral(n: nat): (s: string)
    ensures |s| >= 1 && AllHex(s)
    ensures s[0] == '0' ==> n == 0 && s == "0"
  {
    if n < 16 then [LowerHexDigit(n)] else HexNumeral(n / 16) + [LowerHexDigit(n % 16)]
  }

  lemma {:induction false} HexNumeralValue(n: nat)
    ensures HexValue(HexNumeral(n)) == n
  {
    if n >= 16 {
      var s := HexNumeral(n);
      assert s[..|s| - 1] == HexNumeral(n / 16);
      HexNumeralValue(n / 16);
    }
  }

  /** The line `fprintf(f, "TOKEN: 0x%x %s %s\n", id, type, zone)` writes. */
  function TokenLineText(id: bv32, typeName: string, zoneName: string): string {
    "TOKEN: 0x" + (HexNumeral(id as nat) + TokenLineTail(typeName, zoneName))
  }

  function TokenLineTail(typeName: string, zoneName: string): string {
    " " + typeName + " " + zoneName + "\n"
  }

  /** The run of hex digits at `i` ends exactly where the digits `ds` end. */
  lemma {:induction false} HexRunAt(s: string, i: nat, ds: string)
    requires i + |ds| < |s| && s[i..i + |ds|] == ds && AllHex(ds) && !IsHexDigit(s[i + |ds|])
    ensures HexRunEnd(s, i) == i + |ds|
    decreases |ds|
  {
    if |ds| > 0 {
      assert s[i] == ds[0];
      assert s[i + 1..i + |ds|] == ds[1..];
      HexRunAt(s, i + 1, ds[1..]);
    }
  }

  /** The word at `i` ends exactly where the word `w` ends. */
  lemma {:induction false} WordAt(s: string, i: nat, w: string)
    requires i + |w| < |s| && s[i..i + |w|] == w && IsSpace(s[i + |w|])
    requires forall k :: 0 <= k < |w| ==> !IsSpace(w[k])
    ensures WordEnd(s, i) == i + |w|
    decreases |w|
  {
    if |w| > 0 {
      assert s[i] == w[0];
      assert s[i + 1..i + |w|] == w[1..];
      WordAt(s, i + 1, w[1..]);
    }
  }

  /** `%x` reads back a run of hex digits that is neither signed nor
      prefixed, and is followed by a character that is not a hex digit. */
  lemma MatchHexAt(s: string, i: nat, ds: string)
    requires i + |ds| < |s| && s[i..i + |ds|] == ds && AllHex(ds) && |ds| > 0
    requires !IsHexDigit(s[i + |ds|]) && (ds[0] == '0' ==> |ds| == 1)
    requires s[i + |ds|] != 'x' && s[i + |ds|] != 'X'
    ensures MatchHex(s, i) == Some(Matched(Hex(false, HexValue(ds)), i + |ds|))
  {
    assert s[i] == ds[0];
    if ds[0] == '0' {
      assert s[i + 1] == s[i + |ds|];
    }
    MatchUnprefixedHex(s, i);
    HexDigitsAt(s, i, ds);
  }

  /** A hex digit that does not open a `0x` prefix starts the subject sequence. */
  lemma MatchUnprefixedHex(s: string, i: nat)
    requires i < |s| && IsHexDigit(s[i])
    requires !(i + 1 < |s| && s[i] == '0' && (s[i + 1] == 'x' || s[i + 1] == 'X'))
    ensures MatchHex(s, i) == Some(HexDigitsFrom(s, i, false))
  {
    assert SkipSpace(s, i) == i;
  }

  /** The digits read from `i` are exactly `ds`. */
  lemma HexDigitsAt(s: string, i: nat, ds: string)
    requires i + |ds| < |s| && s[i..i + |ds|] == ds && AllHex(ds) && |ds| > 0
    requires !IsHexDigit(s[i + |ds|])
    ensures HexDigitsFrom(s, i, false) == Matched(Hex(false, HexValue(ds)), i + |ds|)
  {
    HexRunAt(s, i, ds);
  }

  /** `%s` reads back a word followed by white space. */
  lemma MatchWordAt(s: string, i: nat, w: string)
    requires i + |w| < |s| && s[i..i + |w|] == w && IsWord(w) && IsSpace(s[i + |w|])
    ensures MatchWord(s, i) == Some(Matched(Word(w), i + |w|))
  {
    assert s[i] == w[0];
    WordAt(s, i, w);
  }

  /** Reading back a written token line yields the id and the two words. */
  lemma TokenLineRoundTrip(id: bv32, typeName: string, zoneName: string)
    requires IsWord(typeName) && IsWord(zoneName)
    ensures ScanTokenLine(TokenLineText(id, typeName, zoneName)) == Some(TokenEntry(id, typeName, zoneName))
    ensures IsTokenLine(TokenLineText(id, typeName, zoneName))
  {
    var s := TokenLineText(id, typeName, zoneName);
    TokenLineScan(id, typeName, zoneName);
    assert Stored32(Hex(false, id as nat)) == id;
    TokenLineIffFullMatch(s);
  }

  /** The three conversions of a written token line. */
  lemma TokenLineScan(id: bv32, typeName: string, zoneName: string)
    requires IsWord(typeName) && IsWord(zoneName)
    ensures Scan(TOKEN_FORMAT, TokenLineText(id, typeName, zoneName), 0)
            == [Hex(false, id as nat), Word(typeName), Word(zoneName)]
  {
    HexNumeralValue(id as nat);
    TokenTextScan(TokenLineText(id, typeName, zoneName), HexNumeral(id as nat), typeName, zoneName);
  }

  /** The three conversions of `TOKEN: 0x`, hex digits without a leading zero,
      and `" type zone\n"`. */
  lemma TokenTextScan(s: string, h: string, typeName: string, zoneName: string)
    requires AllHex(h) && |h| > 0 && (h[0] == '0' ==> |h| == 1)
    requires s == "TOKEN: 0x" + (h + TokenLineTail(typeName, zoneName))
    requires IsWord(typeName) && IsWord(zoneName)
    ensures Scan(TOKEN_FORMAT, s, 0) == [Hex(false, HexValue(h)), Word(typeName), Word(zoneName)]
  {
    var tail := TokenLineTail(typeName, zoneName);
    SuffixOfConcat("TOKEN: 0x", h, tail);
    TokenTailScan(s, 9 + |h|, typeName, zoneName);
    HeadScan(s, h, tail);
    ScanTokenParts(s, 9 + |h|, Hex(false, HexValue(h)), Word(typeName), Word(zoneName));
  }

  /** `"TOKEN: 0x%x %s %s"` on a line opening with `TOKEN:`, white space and
      `0x`, whose `%x` ends at `p`. */
  lemma ScanTokenParts(s: string, p: nat, v: Converted, w1: Converted, w2: Converted)
    requires 9 <= |s| && s[0..6] == "TOKEN:" && SkipSpace(s, 6) == 7 && s[7..9] == "0x"
    requires MatchHex(s, 9) == Some(Matched(v, p))
    requires Scan(TOKEN_FORMAT.rest.rest.rest.rest, s, p) == [w1, w2]
    ensures Scan(TOKEN_FORMAT, s, 0) == [v, w1, w2]
  {
    var f4 := TOKEN_FORMAT.rest.rest.rest.rest;
    var f3 := Then(HexConversion, f4);
    var f2 := Then(Literal("0x"), f3);
    var f1 := Then(Space, f2);
    ScanHexStep(f4, s, 9, Matched(v, p));
    ScanLiteralStep("0x", f3, s, 7);
    ScanSpaceStep(f2, s, 6);
    ScanLiteralStep("TOKEN:", f1, s, 0);
  }

  lemma ScanLiteralStep(t: string, rest: Format, s: string, i: nat)
    requires i + |t| <= |s| && s[i..i + |t|] == t
    ensures Scan(Then(Literal(t), rest), s, i) == Scan(rest, s, i + |t|)
  {
  }

  lemma ScanSpaceStep(rest: Format, s: string, i: nat)
    requires i <= |s|
    ensures Scan(Then(Space, rest), s, i) == Scan(rest, s, SkipSpace(s, i))
  {
  }

  lemma ScanHexStep(rest: Format, s: string, i: nat, m: Matched)
    requires i <= |s| && MatchHex(s, i) == Some(m)
    ensures m.end <= |s|
    ensures Scan(Then(HexConversion, rest), s, i) == [m.value] + Scan(rest, s, m.end)
  {
  }

  lemma ScanWordStep(rest: Format, s: string, i: nat, m: Matched)
    requires i <= |s| && MatchWord(s, i) == Some(m)
    ensures m.end <= |s|
    ensures Scan(Then(StringConversion, rest), s, i) == [m.value] + Scan(rest, s, m.end)
  {
  }

  /** The line opens with `TOKEN: 0x` and the digits of the id. */
  lemma HeadScan(s: string, h: string, tail: string)
    requires s == "TOKEN: 0x" + (h + tail) && AllHex(h) && |h| > 0 && (h[0] == '0' ==> |h| == 1)
    requires |tail| > 0 && tail[0] == ' '
    ensures s[0..6] == "TOKEN:" && SkipSpace(s, 6) == 7 && s[7..9] == "0x"
    ensures MatchHex(s, 9) == Some(Matched(Hex(false, HexValue(h)), 9 + |h|))
  {
    assert s[9..9 + |h|] == h;
    assert s[9 + |h|] == ' ';
    assert s[7] == '0';
    MatchHexAt(s, 9, h);
  }

  /** Where the characters of `" type zone\n"` lie once it follows position `p`. */
  lemma TailLayout(s: string, p: nat, typeName: string, zoneName: string)
    requires p <= |s| && s[p..] == TokenLineTail(typeName, zoneName)
    ensures p + |typeName| + |zoneName| + 3 == |s|
    ensures s[p] == ' ' && s[p + 1..p + 1 + |typeName|] == typeName
    ensures s[p + 1 + |typeName|] == ' '
    ensures s[p + 2 + |typeName|..p + 2 + |typeName| + |zoneName|] == zoneName
    ensures s[p + 2 + |typeName| + |zoneName|] == '\n'
  {
    var tail := TokenLineTail(typeName, zoneName);
    assert tail[1..1 + |typeName|] == typeName;
    assert tail[2 + |typeName|..2 + |typeName| + |zoneName|] == zoneName;
  }

  /** After the id: `" %s %s"` reads the two words of `" type zone\n"`. */
  lemma TokenTailScan(s: string, p: nat, typeName: string, zoneName: string)
    requires p <= |s| && s[p..] == TokenLineTail(typeName, zoneName)
    requires IsWord(typeName) && IsWord(zoneName)
    ensures Scan(TOKEN_FORMAT.rest.rest.rest.rest, s, p) == [Word(typeName), Word(zoneName)]
  {
    TailLayout(s, p, typeName, zoneName);
    var p3 := p + 1;
    var p4 := p3 + |typeName|;
    var p5 := p4 + 1;
    var p6 := p5 + |zoneName|;
    assert s[p3] == typeName[0];
    assert s[p5] == zoneName[0];
    assert SkipSpace(s, p) == p3;
    MatchWordAt(s, p3, typeName);
    assert SkipSpace(s, p4) == p5;
    MatchWordAt(s, p5, zoneName);
    var f7 := Then(StringConversion, Done);
    var f6 := Then(Space, f7);
    var f5 := Then(StringConversion, f6);
    assert TOKEN_FORMAT.rest.rest.rest.rest == Then(Space, f5);
    ScanWordStep(Done, s, p5, Matched(Word(zoneName), p6));
    ScanSpaceStep(f7, s, p4);
    ScanWordStep(f6, s, p3, Matched(Word(typeName), p4));
    ScanSpaceStep(f5, s, p);
  }

  lemma SuffixOfConcat(a: string, b: string, c: string)
    ensures (a + (b + c))[|a| + |b|..] == c
  {
  }
}
