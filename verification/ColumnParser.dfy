/**
 The tokenizer and the parser of vector column definitions such as `embedding float[768] distance_metric=cosine`.
 A C pointer into the source is modelled by the text from it to the end of the source.
 */
module ColumnParser {
  import opened Wrappers
  import opened VectorBlob

  datatype Kind = Identifier | Digit | LBracket | RBracket | PlusSign | EqualSign

  /** A token: the text from its start to the end of the source, and its length. */
  datatype Token = Token(kind: Kind, start: string, length: nat)

  datatype Next = Eof | Found(token: Token) | Bad

  predicate IsAlpha(c: char) {
    'a' <= c <= 'z' || 'A' <= c <= 'Z'
  }

  predicate IsDigit(c: char) {
    '0' <= c <= '9'
  }

  predicate IsWhitespace(c: char) {
    c == ' ' || c == '\t' || c == '\n' || c == '\r'
  }

  predicate IsWord(c: char) {
    IsAlpha(c) || IsDigit(c) || c == '_'
  }

  function WordLength(s: string): (r: nat)
    ensures r <= |s|
  {
    if s == "" || !IsWord(s[0]) then 0 else 1 + WordLength(s[1..])
  }

  function DigitsLength(s: string): (r: nat)
    ensures r <= |s|
  {
    if s == "" || !IsDigit(s[0]) then 0 else 1 + DigitsLength(s[1..])
  }

  /** The kind of a one-character token. */
  function SymbolKind(c: char): Option<Kind> {
    if c == '+' then Some(PlusSign)
    else if c == '[' then Some(LBracket)
    else if c == ']' then Some(RBracket)
    else if c == '=' then Some(EqualSign)
    else None
  }

  /** The next token. One-character tokens start, and end, after their character. */
  function NextToken(s: string): (r: Next)
    ensures r.Found? ==> r.token.length <= |r.token.start| && |r.token.start| - r.token.length < |s|
  {
    if s == "" then Eof
    else if IsWhitespace(s[0]) then NextToken(s[1..])
    else if SymbolKind(s[0]).Some? then Found(Token(SymbolKind(s[0]).value, s[1..], 0))
    else if IsAlpha(s[0]) then Found(Token(Identifier, s, WordLength(s)))
    else if IsDigit(s[0]) then Found(Token(Digit, s, DigitsLength(s)))
    else Bad
  }

  lemma SuffixStep(source: string, p: nat)
    requires p < |source|
    ensures source[p..] != "" && source[p..][0] == source[p] && source[p..][1..] == source[p + 1..]
    ensures IsAlpha(source[p]) ==> IsWord(source[p])
    ensures IsWord(source[p]) ==> WordLength(source[p..]) == 1 + WordLength(source[p + 1..])
    ensures IsDigit(source[p]) ==> DigitsLength(source[p..]) == 1 + DigitsLength(source[p + 1..])
  {
    assert source[p..][1..] == source[p + 1..];
  }

  lemma Stopped(source: string, from: nat, p: nat)
    requires from <= p <= |source|
    ensures source[from..][p - from..] == source[p..]
    ensures p == |source| || !IsWord(source[p]) ==> WordLength(source[p..]) == 0
    ensures p == |source| || !IsDigit(source[p]) ==> DigitsLength(source[p..]) == 0
  {}

  /** What the character under the pointer decides. */
  lemma NextTokenAt(source: string, p: nat)
    requires p < |source|
    ensures var c, next := source[p], NextToken(source[p..]);
      if IsWhitespace(c) then next == NextToken(source[p + 1..])
      else if SymbolKind(c).Some? then next == Found(Token(SymbolKind(c).value, source[p + 1..], 0))
      else if IsAlpha(c) then next == Found(Token(Identifier, source[p..], WordLength(source[p..])))
      else if IsDigit(c) then next == Found(Token(Digit, source[p..], DigitsLength(source[p..])))
      else next == Bad
  {
    SuffixStep(source, p);
  }

  lemma NextTokenAtEnd(source: string)
    ensures NextToken(source[|source|..]) == Eof
  {}

  /** The scanning loops, over indices into the source. */
  method TokenNext(source: string, start: nat) returns (r: Next, end: nat)
    requires start <= |source|
    ensures r == NextToken(source[start..])
    ensures r.Found? ==> start < end <= |source| && source[end..] == Rest(r.token)
    ensures !r.Found? ==> end == start
  {
    hide WordLength, DigitsLength, IsWord, IsDigit, IsAlpha, IsWhitespace, SymbolKind, NextToken;
    var ptr := start;
    while ptr < |source|
      invariant start <= ptr <= |source|
      invariant NextToken(source[ptr..]) == NextToken(source[start..])
    {
      var curr := source[ptr];
      NextTokenAt(source, ptr);
      if IsWhitespace(curr) {
        ptr := ptr + 1;
      } else if SymbolKind(curr).Some? {
        ptr := ptr + 1;
        return Found(Token(SymbolKind(curr).value, source[ptr..], 0)), ptr;
      } else if IsAlpha(curr) {
        SuffixStep(source, ptr);
        var from := ptr;
        while ptr < |source| && IsWord(source[ptr])
          invariant from <= ptr <= |source|
          invariant WordLength(source[from..]) == ptr - from + WordLength(source[ptr..])
        {
          SuffixStep(source, ptr);
          ptr := ptr + 1;
        }
        Stopped(source, from, ptr);
        return Found(Token(Identifier, source[from..], ptr - from)), ptr;
      } else if IsDigit(curr) {
        SuffixStep(source, ptr);
        var from := ptr;
        while ptr < |source| && IsDigit(source[ptr])
          invariant from <= ptr <= |source|
          invariant DigitsLength(source[from..]) == ptr - from + DigitsLength(source[ptr..])
        {
          SuffixStep(source, ptr);
          ptr := ptr + 1;
        }
        Stopped(source, from, ptr);
        return Found(Token(Digit, source[from..], ptr - from)), ptr;
      } else {
        return Bad, start;
      }
    }
    NextTokenAtEnd(source);
    return Eof, start;
  }

  function Rest(token: Token): string
    requires token.length <= |token.start|
  {
    token.start[token.length..]
  }

  function TextOf(token: Token): string
    requires token.length <= |token.start|
  {
    token.start[..token.length]
  }

  // ---- C string helpers ----

  function Lower(c: char): char {
    if 'A' <= c <= 'Z' then c + ('a' - 'A') else c
  }

  function LowerAll(s: string): (r: string)
    ensures |r| == |s|
  {
    seq(|s|, i requires 0 <= i < |s| => Lower(s[i]))
  }

  /** Whether a text begins with a word, ignoring case: comparing as many characters as the word has. */
  predicate BeginsWith(s: string, word: string) {
    |word| <= |s| && LowerAll(s[..|word|]) == word
  }

  /** Whether a text is the beginning of a word, ignoring case: comparing as many characters as the text has. */
  predicate Abbreviates(s: string, word: string) {
    |s| <= |word| && LowerAll(s) == word[..|s|]
  }

  predicate IsCSpace(c: char) {
    IsWhitespace(c) || c as int == 11 || c as int == 12
  }

  function DigitsValue(s: string, value: nat): nat {
    if s == "" || !IsDigit(s[0]) then value
    else DigitsValue(s[1..], 10 * value + (s[0] as int - '0' as int))
  }

  /** C's decimal conversion: blanks, a sign, then digits as far as they go. */
  function Atoi(s: string): int {
    if s == "" then 0
    else if IsCSpace(s[0]) then Atoi(s[1..])
    else if s[0] == '-' then -(DigitsValue(s[1..], 0) as int)
    else if s[0] == '+' then DigitsValue(s[1..], 0)
    else DigitsValue(s, 0)
  }

  // ---- the parser ----

  datatype Metric = L2 | L1 | Cosine

  datatype Column = Column(name: string, elementType: ElementType, dimensions: nat, metric: Metric)

  datatype Parsed = Ok(column: Column) | Empty | Error

  function ElementTypeOf(s: string): Option<ElementType> {
    if BeginsWith(s, "float") || BeginsWith(s, "f32") then Some(Float32)
    else if BeginsWith(s, "int8") || BeginsWith(s, "i8") then Some(Int8)
    else if BeginsWith(s, "bit") then Some(Bit)
    else None
  }

  function MetricOf(s: string): Option<Metric> {
    if Abbreviates(s, "l2") then Some(L2)
    else if Abbreviates(s, "l1") then Some(L1)
    else if Abbreviates(s, "cosine") then Some(Cosine)
    else None
  }

  /** The token after a scan: a failed scan leaves the last one in place. */
  function Current(next: Next, last: Token): (r: Token)
    requires last.length <= |last.start|
    requires next.Found? ==> next.token.length <= |next.token.start|
    ensures r.length <= |r.start|
  {
    if next.Found? then next.token else last
  }

  function Advance(next: Next, s: string): string
    requires next.Found? ==> next.token.length <= |next.token.start|
  {
    if next.Found? then Rest(next.token) else s
  }

  /** The check made at most places: a scan is refused only if it failed and the token left over is of another kind. */
  predicate Passes(next: Next, last: Token, kind: Kind) {
    next.Found? || last.kind == kind
  }

  /** The option loop; None is an error. */
  function ParseOptions(s: string, last: Token, elementType: ElementType, metric: Metric): (r: Option<Metric>)
    requires last.length <= |last.start|
    ensures elementType == Bit && r.Some? ==> r == Some(metric)
    decreases |s|
  {
    var n1 := NextToken(s);
    if n1.Eof? then Some(metric)
    else if !Passes(n1, last, Identifier) then None
    else
      var key := Current(n1, last);
      if !Abbreviates(TextOf(key), "distance_metric") || elementType == Bit then None
      else
        var s1 := Advance(n1, s);
        var n2 := NextToken(s1);
        if !Passes(n2, key, EqualSign) then None
        else
          var equals := Current(n2, key);
          var s2 := Advance(n2, s1);
          var n3 := NextToken(s2);
          if !Passes(n3, equals, Identifier) then None
          else
            var value := Current(n3, equals);
            var chosen := MetricOf(TextOf(value));
            if chosen.None? then None
            else ParseOptions(Advance(n3, s2), value, elementType, chosen.value)
  }

  /** A vector column definition, or Empty when the text is not one. */
  function Parse(source: string): (r: Parsed)
    ensures r.Ok? ==> r.column.dimensions > 0 && (r.column.elementType == Bit ==> r.column.metric == L2)
  {
    var n1 := NextToken(source);
    if !n1.Found? then Empty
    else
      var n2 := NextToken(Rest(n1.token));
      if !n2.Found? || n2.token.kind != Identifier then Empty
      else
        var elementType := ElementTypeOf(n2.token.start);
        var n3 := NextToken(Rest(n2.token));
        if elementType.None? || !n3.Found? then Empty
        else
          var s3 := Rest(n3.token);
          var n4 := NextToken(s3);
          if !Passes(n4, n3.token, Digit) then Error
          else
            var digits := Current(n4, n3.token);
            var s4 := Advance(n4, s3);
            var dimensions := Atoi(digits.start);
            var n5 := NextToken(s4);
            if dimensions <= 0 || !Passes(n5, digits, RBracket) then Error
            else
              var metric := ParseOptions(Advance(n5, s4), Current(n5, digits), elementType.value, L2);
              if metric.None? then Error
              else Ok(Column(TextOf(n1.token), elementType.value, dimensions, metric.value))
  }

  /**
   The parser with its one reused token, whatever that holds before the first scan. Its option loop ends
   because a round that comes back to the start has scanned a token.
   */
  method ParseVectorColumn(source: string, uninitialised: Token) returns (r: Parsed)
    requires uninitialised.length <= |uninitialised.start|
    ensures r == Parse(source)
  {
    var token, start := uninitialised, 0;
    assert source[0..] == source;
    var next;
    next, start := TokenNext(source, start);
    if !next.Found? && token.kind != Identifier {
      return Empty;
    }
    token := Current(next, token);
    var name := TextOf(token);
    next, start := TokenNext(source, start);
    if !next.Found? || next.token.kind != Identifier {
      return Empty;
    }
    token := next.token;
    var elementType := ElementTypeOf(token.start);
    if elementType.None? {
      return Empty;
    }
    next, start := TokenNext(source, start);
    if !Passes(next, token, LBracket) {
      return Empty;
    }
    token := Current(next, token);
    next, start := TokenNext(source, start);
    if !Passes(next, token, Digit) {
      return Error;
    }
    token := Current(next, token);
    var dimensions := Atoi(token.start);
    if dimensions <= 0 {
      return Error;
    }
    next, start := TokenNext(source, start);
    if !Passes(next, token, RBracket) {
      return Error;
    }
    token := Current(next, token);
    var metric := L2;
    ghost var options := ParseOptions(source[start..], token, elementType.value, L2);
    while true
      invariant start <= |source| && token.length <= |token.start|
      invariant ParseOptions(source[start..], token, elementType.value, metric) == options
      decreases |source| - start
    {
      next, start := TokenNext(source, start);
      if next.Eof? {
        break;
      }
      if !Passes(next, token, Identifier) {
        return Error;
      }
      token := Current(next, token);
      if !Abbreviates(TextOf(token), "distance_metric") || elementType.value == Bit {
        return Error;
      }
      next, start := TokenNext(source, start);
      if !Passes(next, token, EqualSign) {
        return Error;
      }
      token := Current(next, token);
      next, start := TokenNext(source, start);
      if !Passes(next, token, Identifier) {
        return Error;
      }
      token := Current(next, token);
      var chosen := MetricOf(TextOf(token));
      if chosen.None? {
        return Error;
      }
      metric := chosen.value;
    }
    return Ok(Column(name, elementType.value, dimensions, metric));
  }

  // ---- the words of a definition, in any letter case ----

  /** The character is this lower-case letter, digit or underscore, or the upper-case form of the letter. */
  predicate SameLetter(c: char, letter: char) {
    c == letter || ('a' <= letter <= 'z' && c as int == letter as int - 32)
  }

  predicate Spells(s: string, word: string) {
    |s| == |word| && forall i :: 0 <= i < |s| ==> SameLetter(s[i], word[i])
  }

  predicate Starts(s: string, word: string) {
    |word| <= |s| && Spells(s[..|word|], word)
  }

  /** The text is a beginning of the word, at least `least` characters of it. */
  predicate Shortens(s: string, word: string, least: nat) {
    least <= |s| <= |word| && Spells(s, word[..|s|])
  }

  /** A type word is decided by how it begins. */
  predicate NamesType(s: string, elementType: ElementType) {
    match elementType
    case Float32 => Starts(s, "float") || Starts(s, "f32")
    case Int8 => Starts(s, "int8") || Starts(s, "i8")
    case Bit => Starts(s, "bit")
  }

  /** A metric may be shortened: nothing at all and a lone `l` are L2. */
  predicate NamesMetric(s: string, metric: Metric) {
    match metric
    case L2 => Shortens(s, "l2", 0)
    case L1 => Shortens(s, "l1", 2)
    case Cosine => Shortens(s, "cosine", 1)
  }

  predicate LowerCase(word: string) {
    forall i :: 0 <= i < |word| ==> !('A' <= word[i] <= 'Z')
  }

  lemma LowerAllMeans(s: string, word: string)
    requires LowerCase(word)
    ensures LowerAll(s) == word <==> Spells(s, word)
  {
    if |s| == |word| {
      assert forall i :: 0 <= i < |s| ==> (Lower(s[i]) == word[i] <==> SameLetter(s[i], word[i]));
      assert forall i :: 0 <= i < |s| ==> LowerAll(s)[i] == Lower(s[i]);
    }
  }

  lemma BeginsWithMeans(s: string, word: string)
    requires LowerCase(word)
    ensures BeginsWith(s, word) <==> Starts(s, word)
  {
    if |word| <= |s| {
      LowerAllMeans(s[..|word|], word);
    }
  }

  lemma AbbreviatesMeans(s: string, word: string)
    requires LowerCase(word)
    ensures Abbreviates(s, word) <==> Shortens(s, word, 0)
  {
    if |s| <= |word| {
      LowerAllMeans(s, word[..|s|]);
    }
  }

  lemma ElementTypeMeans(s: string, elementType: ElementType)
    ensures ElementTypeOf(s) == Some(elementType) <==> NamesType(s, elementType)
  {
    BeginsWithMeans(s, "float");
    BeginsWithMeans(s, "f32");
    BeginsWithMeans(s, "int8");
    BeginsWithMeans(s, "i8");
    BeginsWithMeans(s, "bit");
    if Starts(s, "float") || Starts(s, "f32") {
      assert SameLetter(s[0], 'f');
    }
    if Starts(s, "int8") || Starts(s, "i8") {
      assert SameLetter(s[0], 'i');
    }
    if Starts(s, "bit") {
      assert SameLetter(s[0], 'b');
    }
  }

  lemma MetricMeans(s: string, metric: Metric)
    ensures MetricOf(s) == Some(metric) <==> NamesMetric(s, metric)
  {
    AbbreviatesMeans(s, "l2");
    AbbreviatesMeans(s, "l1");
    AbbreviatesMeans(s, "cosine");
    if 0 < |s| && (Shortens(s, "l2", 0) || Shortens(s, "l1", 0)) {
      assert SameLetter(s[0], 'l');
    }
    if 0 < |s| && Shortens(s, "cosine", 0) {
      assert SameLetter(s[0], 'c');
    }
    if |s| == 1 {
      assert "l2"[..1] == "l1"[..1] == "l";
    }
    if |s| == 2 {
      assert Shortens(s, "l2", 0) ==> SameLetter(s[1], '2');
      assert Shortens(s, "l1", 0) ==> SameLetter(s[1], '1');
    }
  }

  // ---- numbers ----

  /** The decimal digits of a number. */
  function Decimal(n: nat): (s: string)
    ensures s != ""
  {
    (if n < 10 then "" else Decimal(n / 10)) + ["0123456789"[n % 10]]
  }

  function Zeros(n: nat): string {
    seq(n, _ => '0')
  }

  lemma {:induction false} LastDigit(s: string, c: char, value: nat)
    requires (forall i :: 0 <= i < |s| ==> '0' <= s[i] <= '9') && '0' <= c <= '9'
    ensures DigitsValue(s + [c], value) == 10 * DigitsValue(s, value) + (c as int - '0' as int)
  {
    if s == "" {
      assert s + [c] == [c];
    } else {
      assert (s + [c])[1..] == s[1..] + [c];
      LastDigit(s[1..], c, 10 * value + (s[0] as int - '0' as int));
    }
  }

  lemma {:induction false} DecimalValue(n: nat)
    ensures forall i :: 0 <= i < |Decimal(n)| ==> '0' <= Decimal(n)[i] <= '9'
    ensures DigitsValue(Decimal(n), 0) == n
  {
    var c := "0123456789"[n % 10];
    assert '0' <= c <= '9' && c as int - '0' as int == n % 10;
    if n < 10 {
      LastDigit("", c, 0);
    } else {
      DecimalValue(n / 10);
      LastDigit(Decimal(n / 10), c, 0);
    }
  }

  lemma {:induction false} ZerosValue(zeros: nat, s: string)
    ensures DigitsValue(Zeros(zeros) + s, 0) == DigitsValue(s, 0)
  {
    if zeros == 0 {
      assert Zeros(0) + s == s;
    } else {
      assert (Zeros(zeros) + s)[1..] == Zeros(zeros - 1) + s;
      ZerosValue(zeros - 1, s);
    }
  }

  /** Decimal conversion skips blanks, takes one sign and reads the digits, any zeros first. */
  lemma {:induction false} AtoiReads(blanks: string, sign: string, zeros: nat, n: nat, tail: string)
    requires forall i :: 0 <= i < |blanks| ==> blanks[i] == ' ' || 9 <= blanks[i] as int <= 13
    requires sign == "" || sign == "+" || sign == "-"
    requires tail == "" || !('0' <= tail[0] <= '9')
    ensures Atoi(blanks + (sign + (Zeros(zeros) + Decimal(n) + tail))) == if sign == "-" then -(n as int) else n
  {
    var digits := Zeros(zeros) + Decimal(n);
    var signed := sign + (digits + tail);
    if blanks != "" {
      assert (blanks + signed)[1..] == blanks[1..] + signed;
      AtoiReads(blanks[1..], sign, zeros, n, tail);
    } else {
      assert blanks + signed == signed;
      DecimalValue(n);
      ZerosValue(zeros, Decimal(n));
      ValueThenTail(digits, tail, 0);
      if sign == "" {
        assert signed == digits + tail && '0' <= signed[0] <= '9';
      } else {
        assert signed[0] == sign[0] && signed[1..] == digits + tail;
      }
    }
  }

  lemma {:induction false} ValueThenTail(digits: string, tail: string, value: nat)
    requires forall i :: 0 <= i < |digits| ==> IsDigit(digits[i])
    requires tail == "" || !IsDigit(tail[0])
    ensures DigitsValue(digits + tail, value) == DigitsValue(digits, value)
  {
    if digits == "" {
      assert digits + tail == tail;
    } else {
      assert (digits + tail)[1..] == digits[1..] + tail;
      ValueThenTail(digits[1..], tail, 10 * value + (digits[0] as int - '0' as int));
    }
  }

  // ---- rendering and parsing back ----

  predicate AllWhitespace(s: string) {
    forall i :: 0 <= i < |s| ==> s[i] == ' ' || s[i] == '\t' || s[i] == '\n' || s[i] == '\r'
  }

  /** A letter, then letters, digits and underscores. */
  predicate IsIdentifier(s: string) {
    && s != "" && ('a' <= s[0] <= 'z' || 'A' <= s[0] <= 'Z')
    && forall i :: 0 <= i < |s| ==>
         'a' <= s[i] <= 'z' || 'A' <= s[i] <= 'Z' || '0' <= s[i] <= '9' || s[i] == '_'
  }

  predicate IsNumber(s: string) {
    s != "" && forall i :: 0 <= i < |s| ==> '0' <= s[i] <= '9'
  }

  /** One option: the metric and the words that name it, with the blanks before each of its three tokens. */
  datatype MetricOption = MetricOption(
    gap: string, key: string, gapBeforeEquals: string, gapBeforeValue: string, value: string, metric: Metric)

  predicate OptionOk(o: MetricOption) {
    && AllWhitespace(o.gap) && AllWhitespace(o.gapBeforeEquals) && AllWhitespace(o.gapBeforeValue)
    && IsIdentifier(o.key) && Shortens(o.key, "distance_metric", 1)
    && IsIdentifier(o.value) && NamesMetric(o.value, o.metric)
  }

  /** A further option must be set off from the value before it. */
  predicate OptionsOk(options: seq<MetricOption>) {
    forall i :: 0 <= i < |options| ==> OptionOk(options[i]) && (i > 0 ==> options[i].gap != "")
  }

  function RenderOptions(options: seq<MetricOption>, end: string): string {
    if options == [] then end
    else
      var o := options[0];
      var value := o.gapBeforeValue + (o.value + RenderOptions(options[1..], end));
      o.gap + (o.key + (o.gapBeforeEquals + ("=" + value)))
  }

  /** A definition and how it is written: the word for its type, leading zeros, and the blanks before each token. */
  datatype Definition = Definition(
    gaps: seq<string>, name: string, typeWord: string, elementType: ElementType, zeros: nat, dimensions: nat,
    options: seq<MetricOption>, end: string)

  predicate DefinitionOk(d: Definition) {
    && |d.gaps| == 5 && (forall i :: 0 <= i < 5 ==> AllWhitespace(d.gaps[i])) && d.gaps[1] != ""
    && IsIdentifier(d.name) && IsIdentifier(d.typeWord) && NamesType(d.typeWord, d.elementType)
    && OptionsOk(d.options) && AllWhitespace(d.end)
  }

  function Render(d: Definition): string
    requires DefinitionOk(d)
  {
    d.gaps[0] + (d.name + (d.gaps[1] + (d.typeWord + (d.gaps[2] + ("[" + (d.gaps[3] +
    ((Zeros(d.zeros) + Decimal(d.dimensions)) + (d.gaps[4] + ("]" + RenderOptions(d.options, d.end))))))))))
  }

  predicate Delimits(tail: string) {
    tail == "" || !IsWord(tail[0])
  }

  lemma {:induction false} SkipGap(gap: string, tail: string)
    requires AllWhitespace(gap)
    ensures NextToken(gap + tail) == NextToken(tail)
  {
    if gap == "" {
      assert gap + tail == tail;
    } else {
      assert (gap + tail)[1..] == gap[1..] + tail;
      SkipGap(gap[1..], tail);
    }
  }

  lemma {:induction false} WordThenTail(word: string, tail: string)
    requires (forall i :: 0 <= i < |word| ==> IsWord(word[i])) && Delimits(tail)
    ensures WordLength(word + tail) == |word|
  {
    if word == "" {
      assert word + tail == tail;
    } else {
      assert (word + tail)[1..] == word[1..] + tail;
      WordThenTail(word[1..], tail);
    }
  }

  lemma {:induction false} DigitsThenTail(digits: string, tail: string)
    requires (forall i :: 0 <= i < |digits| ==> IsDigit(digits[i])) && Delimits(tail)
    ensures DigitsLength(digits + tail) == |digits|
  {
    if digits == "" {
      assert digits + tail == tail;
    } else {
      assert (digits + tail)[1..] == digits[1..] + tail;
      DigitsThenTail(digits[1..], tail);
    }
  }

  lemma IdentifierToken(gap: string, word: string, tail: string)
    requires AllWhitespace(gap) && IsIdentifier(word) && Delimits(tail)
    ensures NextToken(gap + (word + tail)) == Found(Token(Identifier, word + tail, |word|))
    ensures TextOf(Token(Identifier, word + tail, |word|)) == word
    ensures Rest(Token(Identifier, word + tail, |word|)) == tail
  {
    SkipGap(gap, word + tail);
    WordThenTail(word, tail);
    assert (word + tail)[0] == word[0];
  }

  lemma NumberToken(gap: string, digits: string, tail: string)
    requires AllWhitespace(gap) && IsNumber(digits) && Delimits(tail)
    ensures NextToken(gap + (digits + tail)) == Found(Token(Digit, digits + tail, |digits|))
    ensures Rest(Token(Digit, digits + tail, |digits|)) == tail
    ensures Atoi(digits + tail) == DigitsValue(digits, 0)
  {
    SkipGap(gap, digits + tail);
    DigitsThenTail(digits, tail);
    ValueThenTail(digits, tail, 0);
    assert (digits + tail)[0] == digits[0];
  }

  lemma SymbolToken(gap: string, c: char, tail: string)
    requires AllWhitespace(gap) && SymbolKind(c).Some?
    ensures NextToken(gap + ([c] + tail)) == Found(Token(SymbolKind(c).value, tail, 0))
    ensures Rest(Token(SymbolKind(c).value, tail, 0)) == tail
  {
    SkipGap(gap, [c] + tail);
    assert ([c] + tail)[1..] == tail;
  }

  lemma GapDelimits(gap: string, tail: string)
    requires AllWhitespace(gap) && (gap != "" || Delimits(tail))
    ensures Delimits(gap + tail)
  {
    if gap == "" {
      assert gap + tail == tail;
    } else {
      assert (gap + tail)[0] == gap[0];
    }
  }

  /** A word's element type is decided within the word. */
  lemma TypeWithinWord(word: string, tail: string)
    requires Delimits(tail)
    ensures ElementTypeOf(word + tail) == ElementTypeOf(word)
  {
    PrefixWithinWord(word, tail, "float");
    PrefixWithinWord(word, tail, "f32");
    PrefixWithinWord(word, tail, "int8");
    PrefixWithinWord(word, tail, "i8");
    PrefixWithinWord(word, tail, "bit");
  }

  lemma PrefixWithinWord(word: string, tail: string, literal: string)
    requires Delimits(tail)
    requires forall i :: 0 <= i < |literal| ==> IsWord(literal[i])
    ensures BeginsWith(word + tail, literal) <==> BeginsWith(word, literal)
  {
    var s := word + tail;
    if |literal| <= |word| {
      assert s[..|literal|] == word[..|literal|];
    } else if |literal| <= |s| {
      var low := LowerAll(s[..|literal|]);
      assert low[|word|] == Lower(tail[0]);
      assert low[|word|] != literal[|word|];
    }
  }

  /** The metric the options leave: the last one named. */
  function LastMetric(options: seq<MetricOption>, metric: Metric): Metric {
    if options == [] then metric else options[|options| - 1].metric
  }

  lemma EndToken(end: string)
    requires AllWhitespace(end)
    ensures NextToken(end) == Eof
  {
    SkipGap(end, "");
    assert end + "" == end;
  }

  lemma OptionsTail(options: seq<MetricOption>)
    requires OptionsOk(options) && options != []
    ensures OptionsOk(options[1..]) && MetricOf(options[0].value) == Some(options[0].metric)
    ensures forall metric :: LastMetric(options, metric) == LastMetric(options[1..], options[0].metric)
  {
    assert OptionOk(options[0]);
    MetricMeans(options[0].value, options[0].metric);
  }

  lemma {:induction false} OptionsParse(
    options: seq<MetricOption>, end: string, last: Token, elementType: ElementType, metric: Metric)
    requires OptionsOk(options) && AllWhitespace(end) && last.length <= |last.start|
    ensures ParseOptions(RenderOptions(options, end), last, elementType, metric) ==
            if options != [] && elementType == Bit then None else Some(LastMetric(options, metric))
    decreases |options|
  {
    if options == [] {
      EndToken(end);
    } else {
      var o := options[0];
      var tail := RenderOptions(options[1..], end);
      OptionTokens(options, end);
      OptionsTail(options);
      hide NextToken, MetricOf, Abbreviates, RenderOptions, OptionsOk, Rest, TextOf;
      if elementType != Bit {
        OptionsParse(options[1..], end, Token(Identifier, o.value + tail, |o.value|), elementType,
                     o.metric);
      }
    }
  }

  /** The three tokens of the first option. */
  lemma OptionTokens(options: seq<MetricOption>, end: string)
    requires OptionsOk(options) && AllWhitespace(end) && options != []
    ensures var o := options[0];
      var tail := RenderOptions(options[1..], end);
      var s2 := o.gapBeforeValue + (o.value + tail);
      var s1 := o.gapBeforeEquals + ("=" + s2);
      var key := Token(Identifier, o.key + s1, |o.key|);
      var value := Token(Identifier, o.value + tail, |o.value|);
      && NextToken(RenderOptions(options, end)) == Found(key) && Rest(key) == s1
      && TextOf(key) == o.key && Abbreviates(o.key, "distance_metric")
      && NextToken(s1) == Found(Token(EqualSign, s2, 0)) && Rest(Token(EqualSign, s2, 0)) == s2
      && NextToken(s2) == Found(value) && Rest(value) == tail && TextOf(value) == o.value
  {
    hide NextToken, MetricOf;
    var o := options[0];
    var tail := RenderOptions(options[1..], end);
    assert OptionOk(o);
    TailDelimits(options[1..], end);
    IdentifierToken(o.gapBeforeValue, o.value, tail);
    var s2 := o.gapBeforeValue + (o.value + tail);
    SymbolToken(o.gapBeforeEquals, '=', s2);
    var s1 := o.gapBeforeEquals + ("=" + s2);
    assert ("=" + s2)[0] == '=';
    GapDelimits(o.gapBeforeEquals, "=" + s2);
    IdentifierToken(o.gap, o.key, s1);
    AbbreviatesMeans(o.key, "distance_metric");
  }

  lemma TailDelimits(options: seq<MetricOption>, end: string)
    requires AllWhitespace(end)
    requires options != [] ==> AllWhitespace(options[0].gap) && options[0].gap != ""
    ensures Delimits(RenderOptions(options, end))
  {
    if options == [] {
      assert end != "" ==> IsWhitespace(end[0]);
    } else {
      var o := options[0];
      GapDelimits(o.gap, RenderOptions(options, end)[|o.gap|..]);
    }
  }

  /**
   Parsing what was written gives the definition back: its name, the element type of its word, its number and the last
   metric named, for any names, numbers, options, letter cases and blanks. No dimension at all is an error, and so is
   any option on a bit column.
   */
  lemma RoundTrip(d: Definition)
    requires DefinitionOk(d)
    ensures Parse(Render(d)) ==
              if d.dimensions == 0 || (d.options != [] && d.elementType == Bit) then Error
              else Ok(Column(d.name, d.elementType, d.dimensions, LastMetric(d.options, L2)))
  {
    hide NextToken, Atoi, ElementTypeOf, DigitsValue, NamesType, Decimal, Zeros, LastMetric;
    var digits := Zeros(d.zeros) + Decimal(d.dimensions);
    var s5 := RenderOptions(d.options, d.end);
    var s4 := d.gaps[4] + ("]" + s5);
    var s3 := d.gaps[3] + (digits + s4);
    var s2 := d.gaps[2] + ("[" + s3);
    var s1 := d.gaps[1] + (d.typeWord + s2);
    GapDelimits(d.gaps[1], d.typeWord + s2);
    IdentifierToken(d.gaps[0], d.name, s1);
    GapDelimits(d.gaps[2], "[" + s3);
    IdentifierToken(d.gaps[1], d.typeWord, s2);
    TypeWithinWord(d.typeWord, s2);
    ElementTypeMeans(d.typeWord, d.elementType);
    SymbolToken(d.gaps[2], '[', s3);
    GapDelimits(d.gaps[4], "]" + s5);
    NumberWritten(d.zeros, d.dimensions);
    NumberToken(d.gaps[3], digits, s4);
    SymbolToken(d.gaps[4], ']', s5);
    OptionsParse(d.options, d.end, Token(RBracket, s5, 0), d.elementType, L2);
  }

  lemma NumberWritten(zeros: nat, n: nat)
    ensures IsNumber(Zeros(zeros) + Decimal(n)) && DigitsValue(Zeros(zeros) + Decimal(n), 0) == n
  {
    DecimalValue(n);
    ZerosValue(zeros, Decimal(n));
  }

  /** A token is decided by its first character; a name or a number goes on as far as it can. */
  lemma TokenIs(gap: string, s: string)
    requires AllWhitespace(gap) && (s == "" || !AllWhitespace(s[..1]))
    ensures var next := NextToken(gap + s);
      if s == "" then next == Eof
      else if s[0] == '+' then next == Found(Token(PlusSign, s[1..], 0))
      else if s[0] == '[' then next == Found(Token(LBracket, s[1..], 0))
      else if s[0] == ']' then next == Found(Token(RBracket, s[1..], 0))
      else if s[0] == '=' then next == Found(Token(EqualSign, s[1..], 0))
      else if 'a' <= s[0] <= 'z' || 'A' <= s[0] <= 'Z' then
        && next.Found? && next.token.kind == Identifier && next.token.start == s
        && var n := next.token.length;
           n <= |s| && IsIdentifier(s[..n]) && (n == |s| || !IsIdentifier(s[..n + 1]))
      else if '0' <= s[0] <= '9' then
        && next.Found? && next.token.kind == Digit && next.token.start == s
        && var n := next.token.length;
           n <= |s| && IsNumber(s[..n]) && (n == |s| || !IsNumber(s[..n + 1]))
      else next == Bad
  {
    SkipGap(gap, s);
    WordGoesOn(s);
    NumberGoesOn(s);
    hide IsIdentifier, IsNumber, WordLength, DigitsLength;
  }

  lemma WordGoesOn(s: string)
    ensures var n := WordLength(s);
      s != "" && ('a' <= s[0] <= 'z' || 'A' <= s[0] <= 'Z') ==>
        IsIdentifier(s[..n]) && (n == |s| || !IsIdentifier(s[..n + 1]))
  {
    WordEnds(s);
    var n := WordLength(s);
    if n < |s| {
      assert s[..n + 1][n] == s[n];
    }
  }

  lemma NumberGoesOn(s: string)
    ensures var n := DigitsLength(s);
      s != "" && '0' <= s[0] <= '9' ==> IsNumber(s[..n]) && (n == |s| || !IsNumber(s[..n + 1]))
  {
    DigitsEnd(s);
    var n := DigitsLength(s);
    if n < |s| {
      assert s[..n + 1][n] == s[n];
    }
  }

  lemma {:induction false} WordEnds(s: string)
    ensures var n := WordLength(s);
      && (forall i :: 0 <= i < n ==> IsWord(s[i]))
      && (n == |s| || !IsWord(s[n]))
  {
    if s != "" && IsWord(s[0]) {
      WordEnds(s[1..]);
    }
  }

  lemma {:induction false} DigitsEnd(s: string)
    ensures var n := DigitsLength(s);
      && (forall i :: 0 <= i < n ==> IsDigit(s[i]))
      && (n == |s| || !IsDigit(s[n]))
  {
    if s != "" && IsDigit(s[0]) {
      DigitsEnd(s[1..]);
    }
  }

  /** A further option whose key or whose metric is no known word is refused. */
  lemma UnknownWordRefused(gap: string, key: string, gaps: seq<string>, value: string, tail: string, last: Token,
                           elementType: ElementType, metric: Metric)
    requires AllWhitespace(gap) && |gaps| == 2 && AllWhitespace(gaps[0]) && AllWhitespace(gaps[1])
    requires IsIdentifier(key) && IsIdentifier(value) && Delimits(tail) && last.length <= |last.start|
    requires !Shortens(key, "distance_metric", 1) || forall m :: !NamesMetric(value, m)
    ensures ParseOptions(gap + (key + (gaps[0] + ("=" + (gaps[1] + (value + tail))))), last, elementType, metric) ==
            None
  {
    hide NextToken, NamesMetric, MetricOf;
    var s2 := gaps[1] + (value + tail);
    var s1 := gaps[0] + ("=" + s2);
    assert ("=" + s2)[0] == '=';
    GapDelimits(gaps[0], "=" + s2);
    IdentifierToken(gap, key, s1);
    SymbolToken(gaps[0], '=', s2);
    IdentifierToken(gaps[1], value, tail);
    AbbreviatesMeans(key, "distance_metric");
    if MetricOf(value).Some? {
      MetricMeans(value, MetricOf(value).value);
    }
  }

  // ---- what the parser does not check ----

  /**
   Any token closes the dimension: what follows the digits is refused there if and only if scanning it finds no
   token, and after any token found the options decide.
   */
  lemma CloserUnchecked(name: string, typeWord: string, elementType: ElementType, zeros: nat, n: nat, tail: string)
    requires IsIdentifier(name) && IsIdentifier(typeWord) && NamesType(typeWord, elementType)
    requires n > 0 && Delimits(tail)
    ensures var parsed :=
        Parse("" + (name + (" " + (typeWord + ("" + ("[" + ("" + ((Zeros(zeros) + Decimal(n)) + tail))))))));
      var next := NextToken(tail);
      if !next.Found? then parsed == Error
      else
        var metric := ParseOptions(Rest(next.token), next.token, elementType, L2);
        parsed == if metric.Some? then Ok(Column(name, elementType, n, metric.value)) else Error
  {
    hide NextToken, Atoi, ElementTypeOf, NamesType, DigitsValue, IsIdentifier, IsNumber, ParseOptions, Zeros, Decimal;
    var digits := Zeros(zeros) + Decimal(n);
    NumberWritten(zeros, n);
    var s3 := "" + (digits + tail);
    var s2 := "" + ("[" + s3);
    var s1 := " " + (typeWord + s2);
    IdentifierToken("", name, s1);
    assert ("[" + s3)[0] == '[';
    GapDelimits("", "[" + s3);
    IdentifierToken(" ", typeWord, s2);
    TypeWithinWord(typeWord, s2);
    ElementTypeMeans(typeWord, elementType);
    SymbolToken("", '[', s3);
    NumberToken("", digits, tail);
  }

  /** The equals sign may be missing if the definition ends with the metric: the token left over is the value. */
  lemma MissingEqualsAccepted(gap: string, key: string, gapBeforeValue: string, value: string, end: string, last: Token,
                              elementType: ElementType, metric: Metric, chosen: Metric)
    requires AllWhitespace(gap) && AllWhitespace(gapBeforeValue) && gapBeforeValue != "" && AllWhitespace(end)
    requires IsIdentifier(key) && Shortens(key, "distance_metric", 1) && IsIdentifier(value)
    requires NamesMetric(value, chosen) && last.length <= |last.start|
    ensures ParseOptions(gap + (key + (gapBeforeValue + (value + end))), last, elementType, metric) ==
            if elementType == Bit then None else Some(chosen)
  {
    hide NextToken, NamesMetric, MetricOf;
    assert Delimits(end);
    GapDelimits(gapBeforeValue, value + end);
    IdentifierToken(gap, key, gapBeforeValue + (value + end));
    IdentifierToken(gapBeforeValue, value, end);
    EndToken(end);
    AbbreviatesMeans(key, "distance_metric");
    MetricMeans(value, chosen);
  }

  /** So an identifier, or any symbol, is accepted in the place of the bracket when nothing follows it. */
  lemma OneCloserAccepted(gap: string, closer: string, elementType: ElementType)
    requires AllWhitespace(gap)
    requires IsIdentifier(closer) || closer == "+" || closer == "[" || closer == "]" || closer == "="
    ensures var next := NextToken(gap + (closer + ""));
      next.Found? && ParseOptions(Rest(next.token), next.token, elementType, L2) == Some(L2)
  {
    EndToken("");
    if IsIdentifier(closer) {
      IdentifierToken(gap, closer, "");
    } else {
      assert closer == [closer[0]];
      SymbolToken(gap, closer[0], "");
    }
  }

  /**
   A leading plus is accepted as a name. So a definition of an auxiliary column is refused as a broken vector
   column if its name begins like an element type, and is left to the later parsers otherwise.
   */
  lemma AuxiliaryNameCaptured(name: string, type_: string)
    requires IsIdentifier(name) && IsIdentifier(type_)
    ensures Parse("" + ("+" + ("" + (name + (" " + (type_ + "")))))) ==
            if exists elementType :: NamesType(name, elementType) then Error else Empty
  {
    hide NextToken, Atoi, ElementTypeOf, NamesType, IsIdentifier;
    forall elementType ensures ElementTypeOf(name) == Some(elementType) <==> NamesType(name, elementType) {
      ElementTypeMeans(name, elementType);
    }
    assert ElementTypeOf(name).Some? ==> ElementTypeOf(name) == Some(ElementTypeOf(name).value);
    var s2 := " " + (type_ + "");
    var s1 := "" + (name + s2);
    SymbolToken("", '+', s1);
    IdentifierToken("", name, s2);
    TypeWithinWord(name, s2);
    IdentifierToken(" ", type_, "");
    EndToken("");
  }
}
