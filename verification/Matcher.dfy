/** Wildcard patterns of sampling rules, compiled to regular expressions. */
module Matcher {
  import opened Wrappers

  // ---------- The part of regular expression syntax that is emitted ----------

  /** Characters that do not stand for themselves unless escaped. */
  predicate IsMeta(c: char) {
    || c == '.' || c == '^' || c == '$' || c == '*' || c == '+' || c == '?'
    || c == '{' || c == '[' || c == '\\' || c == '|' || c == '(' || c == ')'
  }

  /** Characters that `re.escape` puts a backslash before. */
  predicate IsEscaped(c: char) {
    || IsMeta(c) || c == ']' || c == '}' || c == '-' || c == '&' || c == '~' || c == '#'
    || c == ' ' || c == '\t' || c == '\n' || c == '\r' || c == '\U{0B}' || c == '\U{0C}'
  }

  predicate IsWordChar(c: char) { 'a' <= c <= 'z' || 'A' <= c <= 'Z' || '0' <= c <= '9' }

  datatype Token = Exactly(c: char) | Dot | DotStar

  /** Reads regex text back as tokens; None for anything outside literals, escapes, `.` and `.*`. */
  function ReadRegex(s: string): Option<seq<Token>>
    decreases |s|
  {
    if s == "" then Some([])
    else if s[0] == '\\' then
      if |s| == 1 || IsWordChar(s[1]) then None else Prepend(Exactly(s[1]), ReadRegex(s[2..]))
    else if s[0] == '.' then
      if |s| > 1 && s[1] == '*' then Prepend(DotStar, ReadRegex(s[2..])) else Prepend(Dot, ReadRegex(s[1..]))
    else if IsMeta(s[0]) then None
    else Prepend(Exactly(s[0]), ReadRegex(s[1..]))
  }

  function Prepend(t: Token, r: Option<seq<Token>>): Option<seq<Token>> {
    if r.None? then None else Some([t] + r.value)
  }

  /** Whether tokens match the whole of a text: `.` is any character but a newline. */
  predicate FullMatch(ts: seq<Token>, text: string)
    decreases |ts|, |text|
  {
    if ts == [] then text == ""
    else
      match ts[0]
      case Exactly(c) => text != "" && text[0] == c && FullMatch(ts[1..], text[1..])
      case Dot => text != "" && text[0] != '\n' && FullMatch(ts[1..], text[1..])
      case DotStar =>
        FullMatch(ts[1..], text) || (text != "" && text[0] != '\n' && FullMatch(ts, text[1..]))
  }

  // ---------- The compiler ----------

  function EscapeChar(c: char): string { if IsEscaped(c) then ['\\', c] else [c] }

  function Escape(s: string): string {
    if s == "" then "" else EscapeChar(s[0]) + Escape(s[1..])
  }

  predicate IsWildcard(c: char) { c == '*' || c == '?' }

  function Compile(c: char): string {
    if c == '*' then ".*" else if c == '?' then "." else EscapeChar(c)
  }

  /** Each pattern character compiled on its own. */
  function CompileAll(pattern: string): string {
    if pattern == "" then "" else Compile(pattern[0]) + CompileAll(pattern[1..])
  }

  lemma {:induction false} CompileAllSplits(p: string, q: string)
    ensures CompileAll(p + q) == CompileAll(p) + CompileAll(q)
  {
    if p == "" {
      assert p + q == q;
    } else {
      assert (p + q)[1..] == p[1..] + q;
      CompileAllSplits(p[1..], q);
    }
  }

  lemma {:induction false} LiteralRunsCompileToEscapes(s: string)
    requires forall c | c in s :: !IsWildcard(c)
    ensures CompileAll(s) == Escape(s)
  {
    if s != "" {
      LiteralRunsCompileToEscapes(s[1..]);
      assert s[0] in s;
    }
  }

  /** Escaping maximal literal runs at a time comes to compiling character by character. */
  method ToRegexPattern(rulePattern: string) returns (regexPattern: string)
    ensures regexPattern == CompileAll(rulePattern)
  {
    var tokenStart := -1;
    regexPattern := "";
    for index := 0 to |rulePattern|
      invariant -1 <= tokenStart < index || (index == 0 && tokenStart == -1)
      invariant tokenStart == -1 ==> regexPattern == CompileAll(rulePattern[..index])
      invariant tokenStart != -1 ==> regexPattern == CompileAll(rulePattern[..tokenStart])
      invariant tokenStart != -1 ==> forall c | c in rulePattern[tokenStart..index] :: !IsWildcard(c)
    {
      ghost var before := tokenStart;
      var c := rulePattern[index];
      assert rulePattern[..index + 1] == rulePattern[..index] + [c];
      if IsWildcard(c) {
        if tokenStart != -1 {
          FinishRun(rulePattern, tokenStart, index);
          regexPattern := regexPattern + Escape(rulePattern[tokenStart..index]);
          tokenStart := -1;
        }
        CompileAllSplits(rulePattern[..index], [c]);
        assert CompileAll([c]) == Compile(c) + CompileAll([c][1..]);
        if c == '*' {
          regexPattern := regexPattern + ".*";
        } else {
          regexPattern := regexPattern + ".";
        }
      } else {
        if tokenStart == -1 {
          tokenStart := index;
        }
        if before != -1 {
          assert rulePattern[tokenStart..index + 1] == rulePattern[tokenStart..index] + [c];
        }
      }
    }
    assert rulePattern[..|rulePattern|] == rulePattern;
    if tokenStart != -1 {
      FinishRun(rulePattern, tokenStart, |rulePattern|);
      assert rulePattern[tokenStart..|rulePattern|] == rulePattern[tokenStart..];
      regexPattern := regexPattern + Escape(rulePattern[tokenStart..]);
    }
  }

  lemma FinishRun(p: string, from: nat, to: nat)
    requires from <= to <= |p| && forall c | c in p[from..to] :: !IsWildcard(c)
    ensures CompileAll(p[..from]) + Escape(p[from..to]) == CompileAll(p[..to])
  {
    assert p[..from] + p[from..to] == p[..to];
    CompileAllSplits(p[..from], p[from..to]);
    LiteralRunsCompileToEscapes(p[from..to]);
  }

  // ---------- What a pattern means ----------

  /** The direct matcher: `?` takes one character, `*` any number, everything else itself. */
  predicate Glob(pattern: string, text: string)
    decreases |pattern|, |text|
  {
    if pattern == "" then text == ""
    else if pattern[0] == '*' then
      Glob(pattern[1..], text) || (text != "" && Glob(pattern, text[1..]))
    else
      text != "" && (pattern[0] == '?' || pattern[0] == text[0]) && Glob(pattern[1..], text[1..])
  }

  /** One piece of text per pattern character, each of the right form. */
  ghost predicate Fits(pattern: string, pieces: seq<string>) {
    && |pieces| == |pattern|
    && forall i | 0 <= i < |pattern| ::
         (pattern[i] == '?' ==> |pieces[i]| == 1) && (!IsWildcard(pattern[i]) ==> pieces[i] == [pattern[i]])
  }

  ghost function Concat(pieces: seq<string>): string {
    if pieces == [] then "" else pieces[0] + Concat(pieces[1..])
  }

  /** The matcher accepts exactly the texts that can be cut into one fitting piece per pattern character. */
  lemma {:induction false} GlobMeansFittingPieces(pattern: string, text: string)
    ensures Glob(pattern, text) <==> exists pieces :: Fits(pattern, pieces) && Concat(pieces) == text
  {
    if Glob(pattern, text) {
      var pieces := PiecesOf(pattern, text);
    }
    if pieces :| Fits(pattern, pieces) && Concat(pieces) == text {
      FittingPiecesGlob(pattern, pieces);
    }
  }

  lemma {:induction false} PiecesOf(pattern: string, text: string) returns (pieces: seq<string>)
    requires Glob(pattern, text)
    ensures Fits(pattern, pieces) && Concat(pieces) == text
    decreases |pattern|, |text|
  {
    if pattern == "" {
      pieces := [];
    } else if pattern[0] == '*' && !Glob(pattern[1..], text) {
      var rest := PiecesOf(pattern, text[1..]);
      pieces := [[text[0]] + rest[0]] + rest[1..];
      assert pieces[1..] == rest[1..];
      assert Concat(pieces) == [text[0]] + Concat(rest);
    } else {
      var first := if pattern[0] == '*' then "" else [text[0]];
      var rest := PiecesOf(pattern[1..], text[|first|..]);
      pieces := [first] + rest;
      assert pieces[1..] == rest;
      forall i | 0 <= i < |pattern|
        ensures (pattern[i] == '?' ==> |pieces[i]| == 1) && (!IsWildcard(pattern[i]) ==> pieces[i] == [pattern[i]])
      {
        if i > 0 {
          assert pattern[i] == pattern[1..][i - 1] && pieces[i] == rest[i - 1];
        }
      }
    }
  }

  lemma {:induction false} FittingPiecesGlob(pattern: string, pieces: seq<string>)
    requires Fits(pattern, pieces)
    ensures Glob(pattern, Concat(pieces))
    decreases |pattern|, if pieces == [] then 0 else |pieces[0]|
  {
    if pattern != "" {
      var text := Concat(pieces);
      if pattern[0] == '*' && pieces[0] != "" {
        var shorter := [pieces[0][1..]] + pieces[1..];
        FittingPiecesGlob(pattern, shorter);
        assert shorter[1..] == pieces[1..];
        assert Concat(shorter) == text[1..];
      } else {
        forall i | 0 <= i < |pattern[1..]|
          ensures (pattern[1..][i] == '?' ==> |pieces[1..][i]| == 1)
               && (!IsWildcard(pattern[1..][i]) ==> pieces[1..][i] == [pattern[1..][i]])
        {
          assert pattern[1..][i] == pattern[i + 1] && pieces[1..][i] == pieces[i + 1];
        }
        FittingPiecesGlob(pattern[1..], pieces[1..]);
        assert text == pieces[0] + Concat(pieces[1..]);
        assert text[|pieces[0]|..] == Concat(pieces[1..]);
      }
    }
  }

  // ---------- The compiler is right ----------

  function TokenOf(c: char): Token {
    if c == '*' then DotStar else if c == '?' then Dot else Exactly(c)
  }

  function TokensOf(pattern: string): seq<Token> {
    seq(|pattern|, i requires 0 <= i < |pattern| => TokenOf(pattern[i]))
  }

  /** Whatever the pattern, the emitted regex is well formed and reads back as one token per pattern character. */
  lemma {:induction false} EmittedRegexReadsBack(pattern: string)
    ensures ReadRegex(CompileAll(pattern)) == Some(TokensOf(pattern))
    ensures pattern != "" ==> CompileAll(pattern) != "" && CompileAll(pattern)[0] != '*'
  {
    if pattern != "" {
      var rest := CompileAll(pattern[1..]);
      EmittedRegexReadsBack(pattern[1..]);
      assert TokensOf(pattern) == [TokenOf(pattern[0])] + TokensOf(pattern[1..]);
      CompiledCharReadsBack(pattern[0], rest);
    } else {
      assert TokensOf(pattern) == [];
    }
  }

  lemma CompiledCharReadsBack(c: char, rest: string)
    requires rest == "" || rest[0] != '*'
    ensures ReadRegex(Compile(c) + rest) == Prepend(TokenOf(c), ReadRegex(rest))
    ensures Compile(c) != "" && Compile(c)[0] != '*'
  {
    var s := Compile(c) + rest;
    if c == '*' || c == '?' {
      assert s[|Compile(c)|..] == rest;
    } else {
      assert s[|Compile(c)|..] == rest;
    }
  }

  /** Matching where wildcards stop at newlines, as a full match of the compiled tokens. */
  predicate LineGlob(pattern: string, text: string) { FullMatch(TokensOf(pattern), text) }

  lemma TokensOfTail(pattern: string)
    requires pattern != ""
    ensures TokensOf(pattern)[0] == TokenOf(pattern[0]) && TokensOf(pattern)[1..] == TokensOf(pattern[1..])
  {
  }

  /** On a text without newlines the compiled tokens match exactly what the glob does. */
  lemma {:induction false} LineGlobIsGlob(pattern: string, text: string)
    requires '\n' !in text
    ensures LineGlob(pattern, text) <==> Glob(pattern, text)
    decreases |pattern|, |text|
  {
    if pattern != "" {
      TokensOfTail(pattern);
      if pattern[0] == '*' {
        LineGlobIsGlob(pattern[1..], text);
      }
      if text != "" {
        LineGlobIsGlob(if pattern[0] == '*' then pattern else pattern[1..], text[1..]);
      }
    }
  }

  predicate HasWildcard(pattern: string) { exists c | c in pattern :: IsWildcard(c) }

  lemma {:induction false} GlobWithoutWildcards(pattern: string, text: string)
    requires !HasWildcard(pattern)
    ensures Glob(pattern, text) <==> pattern == text
  {
    if pattern != "" {
      assert pattern[0] in pattern;
      if text != "" {
        GlobWithoutWildcards(pattern[1..], text[1..]);
        assert pattern == [pattern[0]] + pattern[1..] && text == [text[0]] + text[1..];
      }
    }
  }

  lemma {:induction false} StarMatchesAll(text: string)
    ensures Glob("*", text)
  {
    assert "*"[1..] == "";
    if text != "" {
      StarMatchesAll(text[1..]);
    }
  }

  /** What wild_card_match answers. */
  predicate Matches(text: Option<string>, pattern: Option<string>) {
    if pattern == Some("*") then true
    else if text.None? || pattern.None? then false
    else if HasWildcard(pattern.value) then LineGlob(pattern.value, text.value)
    else pattern.value == text.value
  }

  method WildCardMatch(text: Option<string>, pattern: Option<string>) returns (matched: bool)
    ensures matched == Matches(text, pattern)
  {
    if pattern == Some("*") {
      return true;
    }
    if text.None? || pattern.None? {
      return false;
    }
    if |pattern.value| == 0 {
      return |text.value| == 0;
    }
    for i := 0 to |pattern.value|
      invariant forall c | c in pattern.value[..i] :: !IsWildcard(c)
    {
      if pattern.value[i] == '*' || pattern.value[i] == '?' {
        var regex := ToRegexPattern(pattern.value);
        EmittedRegexReadsBack(pattern.value);
        assert pattern.value[i] in pattern.value;
        return FullMatch(ReadRegex(regex).value, text.value);
      }
      assert pattern.value[..i + 1] == pattern.value[..i] + [pattern.value[i]];
    }
    assert pattern.value[..|pattern.value|] == pattern.value;
    return pattern.value == text.value;
  }

  /** On every text without a newline, wild_card_match is the direct matcher. */
  lemma MatchesIsGlob(text: string, pattern: string)
    requires '\n' !in text
    ensures Matches(Some(text), Some(pattern)) <==> Glob(pattern, text)
  {
    StarMatchesAll(text);
    if HasWildcard(pattern) {
      LineGlobIsGlob(pattern, text);
    } else {
      GlobWithoutWildcards(pattern, text);
    }
  }

  /** A pattern is met by anything at all if it is a lone star, and else by a text that is present and fits it. */
  predicate Meets(text: Option<string>, pattern: string) {
    pattern == "*" || (text.Some? && Glob(pattern, text.value))
  }

  /** A missing text meets the lone star only; a text without newlines is matched as the direct matcher matches it. */
  lemma MatchesIsMeeting(text: Option<string>, pattern: string)
    requires text.Some? ==> '\n' !in text.value
    ensures Matches(text, Some(pattern)) <==> Meets(text, pattern)
  {
    if text.Some? {
      MatchesIsGlob(text.value, pattern);
      StarMatchesAll(text.value);
    }
  }

  // ---------- Texts with newlines ----------

  function Newlines(s: string): nat {
    if s == "" then 0 else (if s[0] == '\n' then 1 else 0) + Newlines(s[1..])
  }

  /** A text that needs every wildcard of the pattern to take a newline. */
  function NewlineForWildcards(pattern: string): string {
    seq(|pattern|, i requires 0 <= i < |pattern| => if IsWildcard(pattern[i]) then '\n' else pattern[i])
  }

  lemma {:induction false} LineGlobKeepsNewlines(pattern: string, text: string)
    requires LineGlob(pattern, text)
    ensures Newlines(text) == Newlines(pattern)
    decreases |pattern|, |text|
  {
    if pattern != "" {
      TokensOfTail(pattern);
      if pattern[0] == '*' && !LineGlob(pattern[1..], text) {
        LineGlobKeepsNewlines(pattern, text[1..]);
      } else {
        LineGlobKeepsNewlines(pattern[1..], if pattern[0] == '*' then text else text[1..]);
      }
    }
  }

  lemma {:induction false} NewlinesFillWildcards(pattern: string)
    ensures var text := NewlineForWildcards(pattern);
            && Glob(pattern, text)
            && Newlines(text) >= Newlines(pattern)
            && (HasWildcard(pattern) ==> Newlines(text) > Newlines(pattern))
  {
    if pattern != "" {
      var text := NewlineForWildcards(pattern);
      NewlinesFillWildcards(pattern[1..]);
      assert text[1..] == NewlineForWildcards(pattern[1..]);
      if pattern[0] == '*' {
        assert Glob(pattern, text[1..]);
      }
      if HasWildcard(pattern) && !IsWildcard(pattern[0]) {
        var c :| c in pattern && IsWildcard(c);
        assert c in pattern[1..];
      }
    }
  }

  /**
    The newline hypothesis cannot be dropped, and exactly these patterns do not need it: `*` alone, which is answered
    before any regex is built, and patterns without wildcards.
   */
  lemma GlobOnAllTexts(pattern: string)
    ensures (forall text: string :: Matches(Some(text), Some(pattern)) <==> Glob(pattern, text))
            <==> (pattern == "*" || !HasWildcard(pattern))
  {
    if pattern == "*" || !HasWildcard(pattern) {
      forall text: string
        ensures Matches(Some(text), Some(pattern)) <==> Glob(pattern, text)
      {
        StarMatchesAll(text);
        if !HasWildcard(pattern) {
          GlobWithoutWildcards(pattern, text);
        }
      }
    } else {
      var text := NewlineForWildcards(pattern);
      NewlinesFillWildcards(pattern);
      if LineGlob(pattern, text) {
        LineGlobKeepsNewlines(pattern, text);
      }
      assert Glob(pattern, text) && !Matches(Some(text), Some(pattern));
    }
  }

  // ---------- Attributes ----------

  /** Every attribute a rule names is present on the span and matches the rule's pattern. */
  predicate AttributesMatch(attributes: map<string, string>, ruleAttributes: map<string, string>) {
    forall key | key in ruleAttributes ::
      key in attributes && Matches(Some(attributes[key]), Some(ruleAttributes[key]))
  }

  predicate AttributesMeet(attributes: Option<map<string, string>>, patterns: map<string, string>) {
    patterns == map[]
    || (attributes.Some? && forall key | key in patterns ::
          key in attributes.value && Meets(Some(attributes.value[key]), patterns[key]))
  }

  lemma AttributesMatchIsMeeting(attributes: map<string, string>, patterns: map<string, string>)
    requires forall key | key in attributes :: '\n' !in attributes[key]
    ensures AttributesMatch(attributes, patterns) <==>
              forall key | key in patterns :: key in attributes && Meets(Some(attributes[key]), patterns[key])
  {
    forall key | key in patterns && key in attributes
      ensures Matches(Some(attributes[key]), Some(patterns[key])) <==> Meets(Some(attributes[key]), patterns[key])
    {
      MatchesIsMeeting(Some(attributes[key]), patterns[key]);
    }
  }

  /** Counting the span attributes that match their rule pattern decides whether all rule patterns are met. */
  method AttributeMatch(attributes: Option<map<string, string>>, ruleAttributes: Option<map<string, string>>)
    returns (matched: bool)
    ensures matched == (ruleAttributes.None? || ruleAttributes.value == map[]
                        || (attributes.Some? && AttributesMatch(attributes.value, ruleAttributes.value)))
  {
    if ruleAttributes.None? || |ruleAttributes.value| == 0 {
      return true;
    }
    var rule := ruleAttributes.value;
    var wanted := rule.Keys;
    assert |wanted| == |rule|;
    if attributes.None? {
      return false;
    }
    var present := attributes.value;
    assert |present.Keys| == |present|;
    if |present| == 0 || |rule| > |present| {
      if wanted <= present.Keys {
        SubsetIsNoLarger(wanted, present.Keys);
      }
      return false;
    }
    var matchedCount := 0;
    var keys := present.Keys;
    ghost var hits: set<string> := {};
    while keys != {}
      invariant keys <= present.Keys
      invariant hits == set key | key in present.Keys - keys && key in rule
                                  && Matches(Some(present[key]), Some(rule[key]))
      invariant matchedCount == |hits|
      decreases keys
    {
      var key :| key in keys;
      keys := keys - {key};
      if key in rule {
        var hit := WildCardMatch(Some(present[key]), Some(rule[key]));
        if hit {
          matchedCount := matchedCount + 1;
          hits := hits + {key};
        }
      }
    }
    assert hits <= wanted;
    SubsetOfSameSize(hits, wanted);
    matched := matchedCount == |rule|;
  }

  lemma {:induction false} SubsetIsNoLarger<T>(a: set<T>, b: set<T>)
    requires a <= b
    ensures |a| <= |b|
  {
    if a != {} {
      var x :| x in a;
      SubsetIsNoLarger(a - {x}, b - {x});
    }
  }

  lemma SubsetOfSameSize<T>(a: set<T>, b: set<T>)
    requires a <= b
    ensures |a| == |b| <==> a == b
  {
    if a != b {
      var x :| x in b && x !in a;
      SubsetIsNoLarger(a, b - {x});
    }
  }
}
