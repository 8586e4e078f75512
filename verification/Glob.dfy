/** Docker ignore patterns: translation to a regular expression, and what the translation accepts. */
module Glob {

  /**
   * One compiled piece of a translated pattern. `Remainder` stands for everything from the first `[`
   * or the first escaped letter or digit on: what that part accepts is decided by the regular
   * expression engine, so it is a parameter of the model (`Engine`).
   */
  datatype Token =
    | Literal(c: char)
    | OneInName            // [^/]
    | AnyInName            // [^/]*
    | AnyTail              // .*
    | AnyDirectories       // (.*/)?
    | StartOfText          // ^ (the translation does not escape it)
    | Remainder(text: string)

  /** Whether the engine accepts `path[pos..]` for a remainder of the pattern text. */
  type Engine = (string, string, nat) -> bool

  const WILDCARDS: set<char> := {'*', '?', '[', '\\'}

  predicate IsAlphanumeric(c: char) {
    'a' <= c <= 'z' || 'A' <= c <= 'Z' || '0' <= c <= '9'
  }

  /** Where a `**` that starts at `i` ends: a separator right after it belongs to it. */
  function AfterDoubleStar(pattern: string, i: nat): (j: nat)
    requires i + 1 < |pattern|
    ensures i + 2 <= j <= |pattern| && j <= i + 3
  {
    if i + 2 < |pattern| && pattern[i + 2] == '/' then i + 3 else i + 2
  }

  /** The tokens of `pattern[i..]`. */
  function Translate(pattern: string, i: nat): seq<Token>
    requires i <= |pattern|
    decreases |pattern| - i
  {
    if i == |pattern| then []
    else if pattern[i] == '*' then
      if i + 1 < |pattern| && pattern[i + 1] == '*' then
        var j := AfterDoubleStar(pattern, i);
        [if j == |pattern| then AnyTail else AnyDirectories] + Translate(pattern, j)
      else
        [AnyInName] + Translate(pattern, i + 1)
    else if pattern[i] == '?' then [OneInName] + Translate(pattern, i + 1)
    else if pattern[i] == '^' then [StartOfText] + Translate(pattern, i + 1)
    else if pattern[i] == '[' then [Remainder(pattern[i..])]
    else if pattern[i] == '\\' then
      if i + 1 == |pattern| then [Literal('\\')]
      else if IsAlphanumeric(pattern[i + 1]) then [Remainder(pattern[i..])]
      else [Literal(pattern[i + 1])] + Translate(pattern, i + 2)
    else [Literal(pattern[i])] + Translate(pattern, i + 1)
  }

  /** The index loop that builds the expression piece by piece. */
  method PatternRegex(pattern: string) returns (result: seq<Token>)
    ensures result == Translate(pattern, 0)
  {
    result := [];
    var index := 0;
    while index < |pattern|
      invariant 0 <= index <= |pattern|
      invariant result + Translate(pattern, index) == Translate(pattern, 0)
    {
      var character := pattern[index];
      var start := index;
      index := index + 1;
      var piece := Literal(character);
      if character == '*' {
        if index < |pattern| && pattern[index] == '*' {
          index := index + 1;
          if index < |pattern| && pattern[index] == '/' {
            index := index + 1;
          }
          piece := if index >= |pattern| then AnyTail else AnyDirectories;
        } else {
          piece := AnyInName;
        }
      } else if character == '?' {
        piece := OneInName;
      } else if character == '^' {
        piece := StartOfText;
      } else if character == '[' {
        piece, index := Remainder(pattern[start..]), |pattern|;
      } else if character == '\\' && index < |pattern| {
        if IsAlphanumeric(pattern[index]) {
          piece, index := Remainder(pattern[start..]), |pattern|;
        } else {
          piece, index := Literal(pattern[index]), index + 1;
        }
      }
      assert Translate(pattern, start) == [piece] + Translate(pattern, index);
      Reassociate(result, piece, Translate(pattern, index));
      result := result + [piece];
    }
  }

  lemma Reassociate<T>(a: seq<T>, x: T, b: seq<T>)
    ensures a + ([x] + b) == (a + [x]) + b
  {}

  predicate Lacks(s: string, c: char, lo: nat, hi: nat)
    requires hi <= |s|
  {
    forall i :: lo <= i < hi ==> s[i] != c
  }

  /** Full match of `tokens` against `path[pos..]`; `.` does not match a line feed. */
  predicate Accepts(tokens: seq<Token>, path: string, pos: nat, engine: Engine)
    requires pos <= |path|
    decreases |tokens|
  {
    if tokens == [] then pos == |path|
    else
      var rest := tokens[1..];
      match tokens[0]
      case Literal(c) => pos < |path| && path[pos] == c && Accepts(rest, path, pos + 1, engine)
      case OneInName => pos < |path| && path[pos] != '/' && Accepts(rest, path, pos + 1, engine)
      case AnyInName =>
        exists k :: pos <= k <= |path| && Lacks(path, '/', pos, k) && Accepts(rest, path, k, engine)
      case AnyTail =>
        exists k :: pos <= k <= |path| && Lacks(path, '\n', pos, k) && Accepts(rest, path, k, engine)
      case AnyDirectories =>
        || Accepts(rest, path, pos, engine)
        || exists k :: pos < k <= |path| && path[k - 1] == '/' && Lacks(path, '\n', pos, k - 1)
                       && Accepts(rest, path, k, engine)
      case StartOfText => pos == 0 && Accepts(rest, path, pos, engine)
      case Remainder(text) => engine(text, path, pos)
  }

  /** The position of the first wildcard, or the length when there is none. */
  function FirstWildcard(text: string): (n: nat)
    ensures n <= |text|
    ensures forall i :: 0 <= i < n ==> text[i] !in WILDCARDS
    ensures n < |text| ==> text[n] in WILDCARDS
  {
    if text == "" || text[0] in WILDCARDS then 0 else 1 + FirstWildcard(text[1..])
  }

  predicate StartsWithCaret(text: string) {
    text != "" && text[0] == '^'
  }

  /** `startswith` / `endswith`. */
  predicate HasPrefix(s: string, prefix: string) {
    prefix <= s
  }

  predicate HasSuffix(s: string, suffix: string) {
    |suffix| <= |s| && s[|s| - |suffix|..] == suffix
  }

  /** A pattern whose only wildcard is a leading `**` is compared by suffix, not by expression. */
  predicate IsSuffixPattern(text: string) {
    HasPrefix(text, "**") && FirstWildcard(text[2..]) == |text| - 2
  }

  predicate SuffixMatches(text: string, path: string)
    requires HasPrefix(text, "**")
  {
    var suffix := text[2..];
    HasSuffix(path, suffix) || (HasPrefix(suffix, "/") && path == suffix[1..])
  }

  predicate Matches(text: string, path: string, engine: Engine) {
    if IsSuffixPattern(text) then SuffixMatches(text, path)
    else Accepts(Translate(text, 0), path, 0, engine)
  }

  /** Up to the first wildcard the expression accepts only the text itself, character by character. */
  lemma {:induction false} LiteralPrefix(text: string, path: string, i: nat, engine: Engine)
    requires i <= FirstWildcard(text) && i <= |path|
    requires i == 0 ==> !StartsWithCaret(text)
    requires Accepts(Translate(text, i), path, i, engine)
    ensures FirstWildcard(text) <= |path|
    ensures forall j :: i <= j < FirstWildcard(text) ==> path[j] == text[j]
    ensures FirstWildcard(text) == |text| ==> |path| == |text|
    decreases |text| - i
  {
    if i < FirstWildcard(text) {
      LiteralFirst(text, path, i, engine);
      LiteralPrefix(text, path, i + 1, engine);
    }
  }

  /** Behind the start of a path, a character that is no wildcard stands for itself; a caret accepts nothing. */
  lemma LiteralFirst(text: string, path: string, i: nat, engine: Engine)
    requires i < |text| && i <= |path| && text[i] !in WILDCARDS && (i == 0 ==> text[0] != '^')
    requires Accepts(Translate(text, i), path, i, engine)
    ensures i < |path| && path[i] == text[i] && Accepts(Translate(text, i + 1), path, i + 1, engine)
  {
    assert Translate(text, i)[1..] == Translate(text, i + 1);
  }

  /** The pruning test for one exception: can it match anything below `directory`? */
  predicate MayReachBelow(text: string, directory: string) {
    var prefix := directory + "/";
    var n := FirstWildcard(text);
    if n == |text| then HasPrefix(text + "/", prefix)
    else HasPrefix(text[..n], prefix) || HasPrefix(prefix, text[..n])
  }

  // What an anchor inside an expression does to the paths it accepts.

  /** The token may consume nothing. */
  predicate CanBeEmpty(token: Token) {
    token.AnyInName? || token.AnyTail? || token.AnyDirectories? || token.StartOfText?
  }

  /** The number of tokens up to the last anchor, itself included. */
  function LastAnchor(tokens: seq<Token>): (n: nat)
    ensures n <= |tokens|
    ensures n > 0 ==> tokens[n - 1] == StartOfText
    ensures forall i :: n <= i < |tokens| ==> tokens[i] != StartOfText
  {
    if tokens == [] then
      0
    else if LastAnchor(tokens[1..]) > 0 then
      LastAnchor(tokens[1..]) + 1
    else if tokens[0] == StartOfText then
      1
    else
      0
  }

  /** Where the piece of the pattern behind its first token ends. */
  function AfterPiece(pattern: string, i: nat): (j: nat)
    requires i < |pattern|
    ensures i < j <= |pattern|
  {
    if pattern[i] == '*' && i + 1 < |pattern| && pattern[i + 1] == '*' then
      AfterDoubleStar(pattern, i)
    else if pattern[i] == '\\' && i + 1 < |pattern| then
      i + 2
    else
      i + 1
  }

  /** A remainder, if there is one, is the last token. */
  predicate EndsInRemainder(tokens: seq<Token>) {
    forall i :: 0 <= i < |tokens| - 1 ==> !tokens[i].Remainder?
  }

  lemma {:induction false} RemainderIsLast(pattern: string, i: nat)
    requires i <= |pattern|
    ensures EndsInRemainder(Translate(pattern, i))
    decreases |pattern| - i
  {
    if i < |pattern| {
      var tokens := Translate(pattern, i);
      if !tokens[0].Remainder? {
        RemainderIsLast(pattern, AfterPiece(pattern, i));
        assert tokens == [tokens[0]] + Translate(pattern, AfterPiece(pattern, i));
      }
    }
  }

  /** Whatever stands before an anchor consumes nothing. */
  lemma {:induction false} AnchorHoldsBack(tokens: seq<Token>, path: string, pos: nat, engine: Engine)
    requires pos <= |path| && EndsInRemainder(tokens) && LastAnchor(tokens) > 0
    requires Accepts(tokens, path, pos, engine)
    ensures pos == 0 && Accepts(tokens[LastAnchor(tokens)..], path, 0, engine)
    ensures forall i :: 0 <= i < LastAnchor(tokens) ==> CanBeEmpty(tokens[i])
  {
    var rest := tokens[1..];
    if LastAnchor(rest) > 0 {
      assert tokens[LastAnchor(tokens)..] == rest[LastAnchor(rest)..];
      var next :| pos <= next <= |path| && Accepts(rest, path, next, engine)
        && (tokens[0].Literal? || tokens[0].OneInName? ==> next > 0);
      AnchorHoldsBack(rest, path, next, engine);
      assert forall i :: 0 < i < LastAnchor(tokens) ==> tokens[i] == rest[i - 1];
    }
  }

  lemma {:induction false} EmptyTokensAreSkipped(tokens: seq<Token>, n: nat, path: string, engine: Engine)
    requires n <= |tokens| && (forall i :: 0 <= i < n ==> CanBeEmpty(tokens[i]))
    requires Accepts(tokens[n..], path, 0, engine)
    ensures Accepts(tokens, path, 0, engine)
  {
    if n == 0 {
      assert tokens[0..] == tokens;
    } else {
      assert tokens[1..][n - 1..] == tokens[n..];
      EmptyTokensAreSkipped(tokens[1..], n - 1, path, engine);
    }
  }

  lemma UnanchoredReachesOnlyWhatMayReach(text: string, directory: string, path: string, engine: Engine)
    requires HasPrefix(path, directory + "/") && Matches(text, path, engine)
    requires !StartsWithCaret(text)
    ensures MayReachBelow(text, directory)
  {
    var prefix := directory + "/";
    if IsSuffixPattern(text) {
      assert text[0] in WILDCARDS;
      assert FirstWildcard(text) == 0;
      assert text[..0] <= prefix;
    } else {
      LiteralPrefix(text, path, 0, engine);
      var n := FirstWildcard(text);
      assert path[..n] == text[..n];
      if n == |text| {
        assert path[..n] == path && text[..n] == text;
        assert prefix <= text + "/";
      } else if n >= |prefix| {
        assert text[..n][..|prefix|] == path[..|prefix|] == prefix;
      } else {
        assert prefix[..n] == path[..n];
      }
    }
  }

  /** With no wildcard and no anchor at all, the translated expression accepts the text and nothing else. */
  lemma {:induction false} LiteralTail(text: string, i: nat, path: string, pos: nat, engine: Engine)
    requires i <= |text| && pos <= |path|
    requires forall j :: i <= j < |text| ==> text[j] !in WILDCARDS && text[j] != '^'
    ensures Accepts(Translate(text, i), path, pos, engine) <==> path[pos..] == text[i..]
    decreases |text| - i
  {
    if i < |text| {
      assert Translate(text, i) == [Literal(text[i])] + Translate(text, i + 1);
      assert Translate(text, i)[1..] == Translate(text, i + 1);
      assert text[i..] == [text[i]] + text[i + 1..];
      if pos < |path| {
        LiteralTail(text, i + 1, path, pos + 1, engine);
        assert path[pos..] == [path[pos]] + path[pos + 1..];
      }
    }
  }

  /**
   * For a doubled star, a separator and a literal, the suffix comparison accepts a path exactly when the
   * translated expression does and, additionally, paths whose leading directories hold a line feed.
   */
  lemma SuffixComparisonIsTheExpression(text: string, path: string, engine: Engine)
    requires HasPrefix(text, "**/") && |text| > 3 && IsSuffixPattern(text) && '^' !in text
    ensures Accepts(Translate(text, 0), path, 0, engine)
       <==> SuffixMatches(text, path) && Lacks(path, '\n', 0, if |path| >= |text| - 2 then |path| - (|text| - 2) else 0)
  {
    var literal := text[3..];
    var tokens := Translate(text, 0);
    assert AfterDoubleStar(text, 0) == 3;
    assert tokens == [AnyDirectories] + Translate(text, 3);
    assert tokens[1..] == Translate(text, 3);
    assert forall j :: 3 <= j < |text| ==> text[j] == text[2..][j - 2];
    assert text[2..] == ['/'] + literal;
    assert text[2..][1..] == literal;
    forall k | 0 <= k <= |path|
      ensures Accepts(Translate(text, 3), path, k, engine) <==> path[k..] == literal
    {
      LiteralTail(text, 3, path, k, engine);
    }
    assert path[0..] == path;
    if SuffixMatches(text, path) && HasSuffix(path, text[2..]) {
      var k := |path| - |literal|;
      assert path[k - 1..] == text[2..];
      assert path[k..] == path[k - 1..][1..];
    }
    if k :| 0 < k <= |path| && path[k - 1] == '/' && path[k..] == literal {
      assert k == |path| - |literal|;
      assert path[k - 1..] == [path[k - 1]] + path[k..];
    }
  }

  predicate IsWildcardFree(text: string, from: nat) {
    forall j :: from <= j < |text| ==> text[j] !in WILDCARDS
  }

  /** A text without wildcards is translated character by character. */
  lemma {:induction false} OneTokenPerCharacter(text: string, i: nat, n: nat)
    requires i + n <= |text| && IsWildcardFree(text, i)
    ensures |Translate(text, i)| == |text| - i && Translate(text, i)[n..] == Translate(text, i + n)
    decreases n, |text| - i
  {
    if n > 0 {
      OneTokenPerCharacter(text, i + 1, n - 1);
      assert Translate(text, i)[1..] == Translate(text, i + 1);
      assert Translate(text, i)[n..] == Translate(text, i)[1..][n - 1..];
    } else if i < |text| {
      OneTokenPerCharacter(text, i + 1, 0);
    }
  }

  lemma CaretToken(text: string, i: nat, j: nat)
    requires i <= j < |text| && IsWildcardFree(text, i) && text[j] == '^'
    ensures j - i < |Translate(text, i)| && Translate(text, i)[j - i] == StartOfText
  {
    OneTokenPerCharacter(text, i, j - i);
    assert Translate(text, i)[j - i..][0] == Translate(text, j)[0];
  }

  /** With a caret in the literal, the comparison accepts the literal itself and the expression does not. */
  lemma CaretSpoilsTheComparison(text: string, engine: Engine)
    requires HasPrefix(text, "**/") && |text| > 3 && IsSuffixPattern(text) && '^' in text
    ensures SuffixMatches(text, text[3..]) && !Accepts(Translate(text, 0), text[3..], 0, engine)
  {
    var literal, tokens := text[3..], Translate(text, 3);
    assert text[2..] == ['/'] + literal && text[2..][1..] == literal;
    assert forall j :: 3 <= j < |text| ==> text[j] == text[2..][j - 2];
    assert AfterDoubleStar(text, 0) == 3 && Translate(text, 0)[1..] == tokens;
    var j :| 3 <= j < |text| && text[j] == '^';
    CaretToken(text, 3, j);
    forall k | 0 <= k <= |literal|
      ensures !Accepts(tokens, literal, k, engine)
    {
      if Accepts(tokens, literal, k, engine) {
        AnchorsShortenTheText(text, literal, k, engine);
        assert false;
      }
    }
  }

  /** A wildcard-free text with a caret accepts only paths shorter than itself. */
  lemma AnchorsShortenTheText(text: string, path: string, k: nat, engine: Engine)
    requires |text| >= 3 && IsWildcardFree(text, 3) && LastAnchor(Translate(text, 3)) > 0
    requires k <= |path| && Accepts(Translate(text, 3), path, k, engine)
    ensures |path| < |text| - 3
  {
    var n := LastAnchor(Translate(text, 3));
    RemainderIsLast(text, 3);
    AnchorHoldsBack(Translate(text, 3), path, k, engine);
    OneTokenPerCharacter(text, 3, 0);
    OneTokenPerCharacter(text, 3, n);
    assert forall j :: 3 + n <= j < |text| ==> text[j] != '^' by {
      forall j | 3 + n <= j < |text| && text[j] == '^'
        ensures false
      {
        CaretToken(text, 3, j);
      }
    }
    LiteralTail(text, 3 + n, path, 0, engine);
    assert path[0..] == path;
  }

  /** So the two agree on all paths without line feeds exactly if the text has no caret. */
  lemma SuffixComparisonExactly(text: string, engine: Engine)
    requires HasPrefix(text, "**/") && |text| > 3 && IsSuffixPattern(text) && '\n' !in text
    ensures '^' !in text <==>
              forall path :: '\n' !in path ==>
                (Accepts(Translate(text, 0), path, 0, engine) <==> SuffixMatches(text, path))
  {
    if '^' in text {
      CaretSpoilsTheComparison(text, engine);
      assert '\n' !in text[3..];
    } else {
      forall path | '\n' !in path
        ensures Accepts(Translate(text, 0), path, 0, engine) <==> SuffixMatches(text, path)
      {
        SuffixComparisonIsTheExpression(text, path, engine);
      }
    }
  }

  /** Without the separator the shortcut is strictly wider than the expression it replaces. */
  lemma SuffixComparisonIsWider(engine: Engine)
    ensures Matches("**foo", "xfoo", engine)
    ensures !Accepts(Translate("**foo", 0), "xfoo", 0, engine)
  {}
}
